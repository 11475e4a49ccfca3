/**
 Runs in which a session action is delivered across a disable: two settings PUTs that overlap,
 and a rollback that fails.
 */
module PolicyCrossings {
  import opened SessionPolicy

  lemma Steps3(s: State, e1: Event, e2: Event, e3: Event)
    requires Possible(s, e1) && Possible(Apply(s, e1), e2) && Possible(Apply(Apply(s, e1), e2), e3)
    ensures Legal(s, [e1, e2, e3]) && Run(s, [e1, e2, e3]) == Apply(Apply(Apply(s, e1), e2), e3)
  {
    var s1, s2 := Apply(s, e1), Apply(Apply(s, e1), e2);
    assert [e1, e2, e3][1..] == [e2, e3] && [e2, e3][1..] == [e3] && [e3][1..] == [];
    assert Legal(s2, [e3]) && Run(s2, [e3]) == Apply(s2, e3);
    assert Legal(s1, [e2, e3]) && Run(s1, [e2, e3]) == Run(s2, [e3]);
  }

  // ------------------------------------------------------------ running a schedule

  const ON := Policy(true, true, Full, Full, Full, 24)
  const OFF := Policy(false, true, Full, Full, Full, 24)

  function Put(t: nat, policy: Policy): Event {
    PutCommit(t, policy, true, true, true, true)
  }

  function EnqueueA(): Event {
    Enqueue("a", "h", "k", "f", 0, true)
  }

  function DeliverA(): Event {
    Deliver("h", 1, true, true, ["a"], {}, true)
  }

  lemma {:induction false} LegalAppend(s: State, a: seq<Event>, ev: Event)
    requires Legal(s, a) && Possible(Run(s, a), ev)
    ensures Legal(s, a + [ev]) && Run(s, a + [ev]) == Apply(Run(s, a), ev)
    decreases |a|
  {
    if a == [] {
      assert a + [ev] == [ev];
      assert [ev][1..] == [];
    } else {
      assert (a + [ev])[1..] == a[1..] + [ev];
      LegalAppend(Apply(s, a[0]), a[1..], ev);
    }
  }

  // A run that delivers across a change has a commit that is not safe.
  lemma CrossingIsUnsafe(config: Config, evs: seq<Event>, i: nat)
    requires Legal(Start(config), evs)
    requires var log := Run(Start(config), evs).log;
      i < |log| && log[i].Sent? && !StillAllowed(log[i].id, log[i].since, log[..i])
    ensures !AllCommitsSafe(Start(config), evs)
  {
    if AllCommitsSafe(Start(config), evs) {
      DeliveredRightly(config, evs, i);
    }
  }

  // The schedules as data: two PUTs that overlap, or a rollback that fails.
  function OverlappingPuts(): seq<Event> {
    [PutLoad(0), PutLoad(1), Put(1, ON), EnqueueA(), Put(0, OFF), PutLoad(2), Put(2, ON), DeliverA()]
  }

  function FailedRollback(): seq<Event> {
    [EnqueueA(), PutLoad(0), PutCommit(0, OFF, true, false, true, false), PutLoad(1), Put(1, ON), DeliverA()]
  }

  function HeldA(since: nat): map<Id, Action> {
    map["a" := Action("h", "k", "f", 0, ACTION_TTL_MS, Queued, since)]
  }

  lemma DeliversSince(s: State, since: nat)
    requires s.actions == HeldA(since)
    requires s.config.sessions == ON
    ensures Possible(s, DeliverA())
    ensures Apply(s, DeliverA()).log == s.log + [Sent("a", since, ON)]
  {
    var expired := Expire(s.actions, 1);
    assert expired == s.actions;
    assert Deliverable(expired, "a", "h", 1);
    assert IsBatch(expired, "h", 1, ["a"]);
    assert ["a"][1..] == [];
    assert Readable(["a"], {}) == ["a"] + Readable([], {});
    assert Readable(["a"], {}) == ["a"];
    assert SentLog(MarkDelivered(expired, ["a"]), ["a"], ON) == [Sent("a", since, ON)];
  }

  // One more event at the end of a run that has reached `s1`.
  lemma Then(s0: State, evs: seq<Event>, s1: State, ev: Event)
    requires Legal(s0, evs) && Run(s0, evs) == s1 && Possible(s1, ev)
    ensures Legal(s0, evs + [ev]) && Run(s0, evs + [ev]) == Apply(s1, ev)
  {
    LegalAppend(s0, evs, ev);
  }

  // A PUT of its own that switches actions on.
  lemma SwitchOn(s0: State, evs: seq<Event>, s: State, t: nat)
    requires Legal(s0, evs) && Run(s0, evs) == s
    requires s.puts == map[] && s.config.sessions == OFF
    ensures Legal(s0, evs + [PutLoad(t), Put(t, ON)])
    ensures Run(s0, evs + [PutLoad(t), Put(t, ON)]) ==
      s.(config := s.config.(sessions := ON), log := s.log + [Changed(OFF, ON)])
  {
    Then(s0, evs, s, PutLoad(t));
    var loaded := s.(puts := map[t := s.config]);
    Then(s0, evs + [PutLoad(t)], loaded, Put(t, ON));
    assert evs + [PutLoad(t), Put(t, ON)] == (evs + [PutLoad(t)]) + [Put(t, ON)];
    assert loaded.puts - {t} == map[];
  }

  // Delivering now sends an action across a disable committed after it was enqueued.
  lemma DeliveredAcross(s0: State, evs: seq<Event>, s: State, since: nat, k: nat)
    requires Legal(s0, evs) && Run(s0, evs) == s
    requires s.actions == HeldA(since) && s.config.sessions == ON
    requires since < k < |s.log| && s.log[k] == Changed(ON, OFF)
    ensures Legal(s0, evs + [DeliverA()])
    ensures var log := Run(s0, evs + [DeliverA()]).log;
      |log| == |s.log| + 1 && log[|s.log|] == Sent("a", since, ON) && !StillAllowed("a", since, log[..|s.log|])
  {
    DeliversSince(s, since);
    Then(s0, evs, s, DeliverA());
    var log := Run(s0, evs + [DeliverA()]).log;
    assert log[..|s.log|] == s.log;
  }

  lemma OverlapEnqueues()
    ensures var s0 := Start(Config(OFF, ""));
      && Legal(s0, OverlappingPuts()[..4])
      && Run(s0, OverlappingPuts()[..4]) ==
           State(Config(ON, ""), HeldA(1), map["k" := "a"], map[0 := Config(OFF, "")],
                 [Changed(OFF, ON), Enqueued("a", ON)])
  {
    var s0 := Start(Config(OFF, ""));
    Steps3(s0, PutLoad(0), PutLoad(1), Put(1, ON));
    var e3 := [PutLoad(0), PutLoad(1), Put(1, ON)];
    var s3 := State(Config(ON, ""), map[], map[], map[0 := Config(OFF, "")], [Changed(OFF, ON)]);
    assert Run(s0, e3) == s3;
    Then(s0, e3, s3, EnqueueA());
    assert OverlappingPuts()[..4] == e3 + [EnqueueA()];
  }

  // A PUT that read "off" sees no change when it switches actions off, and cancels nothing.
  lemma StaleSwitchOff(s: State)
    requires s.config == Config(ON, "") && s.puts == map[0 := Config(OFF, "")]
    ensures Apply(s, Put(0, OFF)) ==
      s.(config := Config(OFF, ""), puts := map[], log := s.log + [Changed(ON, OFF)])
  {
    assert s.puts - {0} == map[];
  }

  lemma OverlapMissesTheDisable()
    ensures var s0 := Start(Config(OFF, ""));
      && Legal(s0, OverlappingPuts()[..5])
      && Run(s0, OverlappingPuts()[..5]) ==
           State(Config(OFF, ""), HeldA(1), map["k" := "a"], map[],
                 [Changed(OFF, ON), Enqueued("a", ON), Changed(ON, OFF)])
  {
    OverlapEnqueues();
    var s0, e4 := Start(Config(OFF, "")), OverlappingPuts()[..4];
    StaleSwitchOff(Run(s0, e4));
    Then(s0, e4, Run(s0, e4), Put(0, OFF));
    assert OverlappingPuts()[..5] == e4 + [Put(0, OFF)];
  }

  lemma OverlapSwitches()
    ensures var s0 := Start(Config(OFF, ""));
      && Legal(s0, OverlappingPuts()[..7])
      && Run(s0, OverlappingPuts()[..7]) ==
           State(Config(ON, ""), HeldA(1), map["k" := "a"], map[],
                 [Changed(OFF, ON), Enqueued("a", ON), Changed(ON, OFF), Changed(OFF, ON)])
  {
    OverlapMissesTheDisable();
    var s0, e5 := Start(Config(OFF, "")), OverlappingPuts()[..5];
    SwitchOn(s0, e5, Run(s0, e5), 2);
    assert OverlappingPuts()[..7] == e5 + [PutLoad(2), Put(2, ON)];
  }

  // PUT 0 read "off" before PUT 1 switched actions on; so when it switches them off again it
  // sees no change and cancels nothing.  Actions come back on, and the old action is sent.
  lemma OverlapDeliversAcrossADisable()
    ensures var s := Start(Config(OFF, ""));
      && Legal(s, OverlappingPuts())
      && (var log := Run(s, OverlappingPuts()).log;
          |log| == 5 && log[4].Sent? && !StillAllowed(log[4].id, log[4].since, log[..4]))
      && !AllCommitsSafe(s, OverlappingPuts())
  {
    OverlapSwitches();
    var s0, e7 := Start(Config(OFF, "")), OverlappingPuts()[..7];
    DeliveredAcross(s0, e7, Run(s0, e7), 1, 2);
    assert OverlappingPuts() == e7 + [DeliverA()];
    CrossingIsUnsafe(Config(OFF, ""), OverlappingPuts(), 4);
  }

  lemma RollbackFails()
    ensures var s0 := Start(Config(ON, ""));
      && Legal(s0, FailedRollback()[..3])
      && Run(s0, FailedRollback()[..3]) ==
           State(Config(OFF, ""), HeldA(0), map["k" := "a"], map[], [Enqueued("a", ON), Changed(ON, OFF)])
  {
    var s0 := Start(Config(ON, ""));
    var off := PutCommit(0, OFF, true, false, true, false);
    Steps3(s0, EnqueueA(), PutLoad(0), off);
    assert FailedRollback()[..3] == [EnqueueA(), PutLoad(0), off];
    assert Apply(s0, EnqueueA()) == State(Config(ON, ""), HeldA(0), map["k" := "a"], map[], [Enqueued("a", ON)]);
  }

  lemma RollbackSwitches()
    ensures var s0 := Start(Config(ON, ""));
      && Legal(s0, FailedRollback()[..5])
      && Run(s0, FailedRollback()[..5]) ==
           State(Config(ON, ""), HeldA(0), map["k" := "a"], map[],
                 [Enqueued("a", ON), Changed(ON, OFF), Changed(OFF, ON)])
  {
    RollbackFails();
    var s0, e3 := Start(Config(ON, "")), FailedRollback()[..3];
    SwitchOn(s0, e3, Run(s0, e3), 1);
    assert FailedRollback()[..5] == e3 + [PutLoad(1), Put(1, ON)];
  }

  // Cancelling fails and so does the rollback: the policy is off, the action still queued.
  lemma FailedRollbackDeliversAcrossADisable()
    ensures var s := Start(Config(ON, ""));
      && Legal(s, FailedRollback())
      && (var log := Run(s, FailedRollback()).log;
          |log| == 4 && log[3].Sent? && !StillAllowed(log[3].id, log[3].since, log[..3]))
      && !AllCommitsSafe(s, FailedRollback())
  {
    RollbackSwitches();
    var s0, e5 := Start(Config(ON, "")), FailedRollback()[..5];
    DeliveredAcross(s0, e5, Run(s0, e5), 0, 1);
    assert FailedRollback() == e5 + [DeliverA()];
    CrossingIsUnsafe(Config(ON, ""), FailedRollback(), 3);
  }
}
