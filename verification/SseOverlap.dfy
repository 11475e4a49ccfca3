/**
 Broadcasts that overlap: with two callers a subscriber can be left with a gap, so that exactly
 the schedules of a single caller are safe.
 */
module SseOverlap {
  import opened SseBroker

  predicate CallersBelow(schedule: seq<Event>, n: nat) {
    forall e :: e in schedule && e.Move? ==> e.tid < n
  }

  // Two callers; one subscriber that has been sent k payloads and has read none.
  function Unread(k: nat): State {
    State(Hub([Subscriber(Range(0, k), [], false, 0)], {0}, k), [Quiet, Quiet])
  }

  lemma {:induction false} FillBuffer(k: nat) returns (schedule: seq<Event>)
    requires k <= BUFFER_SIZE
    ensures Run(Init(2), schedule) == Unread(k) && CallersBelow(schedule, 2)
  {
    if k == 0 {
      schedule := [Join];
      assert Run(Init(2), [Join]) == Run(Step(Init(2), Join), []);
    } else {
      var before := FillBuffer(k - 1);
      var s0 := Unread(k - 1);
      var e0, e1 := Move(0, [0]), Move(0, []);
      var s1 := Step(s0, e0);
      assert Lists([0], {0});
      var s2 := Step(s1, e1);
      assert s2.hub.subs[0].buffer == Range(0, k);
      assert Step(s2, e1) == Unread(k);
      Run3(s0, e0, e1, e1);
      schedule := before + [e0, e1, e1];
      RunConcat(Init(2), before, [e0, e1, e1]);
    }
  }

  lemma Run3(s: State, e0: Event, e1: Event, e2: Event)
    ensures Run(s, [e0, e1, e2]) == Step(Step(Step(s, e0), e1), e2)
  {
    assert [e0, e1, e2][1..] == [e1, e2] && [e1, e2][1..] == [e2] && [e2][1..] == [];
    assert Run(s, [e0, e1, e2]) == Run(Step(s, e0), [e1, e2]);
    assert Run(Step(s, e0), [e1, e2]) == Run(Step(Step(s, e0), e1), [e2]);
  }

  /**
   With two overlapping calls a registered subscriber can get a later payload after missing
   an earlier one: its buffer is full for the first call, it reads once, and the second
   call delivers before the first one evicts.
   */
  lemma OverlapLeavesGap() returns (schedule: seq<Event>)
    ensures CallersBelow(schedule, 2)
    ensures var s := Run(Init(2), schedule);
            0 in s.hub.registered && |s.hub.subs| == 1 && !Segment(s.hub.subs[0])
  {
    var before := FillBuffer(BUFFER_SIZE);
    OverlapEnds();
    var first, second := [Move(0, [0]), Move(0, []), Read(0)], [Move(1, [0]), Move(1, []), Leave(1)];
    schedule := before + first + second;
    RunConcat(Init(2), before + first, second);
    RunConcat(Init(2), before, first);
  }

  // From a full buffer: the first call misses the subscriber, it reads, the second call does not.
  lemma OverlapEnds()
    ensures var s := Run(Run(Unread(BUFFER_SIZE), [Move(0, [0]), Move(0, []), Read(0)]),
        [Move(1, [0]), Move(1, []), Leave(1)]);
            0 in s.hub.registered && |s.hub.subs| == 1 && !Segment(s.hub.subs[0])
  {
    var s0 := Unread(BUFFER_SIZE);
    assert Lists([0], {0});
    var s1 := Step(s0, Move(0, [0]));
    var s2 := Step(s1, Move(0, []));
    var s3 := Step(s2, Read(0));
    Run3(s0, Move(0, [0]), Move(0, []), Read(0));
    var s4 := Step(s3, Move(1, [0]));
    var s5 := Step(s4, Move(1, []));
    Run3(s3, Move(1, [0]), Move(1, []), Leave(1));
    var got := s5.hub.subs[0].Got();
    assert |got| == 17 && got[16] == 17;
  }

  // ---------------------------------------------- how many callers leave no gap

  // The same state with further callers that have not begun.
  function Padded(s: State, extra: nat): State {
    State(s.hub, s.casts + seq(extra, i => Quiet))
  }

  lemma PaddedStep(s: State, e: Event, extra: nat)
    requires e.Move? ==> e.tid < |s.casts|
    ensures Step(Padded(s, extra), e) == Padded(Step(s, e), extra)
  {
    if e.Move? {
      var more := seq(extra, i => Quiet);
      var c := Step(s, e).casts[e.tid];
      assert (s.casts + more)[e.tid] == s.casts[e.tid];
      assert (s.casts + more)[e.tid := c] == s.casts[e.tid := c] + more;
      assert Step(s, e).casts == s.casts[e.tid := c];
      assert Step(Padded(s, extra), e).casts == (s.casts + more)[e.tid := c];
    }
  }

  lemma {:induction false} PaddedRun(s: State, schedule: seq<Event>, extra: nat)
    requires CallersBelow(schedule, |s.casts|)
    ensures Run(Padded(s, extra), schedule) == Padded(Run(s, schedule), extra)
    decreases |schedule|
  {
    if schedule != [] {
      assert schedule[0] in schedule;
      PaddedStep(s, schedule[0], extra);
      PaddedRun(Step(s, schedule[0]), schedule[1..], extra);
    }
  }

  // Without a caller nothing is ever sent.
  lemma {:induction false} SilentRun(s: State, schedule: seq<Event>)
    requires s.casts == [] && forall id :: 0 <= id < |s.hub.subs| ==> s.hub.subs[id].Got() == []
    ensures forall id :: 0 <= id < |Run(s, schedule).hub.subs| ==> Run(s, schedule).hub.subs[id].Got() == []
    decreases |schedule|
  {
    if schedule != [] {
      forall id | 0 <= id < |Step(s, schedule[0]).hub.subs| ensures Step(s, schedule[0]).hub.subs[id].Got() == [] {
        if id < |s.hub.subs| {
          assert s.hub.subs[id].Got() == [];
        }
      }
      SilentRun(Step(s, schedule[0]), schedule[1..]);
    }
  }

  lemma FewCallersLeaveNoGap(callers: nat, schedule: seq<Event>, id: nat)
    requires callers <= 1 && id < |Run(Init(callers), schedule).hub.subs|
    ensures Segment(Run(Init(callers), schedule).hub.subs[id])
  {
    if callers == 1 {
      GapFree(schedule, id);
    } else {
      SilentRun(Init(0), schedule);
      assert Run(Init(0), schedule).hub.subs[id].Got() == [];
    }
  }

  /** Every schedule leaves every subscriber a gap-free segment exactly when at most one caller broadcasts. */
  lemma GapFreeExactly(callers: nat)
    ensures (forall schedule: seq<Event>, id: nat | id < |Run(Init(callers), schedule).hub.subs| ::
               Segment(Run(Init(callers), schedule).hub.subs[id]))
        <==> callers <= 1
  {
    if callers <= 1 {
      forall schedule: seq<Event>, id: nat | id < |Run(Init(callers), schedule).hub.subs|
        ensures Segment(Run(Init(callers), schedule).hub.subs[id])
      {
        FewCallersLeaveNoGap(callers, schedule, id);
      }
    } else {
      var schedule := OverlapLeavesGap();
      PaddedRun(Init(2), schedule, callers - 2);
      assert Padded(Init(2), callers - 2) == Init(callers);
      assert !Segment(Run(Init(callers), schedule).hub.subs[0]);
    }
  }
}
