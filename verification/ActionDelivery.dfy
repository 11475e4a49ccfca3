/**
 What an agent is handed in answer to a report, what becomes of the actions, and what a repeated
 request is answered.
 */
module ActionDelivery {
  import opened Wrappers
  import opened SessionPolicy
  import Text

  // ------------------------------------------------- the answer and the log

  // What a delivery event returns to the agent.
  function Handed(s: State, ev: Event): seq<Id>
    requires ev.Deliver?
  {
    DeliverAnswer(s, ev.nowMs, ev.expires, ev.delivers, ev.batch, ev.unreadable, ev.completes)
  }

  predicate Ready(s: State, ev: Event)
    requires ev.Deliver?
  {
    && s.config.sessions.enabled && s.config.sessions.allowActions
    && ev.expires && ev.delivers
    && (ev.completes || forall id :: id in ev.batch ==> id !in ev.unreadable)
  }

  lemma ReadyExactly(s: State, ev: Event)
    requires ev.Deliver?
    ensures Handed(s, ev) == if Ready(s, ev) then Readable(ev.batch, ev.unreadable) else []
    ensures Ready(s, ev) ==> !SomeUnreadable(ev.batch, ev.unreadable) || ev.completes
  {
    if exists id :: id in ev.batch && id in ev.unreadable {
      var id :| id in ev.batch && id in ev.unreadable;
      var i :| 0 <= i < |ev.batch| && ev.batch[i] == id;
      assert SomeUnreadable(ev.batch, ev.unreadable);
    }
  }

  // The log of a delivery grows by what is returned, one entry for each action, in order.
  lemma HandedIsLogged(s: State, ev: Event)
    requires ev.Deliver? && Possible(s, ev)
    ensures var log, handed := Apply(s, ev).log, Handed(s, ev);
      && (forall id :: id in handed ==> id in s.actions)
      && |log| == |s.log| + |handed| && log[..|s.log|] == s.log
      && forall i :: 0 <= i < |handed| ==>
           log[|s.log| + i] == Sent(handed[i], s.actions[handed[i]].since, s.config.sessions)
  {
    ReadableElements(ev.batch, ev.unreadable);
  }

  // Subsequences of a selection that is in order are in order.
  lemma {:induction false} ReadableInOrder(actions: map<Id, Action>, batch: seq<Id>, unreadable: set<Id>)
    requires forall id :: id in batch ==> id in actions
    requires forall i, j :: 0 <= i < j < |batch| ==> Older(actions, batch[i], batch[j])
    ensures var r := Readable(batch, unreadable);
      && |r| <= |batch|
      && (forall id :: id in r ==> id in batch)
      && forall i, j :: 0 <= i < j < |r| ==> Older(actions, r[i], r[j])
  {
    if batch != [] {
      var b, rest := batch[0], batch[1..];
      assert batch == [b] + rest;
      ReadableInOrder(actions, rest, unreadable);
      var r := Readable(rest, unreadable);
      forall j | 0 <= j < |r| ensures Older(actions, b, r[j]) {
        assert r[j] in rest;
        var k :| 0 <= k < |rest| && rest[k] == r[j];
        assert batch[k + 1] == r[j];
      }
    }
  }

  lemma ExpiredShape(actions: map<Id, Action>, now: int, host: Host, id: Id)
    ensures Deliverable(Expire(actions, now), id, host, now) <==>
      id in actions && actions[id].host == host && Active(actions[id]) && actions[id].expiresMs > now
  {
  }

  // Enqueued earlier, or in the same millisecond under a lesser ID.
  predicate Earlier(actions: map<Id, Action>, a: Id, b: Id)
    requires a in actions && b in actions
  {
    && actions[a].createdMs <= actions[b].createdMs
    && (actions[a].createdMs == actions[b].createdMs ==> Text.Less(a, b))
  }

  /**
   A report is answered with actions of its host that are active and unexpired and can be read,
   at most twenty of them, the oldest first; and with none unless the policy allows it.
   */
  lemma HandedExactly(s: State, ev: Event)
    requires ev.Deliver? && Possible(s, ev)
    ensures var handed := Handed(s, ev);
      && |handed| <= 20
      && (handed != [] ==> s.config.sessions.enabled && s.config.sessions.allowActions)
      && (forall id :: id in handed ==>
            && id in s.actions && s.actions[id].host == ev.host && Active(s.actions[id])
            && ev.nowMs < s.actions[id].expiresMs && id !in ev.unreadable)
      && (forall i, j :: 0 <= i < j < |handed| ==> Earlier(s.actions, handed[i], handed[j]))
  {
    var expired := Expire(s.actions, ev.nowMs);
    ReadableElements(ev.batch, ev.unreadable);
    forall i | 0 <= i < |ev.batch|
      ensures Deliverable(expired, ev.batch[i], ev.host, ev.nowMs)
    {
    }
    forall id | id in ev.batch
      ensures id in s.actions && s.actions[id].host == ev.host && Active(s.actions[id])
      ensures ev.nowMs < s.actions[id].expiresMs
    {
      var i :| 0 <= i < |ev.batch| && ev.batch[i] == id;
      ExpiredShape(s.actions, ev.nowMs, ev.host, id);
    }
    forall i, j | 0 <= i < j < |ev.batch| ensures Older(s.actions, ev.batch[i], ev.batch[j]) {
      assert Older(expired, ev.batch[i], ev.batch[j]);
    }
    ReadableInOrder(s.actions, ev.batch, ev.unreadable);
  }

  // None is held back: when the stores work, an active, unexpired, readable action of the host
  // is handed over unless twenty older ones were selected.
  lemma NoneHeldBack(s: State, ev: Event, id: Id)
    requires ev.Deliver? && Possible(s, ev) && Ready(s, ev)
    requires id in s.actions && s.actions[id].host == ev.host && Active(s.actions[id])
    requires ev.nowMs < s.actions[id].expiresMs && id !in ev.unreadable
    ensures id in Handed(s, ev) || (|ev.batch| == 20 && forall b :: b in ev.batch ==> Earlier(s.actions, b, id))
  {
    var expired := Expire(s.actions, ev.nowMs);
    ReadableElements(ev.batch, ev.unreadable);
    ReadyExactly(s, ev);
    ExpiredShape(s.actions, ev.nowMs, ev.host, id);
    if id !in ev.batch {
      forall b | b in ev.batch ensures Earlier(s.actions, b, id) {
        var i :| 0 <= i < |ev.batch| && ev.batch[i] == b;
        assert Older(expired, ev.batch[i], id);
      }
    }
  }

  // What a delivery makes of each action: an overdue one expires, one that is handed over is
  // delivered, one that cannot be read has failed, and the others stay as they are.
  lemma AfterDelivery(s: State, ev: Event, id: Id)
    requires ev.Deliver? && Possible(s, ev) && Ready(s, ev) && id in s.actions
    ensures var a, a' := s.actions[id], Apply(s, ev).actions[id];
      a' == if Active(a) && a.expiresMs <= ev.nowMs then a.(state := Terminal("expired"))
            else if id in Handed(s, ev) then a.(state := Delivered)
            else if id in ev.batch then a.(state := Terminal("failed"))
            else a
  {
    ReadyExactly(s, ev);
    ReadableElements(ev.batch, ev.unreadable);
    if id in ev.batch {
      var i :| 0 <= i < |ev.batch| && ev.batch[i] == id;
      assert Deliverable(Expire(s.actions, ev.nowMs), ev.batch[i], ev.host, ev.nowMs);
      ExpiredShape(s.actions, ev.nowMs, ev.host, id);
    }
  }

  // A completion is taken from the action's own host, after delivery, once, and before expiry.
  lemma AfterCompletion(s: State, ev: Event, id: Id)
    requires ev.Complete? && id in s.actions
    ensures var a, a' := s.actions[id], Apply(s, ev).actions[id];
      a' == if Active(a) && a.expiresMs <= ev.nowMs then a.(state := Terminal("expired"))
            else if id == ev.id && a.host == ev.host && a.state == Delivered && ev.outcome != "duplicate"
            then a.(state := Terminal(ev.outcome))
            else a
  {
  }

  // A request with a new key is stored exactly when the policy enables actions and the target is
  // valid, as an action queued for five minutes; any other request changes nothing.
  lemma AfterEnqueue(s: State, ev: Event)
    requires ev.Enqueue? && Possible(s, ev)
    ensures var answer := EnqueueAnswer(s, ev.key, ev.fingerprint, ev.target);
      var known := ev.key in s.keys && s.keys[ev.key] in s.actions;
      var enabled := s.config.sessions.enabled && s.config.sessions.allowActions;
      && (answer == Stored <==> !known && enabled && ev.target)
      && (answer == Rejected <==> !known && enabled && !ev.target)
      && (answer == Disabled <==> !known && !enabled)
      && (answer != Stored ==> Apply(s, ev) == s)
      && (answer == Stored ==>
            && Apply(s, ev).actions == s.actions[ev.id :=
                 Action(ev.host, ev.key, ev.fingerprint, ev.nowMs, ev.nowMs + 300_000, Queued, |s.log|)]
            && Apply(s, ev).keys == s.keys[ev.key := ev.id]
            && Apply(s, ev).log == s.log + [Enqueued(ev.id, s.config.sessions)])
  {
  }

  // What a committed settings PUT makes of each action: when it disables actions, or changes what
  // is visible, against the policy its PUT read first, the active ones expire; otherwise, and when
  // nothing was saved or the expiring failed, they stay.
  lemma AfterCommit(s: State, ev: Event, id: Id)
    requires ev.PutCommit? && ev.put in s.puts && id in s.actions
    ensures var a, a' := s.actions[id], Apply(s, ev).actions[id];
      var before := s.puts[ev.put].sessions;
      var disabled := (before.enabled && !ev.policy.enabled) || (before.allowActions && !ev.policy.allowActions);
      var visible := before.identity == ev.policy.identity && before.client == ev.policy.client &&
                     before.process == ev.policy.process;
      a' == if ev.saved && ev.swept && (disabled || !visible) && Active(a) then a.(state := Terminal("expired")) else a
  {
  }

  // ----------------------------------------------------------- over whole runs

  // An action is never removed, keeps what it was stored with, and once terminal stays as it is.
  predicate Continues(before: Action, after: Action) {
    && after.(state := before.state) == before
    && (before.state.Terminal? ==> after == before)
    && (before.state.Delivered? ==> !after.state.Queued?)
  }

  ghost predicate AllContinue(s: State, s': State) {
    && (forall id :: id in s.actions ==> id in s'.actions && Continues(s.actions[id], s'.actions[id]))
    && (forall key :: key in s.keys && s.keys[key] in s.actions ==> key in s'.keys && s'.keys[key] == s.keys[key])
  }

  lemma StagesContinue(actions: map<Id, Action>, now: int, batch: seq<Id>, unreadable: set<Id>, id: Id)
    requires id in actions && (id in batch ==> Active(actions[id]))
    ensures var marked := MarkDelivered(Expire(actions, now), batch);
      && Continues(actions[id], Expire(actions, now)[id]) && Continues(actions[id], marked[id])
      && Continues(actions[id], FailUnreadable(marked, batch, unreadable)[id])
  {
  }

  lemma SelectedIsActive(s: State, ev: Event, id: Id)
    requires ev.Deliver? && Possible(s, ev) && id in ev.batch
    ensures id in s.actions && Active(s.actions[id])
  {
    var i :| 0 <= i < |ev.batch| && ev.batch[i] == id;
    assert Deliverable(Expire(s.actions, ev.nowMs), ev.batch[i], ev.host, ev.nowMs);
  }

  lemma DeliveryContinues(s: State, ev: Event, id: Id)
    requires ev.Deliver? && Possible(s, ev) && id in s.actions
    ensures id in Apply(s, ev).actions && Continues(s.actions[id], Apply(s, ev).actions[id])
  {
    if id in ev.batch {
      SelectedIsActive(s, ev, id);
    }
    StagesContinue(s.actions, ev.nowMs, ev.batch, ev.unreadable, id);
  }

  lemma EnqueueContinues(s: State, ev: Event)
    requires ev.Enqueue? && ev.id !in s.actions
    ensures AllContinue(s, Apply(s, ev))
  {
  }

  lemma CommitContinues(s: State, ev: Event)
    requires ev.PutCommit?
    ensures AllContinue(s, Apply(s, ev))
  {
    var cancelled := Cancel(s.actions);
    assert forall id :: id in s.actions ==> id in cancelled && Continues(s.actions[id], cancelled[id]);
  }

  lemma StepContinues(s: State, ev: Event)
    requires Possible(s, ev)
    ensures AllContinue(s, Apply(s, ev))
  {
    if ev.Deliver? {
      forall id | id in s.actions
        ensures id in Apply(s, ev).actions && Continues(s.actions[id], Apply(s, ev).actions[id])
      {
        DeliveryContinues(s, ev, id);
      }
    } else if ev.PutCommit? {
      CommitContinues(s, ev);
    } else if ev.Enqueue? {
      EnqueueContinues(s, ev);
    }
  }

  lemma {:induction false} RunContinues(s: State, evs: seq<Event>)
    requires Legal(s, evs)
    ensures AllContinue(s, Run(s, evs))
    decreases |evs|
  {
    if evs != [] {
      StepContinues(s, evs[0]);
      RunContinues(Apply(s, evs[0]), evs[1..]);
    }
  }

  /** Over any run a terminal action keeps its first outcome, and nothing rewrites an action's data. */
  lemma TerminalIsFinal(s: State, evs: seq<Event>, id: Id)
    requires Legal(s, evs) && id in s.actions
    ensures var a := Run(s, evs).actions; id in a && a[id].(state := s.actions[id].state) == s.actions[id]
    ensures s.actions[id].state.Terminal? ==> Run(s, evs).actions[id] == s.actions[id]
  {
    RunContinues(s, evs);
  }

  /**
   After a request was stored, a repetition of its key is answered with the stored action if the
   fingerprint is the same and refused as a conflict if not, for ever after and under any policy.
   */
  lemma RepeatedKeyIsReplayed(s: State, ev: Event, evs: seq<Event>, fingerprint: string, target: bool)
    requires ev.Enqueue? && Possible(s, ev) && Legal(Apply(s, ev), evs)
    requires EnqueueAnswer(s, ev.key, ev.fingerprint, ev.target) == Stored
    ensures EnqueueAnswer(Run(Apply(s, ev), evs), ev.key, fingerprint, target) ==
      if fingerprint == ev.fingerprint then Replay(ev.id) else Conflict
  {
    RunContinues(Apply(s, ev), evs);
  }

  // A run in which every stored action lives for five minutes.
  ghost predicate FiveMinutes(s: State) {
    forall id :: id in s.actions ==> s.actions[id].expiresMs == s.actions[id].createdMs + 300_000
  }

  lemma StepFiveMinutes(s: State, ev: Event)
    requires FiveMinutes(s) && Possible(s, ev)
    ensures FiveMinutes(Apply(s, ev))
  {
    StepContinues(s, ev);
    forall id | id in Apply(s, ev).actions && id in s.actions
      ensures Apply(s, ev).actions[id].expiresMs == Apply(s, ev).actions[id].createdMs + 300_000
    {
      assert Continues(s.actions[id], Apply(s, ev).actions[id]);
    }
  }

  lemma {:induction false} RunFiveMinutes(s: State, evs: seq<Event>)
    requires FiveMinutes(s) && Legal(s, evs)
    ensures FiveMinutes(Run(s, evs))
    decreases |evs|
  {
    if evs != [] {
      StepFiveMinutes(s, evs[0]);
      RunFiveMinutes(Apply(s, evs[0]), evs[1..]);
    }
  }

  /**
   When every commit is safe, an action that an agent is handed was enqueued for its host less
   than five minutes before, under an enabling policy with no disable or visibility change
   committed since, and is handed over under one.
   */
  lemma HandedRightly(config: Config, evs: seq<Event>, ev: Event, id: Id)
    requires Legal(Start(config), evs) && AllCommitsSafe(Start(config), evs)
    requires ev.Deliver? && Possible(Run(Start(config), evs), ev) && id in Handed(Run(Start(config), evs), ev)
    ensures var s := Run(Start(config), evs);
      && id in s.actions && s.actions[id].host == ev.host && ev.nowMs < s.actions[id].createdMs + 300_000
      && StillAllowed(id, s.actions[id].since, s.log)
      && s.config.sessions.enabled && s.config.sessions.allowActions
  {
    var s := Run(Start(config), evs);
    HandedExactly(s, ev);
    RunFiveMinutes(Start(config), evs);
    RunKeeps(Start(config), evs);
  }
}
