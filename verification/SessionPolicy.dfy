/**
 Session actions and the sessions policy on the dashboard.  Enqueueing, delivery and the
 locked part of a settings PUT exclude one another; a PUT reads the configuration it may have
 to roll back to before it takes that lock.
 */
module SessionPolicy {
  import opened Wrappers
  import Text

  type Id = string
  type Host = string

  const DELIVERY_LIMIT := 20
  const ACTION_TTL_MS := 300_000

  datatype Visibility = Full | Masked | Hidden

  datatype Policy = Policy(enabled: bool, allowActions: bool,
                           identity: Visibility, client: Visibility, process: Visibility, retentionHours: int)

  // The settings file: the sessions block and everything else.
  datatype Config = Config(sessions: Policy, rest: string)

  datatype ActionState = Queued | Delivered | Terminal(result: string)

  // `since` is the position of the enqueue in the log.
  datatype Action = Action(host: Host, key: string, fingerprint: string, createdMs: int, expiresMs: int,
                           state: ActionState, since: nat)

  // What happened, in the order the lock was held: an action stored under a policy, the
  // persisted policy changed, an action handed to its agent.
  datatype Entry =
    | Enqueued(id: Id, under: Policy)
    | Changed(from: Policy, to: Policy)
    | Sent(id: Id, since: nat, under: Policy)

  // `puts` holds, for each PUT under way, the configuration it read first.
  datatype State = State(config: Config, actions: map<Id, Action>, keys: map<string, Id>,
                         puts: map<nat, Config>, log: seq<Entry>)

  predicate Enabling(p: Policy) {
    p.enabled && p.allowActions
  }

  predicate VisibilityChanged(before: Policy, after: Policy) {
    before.identity != after.identity || before.client != after.client || before.process != after.process
  }

  predicate ActionsDisabled(before: Policy, after: Policy) {
    (before.enabled && !after.enabled) || (before.allowActions && !after.allowActions)
  }

  // A change no queued action may survive.
  predicate Breaks(before: Policy, after: Policy) {
    VisibilityChanged(before, after) || ActionsDisabled(before, after)
  }

  predicate Active(a: Action) {
    a.state.Queued? || a.state.Delivered?
  }

  // ----------------------------------------------------------------- the store

  function Expire(actions: map<Id, Action>, now: int): map<Id, Action> {
    map id | id in actions ::
      if Active(actions[id]) && actions[id].expiresMs <= now then actions[id].(state := Terminal("expired"))
      else actions[id]
  }

  function Cancel(actions: map<Id, Action>): map<Id, Action> {
    map id | id in actions ::
      if Active(actions[id]) then actions[id].(state := Terminal("expired")) else actions[id]
  }

  function MarkDelivered(actions: map<Id, Action>, batch: seq<Id>): map<Id, Action> {
    map id | id in actions ::
      if id in batch && actions[id].state.Queued? then actions[id].(state := Delivered) else actions[id]
  }

  predicate Deliverable(actions: map<Id, Action>, id: Id, host: Host, now: int) {
    id in actions && actions[id].host == host && Active(actions[id]) && actions[id].expiresMs > now
  }

  predicate Older(actions: map<Id, Action>, a: Id, b: Id)
    requires a in actions && b in actions
  {
    actions[a].createdMs < actions[b].createdMs ||
    (actions[a].createdMs == actions[b].createdMs && Text.Less(a, b))
  }

  // What the delivery query may return: the oldest deliverable actions of the host, at most
  // twenty of them.
  ghost predicate IsBatch(actions: map<Id, Action>, host: Host, now: int, batch: seq<Id>) {
    && |batch| <= DELIVERY_LIMIT
    && (forall i :: 0 <= i < |batch| ==> Deliverable(actions, batch[i], host, now))
    && (forall i, j :: 0 <= i < j < |batch| ==> Older(actions, batch[i], batch[j]) && batch[i] != batch[j])
    && (forall id :: Deliverable(actions, id, host, now) && id !in batch ==>
          |batch| == DELIVERY_LIMIT && forall i :: 0 <= i < |batch| ==> Older(actions, batch[i], id))
  }

  datatype Answer = Replay(id: Id) | Conflict | Disabled | Rejected | Stored

  // --------------------------------------------------------------------- events

  // Results of calls into the store and the file system come with the event.
  datatype Event =
    | Enqueue(id: Id, host: Host, key: string, fingerprint: string, nowMs: int, target: bool)
    | Deliver(host: Host, nowMs: int, expires: bool, delivers: bool, batch: seq<Id>, unreadable: set<Id>,
        completes: bool)
    | Complete(host: Host, id: Id, outcome: string, nowMs: int)
    | PutLoad(put: nat)
    | PutRest(put: nat, rest: string)
    | PutAbort(put: nat)
    | PutCommit(put: nat, policy: Policy, saved: bool, swept: bool, trimmed: bool, restored: bool)

  function EnqueueAnswer(s: State, key: string, fingerprint: string, target: bool): Answer {
    if key in s.keys && s.keys[key] in s.actions then
      if s.actions[s.keys[key]].fingerprint == fingerprint then Replay(s.keys[key]) else Conflict
    else if !Enabling(s.config.sessions) then Disabled
    else if !target then Rejected
    else Stored
  }

  function EnqueueState(s: State, id: Id, host: Host, key: string, fingerprint: string, nowMs: int,
                        target: bool): State {
    if EnqueueAnswer(s, key, fingerprint, target) != Stored then s else
      s.(actions := s.actions[id := Action(host, key, fingerprint, nowMs, nowMs + ACTION_TTL_MS, Queued, |s.log|)],
         keys := s.keys[key := id],
         log := s.log + [Enqueued(id, s.config.sessions)])
  }

  // Actions whose message cannot be opened are completed as failed and not sent.
  function Readable(batch: seq<Id>, unreadable: set<Id>): seq<Id> {
    if batch == [] then []
    else if batch[0] in unreadable then Readable(batch[1..], unreadable)
    else [batch[0]] + Readable(batch[1..], unreadable)
  }

  function FailUnreadable(actions: map<Id, Action>, batch: seq<Id>, unreadable: set<Id>): map<Id, Action> {
    map id | id in actions ::
      if id in batch && id in unreadable then actions[id].(state := Terminal("failed")) else actions[id]
  }

  function SentLog(actions: map<Id, Action>, ids: seq<Id>, under: Policy): (r: seq<Entry>)
    requires forall id :: id in ids ==> id in actions
    ensures |r| == |ids|
    ensures forall i :: 0 <= i < |ids| ==> r[i] == Sent(ids[i], actions[ids[i]].since, under)
  {
    seq(|ids|, i requires 0 <= i < |ids| => Sent(ids[i], actions[ids[i]].since, under))
  }

  predicate SomeUnreadable(batch: seq<Id>, unreadable: set<Id>) {
    exists i :: 0 <= i < |batch| && batch[i] in unreadable
  }

  // What a delivery sends: nothing when the policy does not allow it or the store fails.
  function DeliverAnswer(s: State, nowMs: int, expires: bool, delivers: bool, batch: seq<Id>,
                         unreadable: set<Id>, completes: bool): seq<Id>
  {
    if !Enabling(s.config.sessions) || !expires || !delivers || (SomeUnreadable(batch, unreadable) && !completes)
    then [] else Readable(batch, unreadable)
  }

  lemma {:induction false} ReadableElements(batch: seq<Id>, unreadable: set<Id>)
    ensures forall id :: id in Readable(batch, unreadable) <==> id in batch && id !in unreadable
  {
    if batch != [] {
      ReadableElements(batch[1..], unreadable);
      assert batch == [batch[0]] + batch[1..];
    }
  }

  function DeliverState(s: State, nowMs: int, expires: bool, delivers: bool, batch: seq<Id>,
                        unreadable: set<Id>, completes: bool): State
    requires forall id :: id in batch ==> id in s.actions
  {
    if !Enabling(s.config.sessions) || !expires then s
    else if !delivers then s.(actions := Expire(s.actions, nowMs))
    else
      var marked := MarkDelivered(Expire(s.actions, nowMs), batch);
      if SomeUnreadable(batch, unreadable) && !completes then s.(actions := marked)
      else
        ReadableElements(batch, unreadable);
        s.(actions := FailUnreadable(marked, batch, unreadable),
           log := s.log + SentLog(marked, Readable(batch, unreadable), s.config.sessions))
  }

  function CompleteState(s: State, host: Host, id: Id, outcome: string, nowMs: int): State {
    var actions := Expire(s.actions, nowMs);
    if id in actions && actions[id].host == host && actions[id].state.Delivered? && outcome != "duplicate"
    then s.(actions := actions[id := actions[id].(state := Terminal(outcome))])
    else s.(actions := actions)
  }

  // The locked part of a sessions PUT: persist, then cancel or purge, then trim; a failure
  // after the write restores the configuration read at the start.
  function CommitState(s: State, put: nat, policy: Policy, saved: bool, swept: bool, trimmed: bool,
                       restored: bool): State
    requires put in s.puts
  {
    var before := s.puts[put];
    var s1 := s.(puts := s.puts - {put});
    if !saved then s1 else
      var sweep := Breaks(before.sessions, policy);
      var failed := (sweep && !swept) || (policy.retentionHours < before.sessions.retentionHours && !trimmed);
      var final := if failed && restored then before else s.config.(sessions := policy);
      s1.(config := final,
          actions := if sweep && swept then Cancel(s.actions) else s.actions,
          log := s.log + [Changed(s.config.sessions, final.sessions)])
  }

  function Apply(s: State, ev: Event): State
    requires ev.Deliver? ==> forall id :: id in ev.batch ==> id in s.actions
  {
    match ev
    case Enqueue(id, host, key, fingerprint, nowMs, target) =>
        EnqueueState(s, id, host, key, fingerprint, nowMs, target)
    case Deliver(host, nowMs, expires, delivers, batch, unreadable, completes) =>
      DeliverState(s, nowMs, expires, delivers, batch, unreadable, completes)
    case Complete(host, id, outcome, nowMs) => CompleteState(s, host, id, outcome, nowMs)
    case PutLoad(put) => s.(puts := s.puts[put := s.config])
    case PutRest(put, rest) => if put in s.puts then s.(config := s.config.(rest := rest)) else s
    case PutAbort(put) => s.(puts := s.puts - {put})
    case PutCommit(put, policy, saved, swept, trimmed, restored) =>
      if put in s.puts then CommitState(s, put, policy, saved, swept, trimmed, restored) else s
  }

  // What may happen: a new action has a new ID, a delivery selects what the query returns,
  // and a PUT is started once.
  ghost predicate Possible(s: State, ev: Event) {
    && (ev.Enqueue? ==> ev.id !in s.actions)
    && (ev.Deliver? ==> IsBatch(Expire(s.actions, ev.nowMs), ev.host, ev.nowMs, ev.batch)
                        && forall id :: id in ev.batch ==> id in s.actions)
    && (ev.PutLoad? ==> ev.put !in s.puts)
  }

  // Settings PUTs do not overlap, and a rollback that is needed succeeds.
  predicate Disciplined(s: State, ev: Event) {
    && (ev.PutLoad? ==> s.puts == map[])
    && (ev.PutCommit? ==> ev.restored)
  }

  function Run(s: State, evs: seq<Event>): State
    requires Legal(s, evs)
    decreases |evs|
  {
    if evs == [] then s else Run(Apply(s, evs[0]), evs[1..])
  }

  ghost predicate Legal(s: State, evs: seq<Event>)
    decreases |evs|
  {
    evs == [] || (Possible(s, evs[0]) && Legal(Apply(s, evs[0]), evs[1..]))
  }

  ghost predicate AllDisciplined(s: State, evs: seq<Event>)
    requires Legal(s, evs)
    decreases |evs|
  {
    evs == [] || (Disciplined(s, evs[0]) && AllDisciplined(Apply(s, evs[0]), evs[1..]))
  }

  // ----------------------------------------------------------------- the property

  // Enqueued at `since` under a policy that allowed it, with no breaking change after.
  predicate StillAllowed(id: Id, since: nat, log: seq<Entry>) {
    && since < |log|
    && log[since].Enqueued? && log[since].id == id && Enabling(log[since].under)
    && forall k :: since < k < |log| && log[k].Changed? ==> !Breaks(log[k].from, log[k].to)
  }

  predicate SentRightly(log: seq<Entry>, i: nat)
    requires i < |log|
  {
    log[i].Sent? ==> StillAllowed(log[i].id, log[i].since, log[..i]) && Enabling(log[i].under)
  }

  // No active action has outlived a change it must not survive.
  predicate AllAllowed(s: State) {
    forall id :: id in s.actions && Active(s.actions[id]) ==> StillAllowed(id, s.actions[id].since, s.log)
  }

  ghost predicate Inv(s: State) {
    AllAllowed(s) && forall i: nat :: i < |s.log| ==> SentRightly(s.log, i)
  }

  lemma AllowedLater(id: Id, since: nat, log: seq<Entry>, more: seq<Entry>)
    requires StillAllowed(id, since, log)
    requires forall k :: 0 <= k < |more| && more[k].Changed? ==> !Breaks(more[k].from, more[k].to)
    ensures StillAllowed(id, since, log + more)
  {
  }

  lemma SentEarlier(log: seq<Entry>, more: seq<Entry>, i: nat)
    requires i < |log| && SentRightly(log, i)
    ensures SentRightly(log + more, i)
  {
    assert (log + more)[..i] == log[..i];
  }

  lemma EnqueueKeeps(s: State, ev: Event)
    requires Inv(s) && ev.Enqueue? && Possible(s, ev)
    ensures Inv(Apply(s, ev))
  {
    if EnqueueAnswer(s, ev.key, ev.fingerprint, ev.target) == Stored {
      var s' := Apply(s, ev);
      var more := [Enqueued(ev.id, s.config.sessions)];
      forall id | id in s'.actions && Active(s'.actions[id])
        ensures StillAllowed(id, s'.actions[id].since, s'.log)
      {
        if id != ev.id {
          AllowedLater(id, s.actions[id].since, s.log, more);
        }
      }
      forall i: nat | i < |s'.log| ensures SentRightly(s'.log, i) {
        if i < |s.log| {
          SentEarlier(s.log, more, i);
        }
      }
    }
  }

  // Losing active actions, or marking them delivered, disturbs nothing.
  lemma FewerActionsKeep(s: State, actions: map<Id, Action>)
    requires Inv(s)
    requires forall id :: id in actions && Active(actions[id]) ==>
      id in s.actions && Active(s.actions[id]) && actions[id].since == s.actions[id].since
    ensures Inv(s.(actions := actions))
  {
    var s' := s.(actions := actions);
    forall i: nat | i < |s'.log| ensures SentRightly(s'.log, i) {
      assert SentRightly(s.log, i);
    }
  }

  lemma SendingKeeps(s: State, ids: seq<Id>)
    requires Inv(s) && Enabling(s.config.sessions)
    requires forall id :: id in ids ==> id in s.actions && StillAllowed(id, s.actions[id].since, s.log)
    ensures Inv(s.(log := s.log + SentLog(s.actions, ids, s.config.sessions)))
  {
    var more := SentLog(s.actions, ids, s.config.sessions);
    var s' := s.(log := s.log + more);
    forall id | id in s'.actions && Active(s'.actions[id])
      ensures StillAllowed(id, s'.actions[id].since, s'.log)
    {
      AllowedLater(id, s.actions[id].since, s.log, more);
    }
    forall i: nat | i < |s'.log| ensures SentRightly(s'.log, i) {
      if i < |s.log| {
        SentEarlier(s.log, more, i);
      } else {
        var k := i - |s.log|;
        assert ids[k] in ids;
        AllowedLater(ids[k], s.actions[ids[k]].since, s.log, more[..k]);
        assert s'.log[..i] == s.log + more[..k];
      }
    }
  }

  lemma BatchIsActive(actions: map<Id, Action>, host: Host, now: int, batch: seq<Id>, id: Id)
    requires IsBatch(Expire(actions, now), host, now, batch) && id in batch
    ensures var marked := MarkDelivered(Expire(actions, now), batch);
      id in marked && Active(marked[id]) && id in actions && Active(actions[id]) &&
          actions[id].since == marked[id].since
  {
    var at :| 0 <= at < |batch| && batch[at] == id;
    assert Deliverable(Expire(actions, now), batch[at], host, now);
  }

  lemma SelectionKeeps(s: State, ev: Event)
    requires Inv(s) && ev.Deliver? && Possible(s, ev)
    ensures Inv(s.(actions := Expire(s.actions, ev.nowMs)))
    ensures Inv(s.(actions := MarkDelivered(Expire(s.actions, ev.nowMs), ev.batch)))
  {
    FewerActionsKeep(s, Expire(s.actions, ev.nowMs));
    FewerActionsKeep(s, MarkDelivered(Expire(s.actions, ev.nowMs), ev.batch));
  }

  lemma SelectionSent(s: State, ev: Event)
    requires Inv(s) && ev.Deliver? && Possible(s, ev) && Enabling(s.config.sessions)
    ensures var marked := MarkDelivered(Expire(s.actions, ev.nowMs), ev.batch);
      var ids := Readable(ev.batch, ev.unreadable);
      && (forall id :: id in ids ==> id in marked)
      && Inv(s.(actions := FailUnreadable(marked, ev.batch, ev.unreadable),
                log := s.log + SentLog(marked, ids, s.config.sessions)))
  {
    var marked := MarkDelivered(Expire(s.actions, ev.nowMs), ev.batch);
    var ids := Readable(ev.batch, ev.unreadable);
    SelectionKeeps(s, ev);
    forall id | id in ids ensures id in marked && StillAllowed(id, marked[id].since, s.log) {
      ReadableElements(ev.batch, ev.unreadable);
      BatchIsActive(s.actions, ev.host, ev.nowMs, ev.batch, id);
    }
    var s1 := s.(actions := marked);
    SendingKeeps(s1, ids);
    FewerActionsKeep(s1.(log := s.log + SentLog(marked, ids, s.config.sessions)),
                     FailUnreadable(marked, ev.batch, ev.unreadable));
  }

  lemma DeliverKeeps(s: State, ev: Event)
    requires Inv(s) && ev.Deliver? && Possible(s, ev)
    ensures Inv(Apply(s, ev))
  {
    if Enabling(s.config.sessions) && ev.expires {
      if ev.delivers && !(SomeUnreadable(ev.batch, ev.unreadable) && !ev.completes) {
        SelectionSent(s, ev);
      } else {
        SelectionKeeps(s, ev);
      }
    }
  }

  // What a committing PUT has to meet: it is not saved, there is nothing to cross it, its own
  // comparison makes it cancel, or the policy it leaves does not break with the one it finds.
  predicate CommitSafe(s: State, ev: Event)
    requires ev.PutCommit? && ev.put in s.puts
  {
    || !ev.saved
    || (forall id :: id in s.actions ==> !Active(s.actions[id]))
    || (Breaks(s.puts[ev.put].sessions, ev.policy) && ev.swept)
    || !Breaks(s.config.sessions, Apply(s, ev).config.sessions)
  }

  // A commit lets an active action cross exactly when it does not meet that.
  lemma CommitExact(s: State, ev: Event)
    requires AllAllowed(s) && ev.PutCommit? && ev.put in s.puts
    ensures AllAllowed(Apply(s, ev)) <==> CommitSafe(s, ev)
  {
    if ev.saved {
      var s' := Apply(s, ev);
      assert s'.log == s.log + [Changed(s.config.sessions, s'.config.sessions)];
      assert s'.log[|s.log|] == Changed(s.config.sessions, s'.config.sessions);
    }
  }

  lemma CommitKeepsLog(s: State, ev: Event)
    requires Inv(s) && ev.PutCommit? && AllAllowed(Apply(s, ev))
    ensures Inv(Apply(s, ev))
  {
    if ev.put in s.puts && ev.saved {
      var s' := Apply(s, ev);
      forall i: nat | i < |s'.log| ensures SentRightly(s'.log, i) {
        if i < |s.log| {
          SentEarlier(s.log, [Changed(s.config.sessions, s'.config.sessions)], i);
        }
      }
    }
  }

  lemma OtherStepKeeps(s: State, ev: Event)
    requires Inv(s) && Possible(s, ev) && !(ev.PutCommit? && ev.put in s.puts)
    ensures Inv(Apply(s, ev))
  {
    match ev
    case Enqueue(_, _, _, _, _, _) => EnqueueKeeps(s, ev);
    case Deliver(_, _, _, _, _, _, _) => DeliverKeeps(s, ev);
    case _ =>
  }

  // Every step but an unsafe commit keeps every active action allowed and every delivery right.
  lemma StepKeeps(s: State, ev: Event)
    requires Inv(s) && Possible(s, ev)
    requires ev.PutCommit? && ev.put in s.puts ==> CommitSafe(s, ev)
    ensures Inv(Apply(s, ev))
  {
    if ev.PutCommit? && ev.put in s.puts {
      CommitExact(s, ev);
      CommitKeepsLog(s, ev);
    } else {
      OtherStepKeeps(s, ev);
    }
  }

  ghost predicate AlwaysAllowed(s: State, evs: seq<Event>)
    requires Legal(s, evs)
    decreases |evs|
  {
    AllAllowed(s) && (evs == [] || AlwaysAllowed(Apply(s, evs[0]), evs[1..]))
  }

  ghost predicate AllCommitsSafe(s: State, evs: seq<Event>)
    requires Legal(s, evs)
    decreases |evs|
  {
    evs == [] ||
    ((evs[0].PutCommit? && evs[0].put in s.puts ==> CommitSafe(s, evs[0])) &&
     AllCommitsSafe(Apply(s, evs[0]), evs[1..]))
  }

  // Over a whole run no action ever outlives a change exactly when every commit is safe.
  lemma {:induction false} AlwaysAllowedExactly(s: State, evs: seq<Event>)
    requires Inv(s) && Legal(s, evs)
    ensures AlwaysAllowed(s, evs) <==> AllCommitsSafe(s, evs)
    decreases |evs|
  {
    if evs != [] {
      if evs[0].PutCommit? && evs[0].put in s.puts && !CommitSafe(s, evs[0]) {
        CommitExact(s, evs[0]);
      } else {
        StepKeeps(s, evs[0]);
        AlwaysAllowedExactly(Apply(s, evs[0]), evs[1..]);
      }
    }
  }

  lemma {:induction false} RunKeeps(s: State, evs: seq<Event>)
    requires Inv(s) && Legal(s, evs) && AllCommitsSafe(s, evs)
    ensures Inv(Run(s, evs))
    decreases |evs|
  {
    if evs != [] {
      StepKeeps(s, evs[0]);
      RunKeeps(Apply(s, evs[0]), evs[1..]);
    }
  }

  function Start(config: Config): State {
    State(config, map[], map[], map[], [])
  }

  // When every commit is safe, every delivered action was enqueued under an enabling policy
  // with no disable or visibility change committed since, and is delivered under one.
  lemma DeliveredRightly(config: Config, evs: seq<Event>, i: nat)
    requires Legal(Start(config), evs) && AllCommitsSafe(Start(config), evs)
    requires i < |Run(Start(config), evs).log| && Run(Start(config), evs).log[i].Sent?
    ensures var log := Run(Start(config), evs).log;
      StillAllowed(log[i].id, log[i].since, log[..i]) && Enabling(log[i].under)
  {
    RunKeeps(Start(config), evs);
    assert SentRightly(Run(Start(config), evs).log, i);
  }

  // The PUT under way, if any, has read the policy that is persisted.
  predicate OnePut(s: State) {
    && (forall t :: t in s.puts ==> s.puts[t].sessions == s.config.sessions)
    && (forall t, u :: t in s.puts && u in s.puts ==> t == u)
  }

  lemma DisciplinedCommitIsSafe(s: State, ev: Event)
    requires OnePut(s) && ev.PutCommit? && ev.put in s.puts && ev.restored
    ensures CommitSafe(s, ev)
  {
    assert s.puts[ev.put].sessions == s.config.sessions;
  }

  lemma DisciplineKeepsOnePut(s: State, ev: Event)
    requires OnePut(s) && Possible(s, ev) && Disciplined(s, ev)
    ensures OnePut(Apply(s, ev))
  {
    if ev.PutCommit? && ev.put in s.puts {
      assert Apply(s, ev).puts == map[];
    }
  }

  lemma {:induction false} DisciplineIsSafe(s: State, evs: seq<Event>)
    requires OnePut(s) && Legal(s, evs) && AllDisciplined(s, evs)
    ensures AllCommitsSafe(s, evs)
    decreases |evs|
  {
    if evs != [] {
      if evs[0].PutCommit? && evs[0].put in s.puts {
        DisciplinedCommitIsSafe(s, evs[0]);
      }
      DisciplineKeepsOnePut(s, evs[0]);
      DisciplineIsSafe(Apply(s, evs[0]), evs[1..]);
    }
  }

  // PUTs that do not overlap and rollbacks that succeed make every commit safe.
  lemma DeliveredUnderPolicy(config: Config, evs: seq<Event>, i: nat)
    requires Legal(Start(config), evs) && AllDisciplined(Start(config), evs)
    requires i < |Run(Start(config), evs).log| && Run(Start(config), evs).log[i].Sent?
    ensures var log := Run(Start(config), evs).log;
      StillAllowed(log[i].id, log[i].since, log[..i]) && Enabling(log[i].under)
  {
    DisciplineIsSafe(Start(config), evs);
    DeliveredRightly(config, evs, i);
  }

  // ------------------------------------------------------------ failed transitions

  predicate IsPut(ev: Event) {
    ev.PutLoad? || ev.PutRest? || ev.PutAbort? || ev.PutCommit?
  }

  lemma {:induction false} OwnRequestOnly(s: State, put: nat, evs: seq<Event>)
    requires Legal(s, evs) && put in s.puts
    requires forall ev :: ev in evs ==> !IsPut(ev) || (ev.PutRest? && ev.put == put)
    ensures put in Run(s, evs).puts && Run(s, evs).puts[put] == s.puts[put]
    ensures Run(s, evs).config.sessions == s.config.sessions
    decreases |evs|
  {
    if evs != [] {
      assert evs[0] in evs;
      OwnRequestOnly(Apply(s, evs[0]), put, evs[1..]);
    }
  }

  lemma {:induction false} RunAppend(s: State, a: seq<Event>, b: seq<Event>)
    requires Legal(s, a + b)
    ensures Legal(s, a) && Legal(Run(s, a), b) && Run(s, a + b) == Run(Run(s, a), b)
    decreases |a|
  {
    if a == [] {
      assert a + b == b;
    } else {
      assert (a + b)[1..] == a[1..] + b;
      RunAppend(Apply(s, a[0]), a[1..], b);
    }
  }

  // Whether a transition has a telemetry step that fails after the new policy is saved.
  predicate FailsAfterSave(before: Policy, commit: Event)
    requires commit.PutCommit?
  {
    commit.saved && ((Breaks(before, commit.policy) && !commit.swept) ||
                     (commit.policy.retentionHours < before.retentionHours && !commit.trimmed))
  }

  // A PUT no other PUT overlaps, failing at its sessions step, leaves the policy it found.  It
  // leaves the whole configuration it found exactly when it failed after the new policy was
  // saved, so that its rollback restores what it had written before, or had written nothing else.
  lemma FailedTransitionRestores(s: State, put: nat, between: seq<Event>, commit: Event)
    requires commit.PutCommit? && commit.put == put && commit.restored
    requires !commit.saved || FailsAfterSave(s.config.sessions, commit)
    requires Legal(s, [PutLoad(put)] + between + [commit])
    requires forall ev :: ev in between ==> !IsPut(ev) || (ev.PutRest? && ev.put == put)
    ensures Legal(s, [PutLoad(put)] + between)
    ensures var final := Run(s, [PutLoad(put)] + between + [commit]).config;
      && final.sessions == s.config.sessions
      && (final == s.config <==> commit.saved || Run(s, [PutLoad(put)] + between).config.rest == s.config.rest)
  {
    var head := [PutLoad(put)] + between;
    RunAppend(s, head, [commit]);
    RunAppend(s, [PutLoad(put)], between);
    var s1 := Apply(s, PutLoad(put));
    assert [PutLoad(put)][1..] == [];
    assert Run(s, [PutLoad(put)]) == s1;
    OwnRequestOnly(s1, put, between);
    var s2 := Run(s, head);
    assert [commit][1..] == [];
    assert Run(s2, [commit]) == Apply(s2, commit);
  }

  // When saving the sessions block itself fails there is no rollback, so everything the
  // request wrote before it stays.
  lemma UnsavedTransitionKeepsTheRest(s: State, before: seq<Event>, commit: Event)
    requires commit.PutCommit? && !commit.saved && Legal(s, before + [commit])
    ensures Legal(s, before) && Run(s, before + [commit]).config == Run(s, before).config
  {
    RunAppend(s, before, [commit]);
    assert [commit][1..] == [];
    assert Run(Run(s, before), [commit]) == Apply(Run(s, before), commit);
  }

  // ------------------------------------------------------------------ the handlers

  lemma FailOne(actions: map<Id, Action>, batch: seq<Id>, id: Id, unreadable: set<Id>)
    requires id in actions
    ensures FailUnreadable(actions, batch + [id], unreadable) ==
      (var failed := FailUnreadable(actions, batch, unreadable);
       if id in unreadable then failed[id := failed[id].(state := Terminal("failed"))] else failed)
  {
  }

  lemma PrepareStep(actions: map<Id, Action>, batch: seq<Id>, i: nat, unreadable: set<Id>)
    requires i < |batch| && batch[i] in actions
    ensures FailUnreadable(actions, batch[..i + 1], unreadable) ==
      (var failed := FailUnreadable(actions, batch[..i], unreadable);
       if batch[i] in unreadable then failed[batch[i] := failed[batch[i]].(state := Terminal("failed"))] else failed)
    ensures Readable(batch[i..], unreadable) ==
      if batch[i] in unreadable then Readable(batch[i + 1..], unreadable)
      else [batch[i]] + Readable(batch[i + 1..], unreadable)
  {
    assert batch[..i + 1] == batch[..i] + [batch[i]];
    FailOne(actions, batch[..i], batch[i], unreadable);
    assert batch[i..][1..] == batch[i + 1..];
  }

  lemma NoneFailed(actions: map<Id, Action>, batch: seq<Id>, unreadable: set<Id>)
    requires !SomeUnreadable(batch, unreadable)
    ensures FailUnreadable(actions, batch, unreadable) == actions
  {
    forall id | id in batch ensures id !in unreadable {
      var i :| 0 <= i < |batch| && batch[i] == id;
    }
  }

  class SessionActions {
    var config: Config
    var actions: map<Id, Action>
    var keys: map<string, Id>
    ghost var puts: map<nat, Config>
    var log: seq<Entry>

    ghost function Abs(): State
      reads this
    {
      State(config, actions, keys, puts, log)
    }

    constructor (initial: Config)
      ensures Abs() == Start(initial)
    {
      config, actions, keys, puts, log := initial, map[], map[], map[], [];
    }

    method Enqueue(id: Id, host: Host, key: string, fingerprint: string, nowMs: int, target: bool)
      returns (answer: Answer)
      modifies this
      ensures Abs() == EnqueueState(old(Abs()), id, host, key, fingerprint, nowMs, target)
      ensures answer == EnqueueAnswer(old(Abs()), key, fingerprint, target)
    {
      if key in keys && keys[key] in actions {
        if actions[keys[key]].fingerprint == fingerprint {
          return Replay(keys[key]);
        }
        return Conflict;
      }
      if !(config.sessions.enabled && config.sessions.allowActions) {
        return Disabled;
      }
      if !target {
        return Rejected;
      }
      actions := actions[id := Action(host, key, fingerprint, nowMs, nowMs + ACTION_TTL_MS, Queued, |log|)];
      keys := keys[key := id];
      log := log + [Enqueued(id, config.sessions)];
      return Stored;
    }

    method Deliver(host: Host, nowMs: int, expires: bool, delivers: bool, batch: seq<Id>,
                   unreadable: set<Id>, completes: bool) returns (pending: seq<Id>)
      requires forall id :: id in batch ==> id in actions
      modifies this
      ensures Abs() == DeliverState(old(Abs()), nowMs, expires, delivers, batch, unreadable, completes)
      ensures pending == DeliverAnswer(old(Abs()), nowMs, expires, delivers, batch, unreadable, completes)
      ensures |log| == |old(log)| + |pending| && log[..|old(log)|] == old(log)
      ensures forall i :: 0 <= i < |pending| ==>
                pending[i] in old(actions) &&
                log[|old(log)| + i] == Sent(pending[i], old(actions)[pending[i]].since, old(config).sessions)
    {
      if !config.sessions.enabled || !config.sessions.allowActions || !expires {
        return [];
      }
      actions := Expire(actions, nowMs);
      if !delivers {
        return [];
      }
      actions := MarkDelivered(actions, batch);
      var marked := actions;
      var sent := Prepare(batch, unreadable, completes);
      if sent.None? {
        return [];
      }
      ReadableElements(batch, unreadable);
      log := log + SentLog(marked, sent.value, config.sessions);
      return sent.value;
    }

    // Opens each selected action; one that cannot be opened is completed as failed, and if
    // even that cannot be stored the whole delivery is given up.
    method Prepare(batch: seq<Id>, unreadable: set<Id>, completes: bool) returns (pending: Option<seq<Id>>)
      requires forall id :: id in batch ==> id in actions
      modifies this`actions
      ensures pending == if SomeUnreadable(batch, unreadable) && !completes
          then None else Some(Readable(batch, unreadable))
      ensures actions == if pending.None? then old(actions) else FailUnreadable(old(actions), batch, unreadable)
    {
      var ready: seq<Id> := [];
      var i := 0;
      while i < |batch|
        invariant 0 <= i <= |batch|
        invariant actions == FailUnreadable(old(actions), batch[..i], unreadable)
        invariant ready + Readable(batch[i..], unreadable) == Readable(batch, unreadable)
        invariant !completes ==> forall k :: 0 <= k < i ==> batch[k] !in unreadable
      {
        var id := batch[i];
        PrepareStep(old(actions), batch, i, unreadable);
        if id in unreadable {
          if !completes {
            NoneFailed(old(actions), batch[..i], unreadable);
            return None;
          }
          actions := actions[id := actions[id].(state := Terminal("failed"))];
        } else {
          assert ready + ([id] + Readable(batch[i + 1..], unreadable)) ==
              (ready + [id]) + Readable(batch[i + 1..], unreadable);
          ready := ready + [id];
        }
        i := i + 1;
      }
      assert batch[..i] == batch && ready + [] == ready;
      return Some(ready);
    }

    method Transition(ghost put: nat, settingsBefore: Config, policy: Policy,
                      saved: bool, swept: bool, trimmed: bool, restored: bool) returns (ok: bool)
      requires put in puts && puts[put] == settingsBefore
      modifies this
      ensures Abs() == CommitState(old(Abs()), put, policy, saved, swept, trimmed, restored)
      ensures var ev := PutCommit(put, policy, saved, swept, trimmed, restored);
              ok <==> saved && !FailsAfterSave(settingsBefore.sessions, ev)
    {
      var previous := settingsBefore.sessions;
      var visibilityChanged := previous.identity != policy.identity || previous.client != policy.client ||
                               previous.process != policy.process;
      var actionsDisabled := (previous.enabled && !policy.enabled) || (previous.allowActions && !policy.allowActions);
      var retentionReduced := policy.retentionHours < previous.retentionHours;
      puts := puts - {put};
      if !saved {
        return false;
      }
      var found := config.sessions;
      config := config.(sessions := policy);
      var failed := false;
      if visibilityChanged || actionsDisabled {
        if swept {
          actions := Cancel(actions);
        } else {
          failed := true;
        }
      }
      if !failed && retentionReduced && !trimmed {
        failed := true;
      }
      if failed && restored {
        config := settingsBefore;
      }
      log := log + [Changed(found, config.sessions)];
      return !failed;
    }
  }
}
