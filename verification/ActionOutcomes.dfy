/**
 What one delivery of a session action comes to, for every answer of the environment; and that
 a redelivered action reports the outcome that was recorded first.
 */
module ActionOutcomes {
  import opened Wrappers
  import opened ActionExecutor

  // The end of an execution that held the claim: its outcome is recorded, and reported, unless
  // the ledger failed.
  function Recorded(s: State, id: Id, outcome: Outcome, complete: Store, clock: int, calls: seq<Call>): State {
    s.(clock := clock, calls := calls, threads := [Idle],
       ledger := s.ledger[id := if complete.FailsUnchanged? then Claimed else Terminal(outcome)],
       reports := if complete.Works? then s.reports + [Report(id, outcome)] else s.reports)
  }

  // One more step of an execution alone.
  lemma Unroll(cat: Catalog, s: State, id: Id, env: Env, steps: nat, s': State)
    requires KnownIds(cat, s) && |s.threads| == 1 && !s.threads[0].Idle? && steps > 0
    requires var s1 := if s.threads[0].Found? && env.later >= s.clock then s.(clock := env.later) else s;
      Step(cat, s1, 0, ChoiceFor(env, id, s1.threads[0])) == s'
    requires KnownIds(cat, s')
    ensures Solo(cat, s, id, env, steps) == Solo(cat, s', id, env, steps - 1)
  {
  }

  function At(s: State, clock: int, l: Local): State {
    s.(clock := clock, threads := [l])
  }

  lemma ClaimsAlone(cat: Catalog, s: State, id: Id, env: Env)
    requires id in cat && id !in s.ledger && env.claim.Works?
    ensures ExecuteAlone(cat, s, id, env) ==
      Solo(cat, At(s.(ledger := s.ledger[id := Claimed]), env.now, Owner(id, env.now)), id, env, 4)
  {
    Unroll(cat, At(s, env.now, Entered(id, env.now)), id, env, 5,
           At(s.(ledger := s.ledger[id := Claimed]), env.now, Owner(id, env.now)));
  }

  lemma RecordsAlone(cat: Catalog, s: State, id: Id, env: Env, steps: nat, clock: int, outcome: Outcome)
    requires id in cat && id in s.ledger && s.ledger[id].Claimed? && steps > 0
    ensures Solo(cat, At(s, clock, Recording(id, outcome)), id, env, steps) ==
      Recorded(s, id, outcome, env.complete, clock, s.calls)
  {
    var s' := Recorded(s, id, outcome, env.complete, clock, s.calls);
    if env.complete.FailsUnchanged? {
      assert s.ledger[id := Claimed] == s.ledger;
    }
    Unroll(cat, At(s, clock, Recording(id, outcome)), id, env, steps, s');
  }

  // The first delivery of an action that is refused before the second look at the clock: no
  // call is made, and the earliest reason is the outcome.
  lemma FirstDeliveryRefused(cat: Catalog, s: State, id: Id, env: Env, outcome: Outcome)
    requires id in cat && id !in s.ledger && env.claim.Works?
    requires var a := cat[id];
      || (outcome == Expired && env.now >= a.expiresAt)
      || (outcome == Failed && env.now < a.expiresAt && (env.lookup == LookupError || env.lookup == NoSession))
      || (outcome == SessionChanged && env.now < a.expiresAt && env.lookup.LogonAt? && env.lookup.ms != a.expectedLogon)
      || (outcome == Unsupported && env.now < a.expiresAt && env.lookup == LogonAt(a.expectedLogon) &&
          (a.kind == Message(None) || a.kind == Unrecognised))
    ensures ExecuteAlone(cat, s, id, env) == Recorded(s, id, outcome, env.complete, env.now, s.calls)
  {
    ClaimsAlone(cat, s, id, env);
    var s1 := s.(ledger := s.ledger[id := Claimed]);
    Unroll(cat, At(s1, env.now, Owner(id, env.now)), id, env, 4, At(s1, env.now, Recording(id, outcome)));
    RecordsAlone(cat, s1, id, env, 3, env.now, outcome);
    ClaimedThenRecorded(s, id, outcome, env.complete, env.now, s.calls);
  }

  lemma FindsAlone(cat: Catalog, s: State, id: Id, env: Env)
    requires id in cat && id !in s.ledger && env.claim.Works?
    requires env.lookup == LogonAt(cat[id].expectedLogon)
    requires cat[id].kind != Message(None) && cat[id].kind != Unrecognised
    requires env.now < cat[id].expiresAt
    ensures ExecuteAlone(cat, s, id, env) ==
      Solo(cat, At(s.(ledger := s.ledger[id := Claimed]), env.now, Found(id, cat[id].expectedLogon)), id, env, 3)
  {
    ClaimsAlone(cat, s, id, env);
    var s1 := s.(ledger := s.ledger[id := Claimed]);
    Unroll(cat, At(s1, env.now, Owner(id, env.now)), id, env, 4, At(s1, env.now, Found(id, cat[id].expectedLogon)));
  }

  lemma ClaimedThenRecorded(s: State, id: Id, outcome: Outcome, complete: Store, clock: int, calls: seq<Call>)
    ensures Recorded(s.(ledger := s.ledger[id := Claimed]), id, outcome, complete, clock, calls) ==
      Recorded(s, id, outcome, complete, clock, calls)
  {
  }

  // An action that passed the checks but has expired by the time the clock is read again.
  lemma FirstDeliveryExpiresLate(cat: Catalog, s: State, id: Id, env: Env)
    requires id in cat && id !in s.ledger && env.claim.Works?
    requires env.lookup == LogonAt(cat[id].expectedLogon)
    requires cat[id].kind != Message(None) && cat[id].kind != Unrecognised
    requires env.now < cat[id].expiresAt <= env.later
    ensures ExecuteAlone(cat, s, id, env) == Recorded(s, id, Expired, env.complete, env.later, s.calls)
  {
    FindsAlone(cat, s, id, env);
    var s1 := s.(ledger := s.ledger[id := Claimed]);
    Unroll(cat, At(s1, env.now, Found(id, cat[id].expectedLogon)), id, env, 3,
           At(s1, env.later, Recording(id, Expired)));
    RecordsAlone(cat, s1, id, env, 2, env.later, Expired);
    ClaimedThenRecorded(s, id, Expired, env.complete, env.later, s.calls);
  }

  // Every other first delivery calls WTS once, and the outcome is what the call answered.
  lemma FirstDeliveryCalls(cat: Catalog, s: State, id: Id, env: Env)
    requires id in cat && id !in s.ledger && env.claim.Works?
    requires env.lookup == LogonAt(cat[id].expectedLogon)
    requires cat[id].kind != Message(None) && cat[id].kind != Unrecognised
    requires env.now <= env.later < cat[id].expiresAt
    ensures ExecuteAlone(cat, s, id, env) ==
      Recorded(s, id, if env.callOk then Completed else Failed, env.complete, env.later,
               s.calls + [Call(id, cat[id].kind, cat[id].sessionId, cat[id].expectedLogon, env.callOk)])
  {
    FindsAlone(cat, s, id, env);
    var s1 := s.(ledger := s.ledger[id := Claimed]);
    var logon := cat[id].expectedLogon;
    Unroll(cat, At(s1, env.now, Found(id, logon)), id, env, 3, At(s1, env.later, Armed(id, logon)));
    CallsAlone(cat, s1, id, env);
    ClaimedThenRecorded(s, id, if env.callOk then Completed else Failed, env.complete, env.later,
                        s.calls + [Call(id, cat[id].kind, cat[id].sessionId, logon, env.callOk)]);
  }

  lemma CallsAlone(cat: Catalog, s: State, id: Id, env: Env)
    requires id in cat && id in s.ledger && s.ledger[id].Claimed?
    ensures Solo(cat, At(s, env.later, Armed(id, cat[id].expectedLogon)), id, env, 2) ==
      Recorded(s, id, if env.callOk then Completed else Failed, env.complete, env.later,
               s.calls + [Call(id, cat[id].kind, cat[id].sessionId, cat[id].expectedLogon, env.callOk)])
  {
    var outcome := if env.callOk then Completed else Failed;
    var s2 := s.(calls := s.calls + [Call(id, cat[id].kind, cat[id].sessionId, cat[id].expectedLogon, env.callOk)]);
    Unroll(cat, At(s, env.later, Armed(id, cat[id].expectedLogon)), id, env, 2,
           At(s2, env.later, Recording(id, outcome)));
    RecordsAlone(cat, s2, id, env, 1, env.later, outcome);
  }

  // A claim that fails reports nothing and calls nothing; it may have taken the row all the same.
  lemma FailedClaimIsSilent(cat: Catalog, s: State, id: Id, env: Env)
    requires id in cat && !env.claim.Works?
    ensures ExecuteAlone(cat, s, id, env) ==
      At(if env.claim.FailsUnchanged? || id in s.ledger then s else s.(ledger := s.ledger[id := Claimed]),
         env.now, Idle)
  {
    var s' := if env.claim.FailsUnchanged? || id in s.ledger then s else s.(ledger := s.ledger[id := Claimed]);
    Unroll(cat, At(s, env.now, Entered(id, env.now)), id, env, 5, At(s', env.now, Idle));
  }

  /**
   A redelivered action whose row is terminal changes nothing and reports the recorded outcome
   again; one whose row is only claimed, or cannot be read, reports a duplicate.
   */
  lemma RedeliveryReportsAgain(cat: Catalog, s: State, id: Id, env: Env)
    requires id in cat && id in s.ledger && env.claim.Works?
    ensures s.ledger[id].Terminal? && env.read.Works? ==>
      ExecuteAlone(cat, s, id, env) ==
        s.(clock := env.now, reports := s.reports + [Report(id, s.ledger[id].outcome)], threads := [Idle])
    ensures s.ledger[id].Claimed? || !env.read.Works? ==>
      ExecuteAlone(cat, s, id, env) ==
        s.(clock := env.now, reports := s.reports + [Report(id, Duplicate)], threads := [Idle])
  {
    var outcome := if s.ledger[id].Terminal? && env.read.Works? then s.ledger[id].outcome else Duplicate;
    Unroll(cat, At(s, env.now, Entered(id, env.now)), id, env, 5, At(s, env.now, Refused(id)));
    Unroll(cat, At(s, env.now, Refused(id)), id, env, 4,
           At(s.(reports := s.reports + [Report(id, outcome)]), env.now, Idle));
  }

  // ---------------------------------------------------------- over whole runs

  // The ledger has a row for the action all along.
  ghost predicate RowKept(cat: Catalog, s: State, events: seq<Event>, id: Id)
    requires Inv(cat, s)
    decreases |events|
  {
    id in s.ledger &&
    (events == [] ||
     (NextKeepsInv(cat, s, events[0]);
      RowKept(cat, Next(cat, s, events[0]), events[1..], id)))
  }

  // The outcome recorded first stays while the row is kept.
  lemma {:induction false} FirstOutcomeStays(cat: Catalog, s: State, events: seq<Event>, id: Id)
    requires Inv(cat, s) && RowKept(cat, s, events, id) && s.ledger[id].Terminal?
    ensures id in Run(cat, s, events).ledger && Run(cat, s, events).ledger[id] == s.ledger[id]
    decreases |events|
  {
    if events != [] {
      NextKeepsInv(cat, s, events[0]);
      assert id in Next(cat, s, events[0]).ledger;
      FirstOutcomeStays(cat, Next(cat, s, events[0]), events[1..], id);
    }
  }

  /**
   Whatever happens after an outcome has been recorded, a redelivery reports it again and calls
   nothing, while the row is kept and can be read.
   */
  lemma RecordedOutcomeIsReported(cat: Catalog, s: State, events: seq<Event>, id: Id, env: Env)
    requires Inv(cat, s) && RowKept(cat, s, events, id) && s.ledger[id].Terminal?
    requires id in cat && env.claim.Works? && env.read.Works?
    ensures var later := Run(cat, s, events);
      ExecuteAlone(cat, later, id, env) ==
        later.(clock := env.now, reports := later.reports + [Report(id, s.ledger[id].outcome)], threads := [Idle])
  {
    FirstOutcomeStays(cat, s, events, id);
    RedeliveryReportsAgain(cat, Run(cat, s, events), id, env);
  }

  predicate LeavesAlone(events: seq<Event>, tid: nat) {
    forall e :: e in events && (e.Move? || e.Crash?) ==> e.tid != tid
  }

  lemma NextLeavesMine(cat: Catalog, s: State, e: Event, tid: nat)
    requires KnownIds(cat, s) && tid < |s.threads|
    requires e.Move? || e.Crash? ==> e.tid != tid
    ensures Next(cat, s, e).threads[tid] == s.threads[tid]
  {
  }

  lemma {:induction false} OthersLeaveMine(cat: Catalog, s: State, events: seq<Event>, tid: nat)
    requires Inv(cat, s) && tid < |s.threads| && LeavesAlone(events, tid)
    ensures tid < |Run(cat, s, events).threads| && Run(cat, s, events).threads[tid] == s.threads[tid]
    decreases |events|
  {
    if events != [] {
      var rest := events[1..];
      assert events == [events[0]] + rest;
      assert LeavesAlone(rest, tid);
      NextKeepsInv(cat, s, events[0]);
      NextLeavesMine(cat, s, events[0], tid);
      OthersLeaveMine(cat, Next(cat, s, events[0]), rest, tid);
    }
  }

  ghost function Moved(cat: Catalog, s: State, tid: nat, c: Choice): (s': State)
    requires Inv(cat, s)
    ensures Inv(cat, s') && s' == Next(cat, s, Move(tid, c))
  {
    NextKeepsInv(cat, s, Move(tid, c));
    Next(cat, s, Move(tid, c))
  }

  /** The same when other executions interleave between its failed claim and its look at the row. */
  lemma InterleavedRedeliveryReports(cat: Catalog, s: State, tid: nat, id: Id, now: int, claim: Choice,
                                     events: seq<Event>, read: Choice)
    requires Inv(cat, s) && tid < |s.threads| && s.threads[tid] == Entered(id, now)
    requires id in s.ledger && s.ledger[id].Terminal? && claim.store.Works? && read.store.Works?
    requires LeavesAlone(events, tid) && RowKept(cat, Moved(cat, s, tid, claim), events, id)
    ensures var before := Run(cat, Moved(cat, s, tid, claim), events);
      var after := Moved(cat, before, tid, read);
      && after.reports == before.reports + [Report(id, s.ledger[id].outcome)]
      && after.calls == before.calls && after.ledger == before.ledger
  {
    var s1 := Moved(cat, s, tid, claim);
    FirstOutcomeStays(cat, s1, events, id);
    OthersLeaveMine(cat, s1, events, tid);
  }
}
