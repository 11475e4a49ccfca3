/**
 The agent-side executor of session actions: claim in the durable ledger, look at the
 target, invoke WTS, record the outcome.

 Executions of delivered and redelivered actions interleave with each other, with the
 clock, with crashes between any two steps and with the ledger forgetting rows.  Every
 delivery of one action ID carries the same action, so actions are kept in a catalog.
 */
module ActionExecutor {
  import opened Wrappers

  type Id = string

  datatype Kind = Disconnect | Logoff | Message(text: Option<string>) | Unrecognised

  datatype Action = Action(sessionId: nat, expectedLogon: int, expiresAt: int, kind: Kind)

  datatype Outcome = Completed | Failed | Expired | SessionChanged | Unsupported | Duplicate

  // A ledger row: claimed, and later terminal with the first recorded outcome.
  datatype Row = Claimed | Terminal(outcome: Outcome)

  // One WTS invocation: what was called, on which session, and the logon time it was checked against.
  datatype Call = Call(id: Id, kind: Kind, sessionId: nat, logon: int, ok: bool)
  datatype Report = Report(id: Id, outcome: Outcome)

  // Program counter of one execution.
  datatype Local =
    | Idle
    | Entered(id: Id, now: int)             // about to claim
    | Refused(id: Id)                       // claim refused, about to read the row
    | Owner(id: Id, now: int)               // claim granted, about to look at the session
    | Found(id: Id, logon: int)                         // target matches, about to read the clock again
    | Armed(id: Id, logon: int)                         // about to invoke WTS
    | Recording(id: Id, outcome: Outcome)   // about to complete the row

  // What the ledger's storage does with one call.
  datatype Store = Works | FailsUnchanged | FailsAfterwards

  datatype Lookup = LookupError | NoSession | LogonAt(ms: int)

  // The environment's part of a step.
  datatype Choice = Choice(id: Id, store: Store, lookup: Lookup, callOk: bool)

  datatype State = State(
    clock: int,
    ledger: map<Id, Row>,
    acked: set<Id>,        // IDs whose completion the dashboard accepted: never delivered again
    calls: seq<Call>,
    reports: seq<Report>,
    threads: seq<Local>
  )

  datatype Event =
    | Move(tid: nat, choice: Choice)
    | Tick(to: int)
    | Crash(tid: nat)
    | Forget(id: Id)        // cleanup of rows past their expiry
    | Acknowledge(id: Id)   // deletion of a terminal row the dashboard has accepted

  type Catalog = map<Id, Action>

  function Init(clock: int, n: nat): State {
    State(clock, map[], {}, [], [], seq(n, i => Idle))
  }

  predicate WorksOn(l: Local, id: Id) {
    !l.Idle? && l.id == id
  }

  predicate KnownIds(cat: Catalog, s: State) {
    forall t | 0 <= t < |s.threads| && !s.threads[t].Idle? :: s.threads[t].id in cat
  }

  function Put(s: State, tid: nat, l: Local): State
    requires tid < |s.threads|
  {
    s.(threads := s.threads[tid := l])
  }

  function Answer(s: State, tid: nat, id: Id, outcome: Outcome): State
    requires tid < |s.threads|
  {
    Put(s.(reports := s.reports + [Report(id, outcome)]), tid, Idle)
  }

  // The checks between a granted claim and the second look at the clock.
  function Inspect(a: Action, now: int, lookup: Lookup): (verdict: Option<Outcome>)
    ensures verdict.None? ==> lookup == LogonAt(a.expectedLogon)
  {
    if now >= a.expiresAt then Some(Expired)
    else if !lookup.LogonAt? then Some(Failed)
    else if lookup.ms != a.expectedLogon then Some(SessionChanged)
    else if a.kind.Unrecognised? || (a.kind.Message? && a.kind.text.None?) then Some(Unsupported)
    else None
  }

  // Complete keeps the first terminal outcome and fails when the claim is gone.
  function CompleteRow(ledger: map<Id, Row>, id: Id, outcome: Outcome): map<Id, Row> {
    if id in ledger && ledger[id].Claimed? then ledger[id := Terminal(outcome)] else ledger
  }

  function Invocation(cat: Catalog, id: Id, logon: int, ok: bool): Call
    requires id in cat
  {
    Call(id, cat[id].kind, cat[id].sessionId, logon, ok)
  }

  /** One atomic step of execution `tid`. */
  function Step(cat: Catalog, s: State, tid: nat, c: Choice): (s': State)
    requires KnownIds(cat, s)
    ensures |s'.threads| == |s.threads|
  {
    if tid >= |s.threads| then s else
    match s.threads[tid]
    case Idle =>
      if c.id in cat && c.id !in s.acked then Put(s, tid, Entered(c.id, s.clock)) else s
    case Entered(id, now) =>
      if c.store.FailsUnchanged? then Put(s, tid, Idle)
      else if id in s.ledger then Put(s, tid, if c.store.Works? then Refused(id) else Idle)
      else Put(s.(ledger := s.ledger[id := Claimed]), tid, if c.store.Works? then Owner(id, now) else Idle)
    case Refused(id) =>
      Answer(s, tid, id,
             if c.store.Works? && id in s.ledger && s.ledger[id].Terminal? then s.ledger[id].outcome else Duplicate)
    case Owner(id, now) =>
      var verdict := Inspect(cat[id], now, c.lookup);
      Put(s, tid, if verdict.None? then Found(id, c.lookup.ms) else Recording(id, verdict.value))
    case Found(id, logon) =>
      Put(s, tid, if s.clock >= cat[id].expiresAt then Recording(id, Expired) else Armed(id, logon))
    case Armed(id, logon) =>
      Put(s.(calls := s.calls + [Invocation(cat, id, logon, c.callOk)]), tid,
          Recording(id, if c.callOk then Completed else Failed))
    case Recording(id, outcome) =>
      if c.store.FailsUnchanged? || id !in s.ledger then Put(s, tid, Idle)
      else
        var s1 := s.(ledger := CompleteRow(s.ledger, id, outcome));
        if c.store.Works? then Answer(s1, tid, id, outcome) else Put(s1, tid, Idle)
  }

  function Next(cat: Catalog, s: State, e: Event): (s': State)
    requires KnownIds(cat, s)
    ensures |s'.threads| == |s.threads|
  {
    match e
    case Move(tid, c) => Step(cat, s, tid, c)
    case Tick(to) => if to >= s.clock then s.(clock := to) else s
    case Crash(tid) => if tid < |s.threads| then Put(s, tid, Idle) else s
    case Forget(id) =>
      if id in cat && s.clock >= cat[id].expiresAt then s.(ledger := s.ledger - {id}) else s
    case Acknowledge(id) =>
      if id in s.ledger && s.ledger[id].Terminal?
         && forall t | 0 <= t < |s.threads| :: !WorksOn(s.threads[t], id)
      then s.(ledger := s.ledger - {id}, acked := s.acked + {id}) else s
  }

  // ---------------------------------------------------------------- invariant

  // The execution holds a granted claim and has not invoked WTS yet.
  predicate MayCall(l: Local, id: Id) {
    (l.Owner? || l.Found? || l.Armed?) && l.id == id
  }

  predicate IsArmed(l: Local, id: Id) {
    l.Armed? && l.id == id
  }

  predicate Called(calls: seq<Call>, id: Id) {
    exists i :: 0 <= i < |calls| && calls[i].id == id
  }

  predicate Succeeded(calls: seq<Call>, id: Id) {
    exists i :: 0 <= i < |calls| && calls[i].id == id && calls[i].ok
  }

  lemma CallAppended(calls: seq<Call>, c: Call, id: Id)
    ensures Called(calls + [c], id) <==> Called(calls, id) || c.id == id
    ensures Succeeded(calls + [c], id) <==> Succeeded(calls, id) || (c.id == id && c.ok)
  {
    if Called(calls, id) {
      var i :| 0 <= i < |calls| && calls[i].id == id;
      assert (calls + [c])[i] == calls[i];
    }
    if Succeeded(calls, id) {
      var i :| 0 <= i < |calls| && calls[i].id == id && calls[i].ok;
      assert (calls + [c])[i] == calls[i];
    }
    assert (calls + [c])[|calls|] == c;
  }

  // Before its expiry an action has at most one claimant, and the claim is still known.
  ghost predicate ClaimExclusive(cat: Catalog, s: State, id: Id) {
    && id in cat
    && (s.clock < cat[id].expiresAt ==>
          && (forall t, u | 0 <= t < u < |s.threads| :: !(MayCall(s.threads[t], id) && MayCall(s.threads[u], id)))
          && (forall t | 0 <= t < |s.threads| && MayCall(s.threads[t], id) ::
                !Called(s.calls, id) && (id in s.ledger || id in s.acked))
          && (Called(s.calls, id) ==> id in s.ledger || id in s.acked))
  }

  // At any time at most one execution is armed, and none once WTS has been invoked.
  predicate CallExclusive(s: State, id: Id) {
    && (forall t, u | 0 <= t < u < |s.threads| :: !(IsArmed(s.threads[t], id) && IsArmed(s.threads[u], id)))
    && (forall t | 0 <= t < |s.threads| && IsArmed(s.threads[t], id) :: !Called(s.calls, id))
    && (forall i, j | 0 <= i < j < |s.calls| :: !(s.calls[i].id == id && s.calls[j].id == id))
  }

  // Nothing claims a completion that did not happen.
  predicate CompletionHonest(s: State, id: Id) {
    && (id in s.ledger && s.ledger[id] == Terminal(Completed) ==> Succeeded(s.calls, id))
    && (forall t | 0 <= t < |s.threads| && s.threads[t] == Recording(id, Completed) :: Succeeded(s.calls, id))
    && (forall i | 0 <= i < |s.reports| && s.reports[i] == Report(id, Completed) :: Succeeded(s.calls, id))
  }

  // An execution works on a deliverable action and only proceeds on the expected logon time.
  predicate ThreadOk(cat: Catalog, acked: set<Id>, l: Local) {
    !l.Idle? ==>
      && l.id in cat && l.id !in acked
      && ((l.Found? || l.Armed?) ==> l.logon == cat[l.id].expectedLogon)
  }

  // WTS is only invoked as the action says, on its session, with the expected logon time seen.
  predicate CallOk(cat: Catalog, c: Call) {
    c.id in cat && c == Invocation(cat, c.id, cat[c.id].expectedLogon, c.ok)
  }

  predicate RightTarget(cat: Catalog, s: State) {
    && (forall t | 0 <= t < |s.threads| :: ThreadOk(cat, s.acked, s.threads[t]))
    && (forall i | 0 <= i < |s.calls| :: CallOk(cat, s.calls[i]))
  }

  ghost predicate Inv(cat: Catalog, s: State) {
    && KnownIds(cat, s)
    && RightTarget(cat, s)
    && (forall id | id in cat :: ClaimExclusive(cat, s, id) && CallExclusive(s, id))
    && (forall id :: CompletionHonest(s, id))
  }

  // Steps after which nobody has more rights to call WTS than before.
  lemma NoNewRights(cat: Catalog, s: State, s': State, tid: nat, id: Id)
    requires ClaimExclusive(cat, s, id) && CallExclusive(s, id)
    requires s'.clock == s.clock && s'.calls == s.calls && s'.acked == s.acked && s'.ledger.Keys == s.ledger.Keys
    requires tid < |s.threads| && |s'.threads| == |s.threads| && s'.threads == s.threads[tid := s'.threads[tid]]
    requires MayCall(s'.threads[tid], id) ==> MayCall(s.threads[tid], id) && !s'.threads[tid].Armed?
    ensures ClaimExclusive(cat, s', id) && CallExclusive(s', id)
  {
  }

  // The claim is granted only if nobody holds one and WTS has not been invoked, or after expiry.
  lemma ClaimStep(cat: Catalog, s: State, tid: nat, c: Choice, id: Id)
    requires KnownIds(cat, s) && ClaimExclusive(cat, s, id) && CallExclusive(s, id)
    requires tid < |s.threads| && s.threads[tid].Entered? && s.threads[tid].id !in s.acked
    ensures ClaimExclusive(cat, Step(cat, s, tid, c), id) && CallExclusive(Step(cat, s, tid, c), id)
  {
    var s' := Step(cat, s, tid, c);
    if !s'.threads[tid].Owner? && s'.ledger.Keys == s.ledger.Keys {
      NoNewRights(cat, s, s', tid, id);
    }
  }

  // The clock is read after the claim: past expiry nobody is armed any more.
  lemma ArmStep(cat: Catalog, s: State, tid: nat, c: Choice, id: Id)
    requires KnownIds(cat, s) && ClaimExclusive(cat, s, id) && CallExclusive(s, id)
    requires tid < |s.threads| && s.threads[tid].Found?
    ensures ClaimExclusive(cat, Step(cat, s, tid, c), id) && CallExclusive(Step(cat, s, tid, c), id)
  {
    var s' := Step(cat, s, tid, c);
    if !s'.threads[tid].Armed? {
      NoNewRights(cat, s, s', tid, id);
    }
  }

  lemma CallStep(cat: Catalog, s: State, tid: nat, c: Choice, id: Id)
    requires KnownIds(cat, s) && ClaimExclusive(cat, s, id) && CallExclusive(s, id)
    requires tid < |s.threads| && s.threads[tid].Armed?
    ensures ClaimExclusive(cat, Step(cat, s, tid, c), id) && CallExclusive(Step(cat, s, tid, c), id)
  {
    CallAppended(s.calls, Invocation(cat, s.threads[tid].id, s.threads[tid].logon, c.callOk), id);
  }

  lemma OtherStep(cat: Catalog, s: State, tid: nat, c: Choice, id: Id)
    requires KnownIds(cat, s) && ClaimExclusive(cat, s, id) && CallExclusive(s, id)
    requires tid < |s.threads| && (s.threads[tid].Idle? || s.threads[tid].Refused? || s.threads[tid].Owner? ||
        s.threads[tid].Recording?)
    ensures ClaimExclusive(cat, Step(cat, s, tid, c), id) && CallExclusive(Step(cat, s, tid, c), id)
  {
    NoNewRights(cat, s, Step(cat, s, tid, c), tid, id);
  }

  lemma EventKeepsClaims(cat: Catalog, s: State, e: Event, id: Id)
    requires KnownIds(cat, s) && ClaimExclusive(cat, s, id) && CallExclusive(s, id)
    requires !e.Move?
    ensures ClaimExclusive(cat, Next(cat, s, e), id) && CallExclusive(Next(cat, s, e), id)
  {
    if e.Crash? && e.tid < |s.threads| {
      NoNewRights(cat, s, Next(cat, s, e), e.tid, id);
    }
  }

  lemma NextKeepsClaims(cat: Catalog, s: State, e: Event, id: Id)
    requires Inv(cat, s) && id in cat
    ensures ClaimExclusive(cat, Next(cat, s, e), id) && CallExclusive(Next(cat, s, e), id)
  {
    if e.Move? && e.tid < |s.threads| {
      match s.threads[e.tid]
      case Entered(_, _) =>
        assert ThreadOk(cat, s.acked, s.threads[e.tid]);
        ClaimStep(cat, s, e.tid, e.choice, id);
      case Found(_, _) => ArmStep(cat, s, e.tid, e.choice, id);
      case Armed(_, _) => CallStep(cat, s, e.tid, e.choice, id);
      case _ => OtherStep(cat, s, e.tid, e.choice, id);
    } else if !e.Move? {
      EventKeepsClaims(cat, s, e, id);
    }
  }

  lemma StepKeepsHonest(cat: Catalog, s: State, tid: nat, c: Choice, id: Id)
    requires KnownIds(cat, s) && CompletionHonest(s, id) && tid < |s.threads|
    ensures CompletionHonest(Step(cat, s, tid, c), id)
  {
    if s.threads[tid].Armed? {
      CallAppended(s.calls, Invocation(cat, s.threads[tid].id, s.threads[tid].logon, c.callOk), id);
    }
  }

  lemma NextKeepsHonest(cat: Catalog, s: State, e: Event, id: Id)
    requires KnownIds(cat, s) && CompletionHonest(s, id)
    ensures CompletionHonest(Next(cat, s, e), id)
  {
    if e.Move? && e.tid < |s.threads| {
      StepKeepsHonest(cat, s, e.tid, e.choice, id);
    }
  }

  lemma InitInv(cat: Catalog, clock: int, n: nat)
    ensures Inv(cat, Init(clock, n))
  {
  }

  lemma NextKeepsInv(cat: Catalog, s: State, e: Event)
    requires Inv(cat, s)
    ensures Inv(cat, Next(cat, s, e))
  {
    var s' := Next(cat, s, e);
    NextKeepsTargets(cat, s, e);
    forall id | id in cat
      ensures ClaimExclusive(cat, s', id) && CallExclusive(s', id)
    {
      NextKeepsClaims(cat, s, e, id);
    }
    forall id
      ensures CompletionHonest(s', id)
    {
      NextKeepsHonest(cat, s, e, id);
    }
  }

  lemma NextKeepsTargets(cat: Catalog, s: State, e: Event)
    requires KnownIds(cat, s) && RightTarget(cat, s)
    ensures KnownIds(cat, Next(cat, s, e)) && RightTarget(cat, Next(cat, s, e))
  {
    var s' := Next(cat, s, e);
    forall t | 0 <= t < |s'.threads|
      ensures ThreadOk(cat, s'.acked, s'.threads[t])
    {
      assert ThreadOk(cat, s.acked, s.threads[t]);
    }
    forall i | 0 <= i < |s'.calls|
      ensures CallOk(cat, s'.calls[i])
    {
      if i < |s.calls| {
        assert CallOk(cat, s.calls[i]);
      } else {
        assert ThreadOk(cat, s.acked, s.threads[e.tid]);
      }
    }
    assert forall t | 0 <= t < |s'.threads| && !s'.threads[t].Idle? :: ThreadOk(cat, s'.acked, s'.threads[t]);
  }

  ghost function Run(cat: Catalog, s: State, events: seq<Event>): (s': State)
    requires Inv(cat, s)
    ensures Inv(cat, s')
    decreases |events|
  {
    if events == [] then s else
      NextKeepsInv(cat, s, events[0]);
      Run(cat, Next(cat, s, events[0]), events[1..])
  }

  ghost function Reached(cat: Catalog, clock: int, n: nat, events: seq<Event>): (s: State)
    ensures Inv(cat, s)
  {
    InitInv(cat, clock, n);
    Run(cat, Init(clock, n), events)
  }

  /**
   Over all deliveries, redeliveries, interleavings and crashes WTS is invoked at most once
   for an action.
   */
  lemma InvokedAtMostOnce(cat: Catalog, clock: int, n: nat, events: seq<Event>)
    ensures var calls := Reached(cat, clock, n, events).calls;
            forall i, j :: 0 <= i < j < |calls| ==> calls[i].id != calls[j].id
  {
    var s := Reached(cat, clock, n, events);
    forall i, j | 0 <= i < j < |s.calls|
      ensures s.calls[i].id != s.calls[j].id
    {
      assert CallOk(cat, s.calls[i]) && CallExclusive(s, s.calls[i].id);
    }
  }

  /** Every invocation is the one the action asks for, on a session whose logon time matched. */
  lemma InvokedOnTheRightTarget(cat: Catalog, clock: int, n: nat, events: seq<Event>, i: nat)
    requires i < |Reached(cat, clock, n, events).calls|
    ensures var c := Reached(cat, clock, n, events).calls[i];
            c.id in cat && c.kind == cat[c.id].kind && c.sessionId == cat[c.id].sessionId
            && c.logon == cat[c.id].expectedLogon
  {
    assert CallOk(cat, Reached(cat, clock, n, events).calls[i]);
  }

  /** A reported completion means WTS was invoked exactly once and that invocation succeeded. */
  lemma CompletedMeansInvokedOnce(cat: Catalog, clock: int, n: nat, events: seq<Event>, id: Id)
    requires Report(id, Completed) in Reached(cat, clock, n, events).reports
    ensures var calls := Reached(cat, clock, n, events).calls;
            exists i :: 0 <= i < |calls| && calls[i].id == id && calls[i].ok
                        && forall j :: 0 <= j < |calls| && j != i ==> calls[j].id != id
  {
    var s := Reached(cat, clock, n, events);
    assert CompletionHonest(s, id);
    var k :| 0 <= k < |s.reports| && s.reports[k] == Report(id, Completed);
    var i :| 0 <= i < |s.calls| && s.calls[i].id == id && s.calls[i].ok;
    InvokedAtMostOnce(cat, clock, n, events);
    assert forall j :: 0 <= j < |s.calls| && j != i ==> s.calls[j].id != id;
  }

  // ---------------------------------------------------- one execution, undisturbed

  // What the environment answers during one call of Execute: two clock readings included.
  datatype Env = Env(now: int, claim: Store, read: Store, lookup: Lookup, later: int, callOk: bool, complete: Store)

  function ChoiceFor(env: Env, id: Id, l: Local): Choice {
    Choice(id, if l.Entered? then env.claim else if l.Refused? then env.read else env.complete, env.lookup, env.callOk)
  }

  // Goroutine 0 moves until it is idle again; the clock advances before it is read again.
  function Solo(cat: Catalog, s: State, id: Id, env: Env, steps: nat): State
    requires KnownIds(cat, s) && |s.threads| == 1
    decreases steps
  {
    if steps == 0 || s.threads[0].Idle? then s else
      var s1 := if s.threads[0].Found? && env.later >= s.clock then s.(clock := env.later) else s;
      Solo(cat, Step(cat, s1, 0, ChoiceFor(env, id, s1.threads[0])), id, env, steps - 1)
  }

  // An execution takes at most five steps after it has read the clock.
  function ExecuteAlone(cat: Catalog, s: State, id: Id, env: Env): State
    requires id in cat
  {
    Solo(cat, s.(clock := env.now, threads := [Entered(id, env.now)]), id, env, 5)
  }

  predicate Supported(a: Action) {
    !a.kind.Unrecognised? && (a.kind.Message? ==> a.kind.text.Some?)
  }

  /** An undisturbed first delivery of a live, matching action invokes WTS and reports completion. */
  lemma FirstDeliveryCompletes(cat: Catalog, s: State, id: Id, env: Env)
    requires id in cat && Supported(cat[id]) && id !in s.ledger
    requires env.now <= env.later < cat[id].expiresAt && env.lookup == LogonAt(cat[id].expectedLogon) && env.callOk
    requires env.claim.Works? && env.complete.Works?
    ensures ExecuteAlone(cat, s, id, env)
         == s.(clock := env.later, ledger := s.ledger[id := Terminal(Completed)],
               calls := s.calls + [Invocation(cat, id, cat[id].expectedLogon, true)],
               reports := s.reports + [Report(id, Completed)], threads := [Idle])
  {
    var s0 := s.(clock := env.now, threads := [Entered(id, env.now)]);
    var s1 := Step(cat, s0, 0, ChoiceFor(env, id, s0.threads[0]));
    assert s1.threads == [Owner(id, env.now)];
    var s2 := Step(cat, s1, 0, ChoiceFor(env, id, s1.threads[0]));
    assert s2.threads == [Found(id, env.lookup.ms)];
    var s3 := Step(cat, s2.(clock := env.later), 0, ChoiceFor(env, id, s2.threads[0]));
    assert s3.threads == [Armed(id, env.lookup.ms)];
    var s4 := Step(cat, s3, 0, ChoiceFor(env, id, s3.threads[0]));
    assert s4.threads == [Recording(id, Completed)];
    var s5 := Step(cat, s4, 0, ChoiceFor(env, id, s4.threads[0]));
    assert s5.threads == [Idle];
    assert s5.ledger == s.ledger[id := Terminal(Completed)];
    calc {
      ExecuteAlone(cat, s, id, env);
      Solo(cat, s0, id, env, 5);
      Solo(cat, s1, id, env, 4);
      Solo(cat, s2, id, env, 3);
      Solo(cat, s3, id, env, 2);
      Solo(cat, s4, id, env, 1);
      Solo(cat, s5, id, env, 0);
      s5;
    }
  }

  /** A ledger that forgot a row before its expiry would let a redelivery invoke WTS again. */
  lemma EarlyForgettingRepeats(cat: Catalog, s: State, id: Id, env: Env)
    requires id in cat && Supported(cat[id]) && id !in s.ledger
    requires env.now <= env.later < cat[id].expiresAt && env.lookup == LogonAt(cat[id].expectedLogon) && env.callOk
    requires env.claim.Works? && env.complete.Works?
    ensures var once := ExecuteAlone(cat, s, id, env);
            var forgotten := once.(ledger := once.ledger - {id});
            var call := Invocation(cat, id, cat[id].expectedLogon, true);
            ExecuteAlone(cat, forgotten, id, env).calls == s.calls + [call] + [call]
  {
    FirstDeliveryCompletes(cat, s, id, env);
    var once := ExecuteAlone(cat, s, id, env);
    FirstDeliveryCompletes(cat, once.(ledger := once.ledger - {id}), id, env);
  }

  // ------------------------------------------------------------------ the executor

  datatype Result = Reported(outcome: Outcome) | ClaimError | CompleteError

  class SessionActionExecutor {
    const cat: Catalog
    var clock: int
    var ledger: map<Id, Row>
    var calls: seq<Call>
    var reports: seq<Report>

    function Abs(): State
      reads this
    {
      State(clock, ledger, {}, calls, reports, [Idle])
    }

    constructor (cat: Catalog, clock: int)
      ensures this.cat == cat && Abs() == Init(clock, 1)
    {
      this.cat, this.clock, ledger, calls, reports := cat, clock, map[], [], [];
      new;
      assert seq(1, i => Idle) == [Idle];
    }

    method Execute(id: Id, env: Env) returns (result: Result)
      requires id in cat && env.now <= env.later
      modifies this
      ensures Abs() == ExecuteAlone(cat, old(Abs()), id, env)
      ensures result.Reported? <==> |reports| == |old(reports)| + 1
      ensures result.Reported? ==> reports == old(reports) + [Report(id, result.outcome)]
    {
      var now := env.now;
      clock := now;
      ghost var s0 := Abs().(threads := [Entered(id, now)]);
      ghost var s1 := Step(cat, s0, 0, ChoiceFor(env, id, s0.threads[0]));
      assert Solo(cat, s0, id, env, 5) == Solo(cat, s1, id, env, 4);

      var claimed := false;
      if env.claim.FailsUnchanged? {
        assert s1.threads == [Idle];
        return ClaimError;
      }
      if id !in ledger {
        ledger := ledger[id := Claimed];
        claimed := true;
      }
      if env.claim.FailsAfterwards? {
        assert s1.threads == [Idle];
        return ClaimError;
      }
      if !claimed {
        assert s1.threads == [Refused(id)];
        var outcome := Duplicate;
        if env.read.Works? && ledger[id].Terminal? {
          outcome := ledger[id].outcome;
        }
        reports := reports + [Report(id, outcome)];
        assert Step(cat, s1, 0, ChoiceFor(env, id, s1.threads[0])).threads == [Idle];
        return Reported(outcome);
      }
      assert s1.threads == [Owner(id, now)];
      result := Perform(id, now, env, s1);
    }

    // The part of Execute that holds a granted claim; `s1` is the protocol's state at its start.
    method Perform(id: Id, now: int, env: Env, ghost s1: State) returns (result: Result)
      requires id in cat && clock <= env.later
      requires s1 == Abs().(threads := [Owner(id, now)])
      modifies this
      ensures Abs() == Solo(cat, s1, id, env, 4)
      ensures result.Reported? <==> |reports| == |old(reports)| + 1
      ensures result.Reported? ==> reports == old(reports) + [Report(id, result.outcome)]
    {
      var action := cat[id];
      var verdict := Inspect(action, now, env.lookup);
      ghost var s2 := Step(cat, s1, 0, ChoiceFor(env, id, s1.threads[0]));
      assert Solo(cat, s1, id, env, 4) == Solo(cat, s2, id, env, 3);
      if verdict.Some? {
        assert s2.threads == [Recording(id, verdict.value)];
        result := RecordTerminal(id, verdict.value, env, s2, 3);
        return;
      }
      assert s2.threads == [Found(id, env.lookup.ms)];
      clock := env.later;
      ghost var s3 := Step(cat, s2.(clock := env.later), 0, ChoiceFor(env, id, s2.threads[0]));
      assert Solo(cat, s2, id, env, 3) == Solo(cat, s3, id, env, 2);
      if clock >= action.expiresAt {
        assert s3.threads == [Recording(id, Expired)];
        result := RecordTerminal(id, Expired, env, s3, 2);
        return;
      }
      assert s3.threads == [Armed(id, env.lookup.ms)];
      calls := calls + [Call(id, action.kind, action.sessionId, env.lookup.ms, env.callOk)];
      ghost var s4 := Step(cat, s3, 0, ChoiceFor(env, id, s3.threads[0]));
      assert Solo(cat, s3, id, env, 2) == Solo(cat, s4, id, env, 1);
      var outcome := if env.callOk then Completed else Failed;
      assert s4.threads == [Recording(id, outcome)];
      result := RecordTerminal(id, outcome, env, s4, 1);
    }

    // `s` is the state of the protocol in which goroutine 0 is about to record `outcome`.
    method RecordTerminal(id: Id, outcome: Outcome, env: Env, ghost s: State, ghost steps: nat) returns (result: Result)
      requires id in cat && steps >= 1
      requires s == Abs().(threads := [Recording(id, outcome)])
      modifies this`ledger, this`reports
      ensures Abs() == Solo(cat, s, id, env, steps)
      ensures result.Reported? <==> |reports| == |old(reports)| + 1
      ensures result.Reported? ==> result == Reported(outcome) && reports == old(reports) + [Report(id, outcome)]
    {
      ghost var s' := Step(cat, s, 0, ChoiceFor(env, id, s.threads[0]));
      assert s'.threads == [Idle];
      if env.complete.FailsUnchanged? || id !in ledger {
        return CompleteError;
      }
      ledger := CompleteRow(ledger, id, outcome);
      if env.complete.FailsAfterwards? {
        return CompleteError;
      }
      reports := reports + [Report(id, outcome)];
      return Reported(outcome);
    }
  }
}
