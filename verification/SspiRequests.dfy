/**
 What the registry does for a connection: a reaper takes contexts older than a minute and no
 others, and the second leg of a handshake continues the context its first leg has stored.
 */
module SspiRequests {
  import opened Wrappers
  import opened SspiRegistry

  // -------------------------------------------------------------------- reaping

  // Older than a minute when the pass read the clock.
  predicate Stale(heap: seq<PendingCtx>, p: Ptr, now: int) {
    p < |heap| && now - heap[p].created > 60
  }

  // What a reaper pass has taken, or is about to take, was older than a minute.
  ghost predicate TakesOnlyStale(heap: seq<PendingCtx>, l: Local) {
    match l
    case Yielded(Reap(now), _, _, p) => Stale(heap, p, now)
    case Releasing(sc, Resume(Reap(now), _)) => exists p: Ptr :: Stale(heap, p, now) && heap[p].sc == sc
    case _ => true
  }

  ghost predicate AllTakeOnlyStale(s: State) {
    forall t :: 0 <= t < |s.threads| ==> TakesOnlyStale(s.heap, s.threads[t])
  }

  lemma StaleStays(heap: seq<PendingCtx>, c: PendingCtx, l: Local)
    requires TakesOnlyStale(heap, l)
    ensures TakesOnlyStale(heap + [c], l)
  {
    match l
    case Releasing(sc, Resume(Reap(now), _)) =>
      var p: Ptr :| Stale(heap, p, now) && heap[p].sc == sc;
      assert Stale(heap + [c], p, now) && (heap + [c])[p].sc == sc;
    case _ =>
  }

  lemma MoverTakesOnlyStale(s: State, tid: nat, c: Choice)
    requires PointersValid(s) && AllTakeOnlyStale(s) && tid < |s.threads|
    ensures TakesOnlyStale(Step(s, tid, c).heap, Step(s, tid, c).threads[tid])
  {
    assert TakesOnlyStale(s.heap, s.threads[tid]);
    match s.threads[tid]
    case Yielded(Reap(now), _, _, p) => assert Stale(s.heap, p, now);
    case _ =>
  }

  lemma StepTakesOnlyStale(s: State, tid: nat, c: Choice)
    requires PointersValid(s) && AllTakeOnlyStale(s)
    ensures AllTakeOnlyStale(Step(s, tid, c))
  {
    if tid < |s.threads| {
      var s' := Step(s, tid, c);
      forall t | 0 <= t < |s'.threads| ensures TakesOnlyStale(s'.heap, s'.threads[t]) {
        if t == tid {
          MoverTakesOnlyStale(s, tid, c);
        } else {
          assert TakesOnlyStale(s.heap, s.threads[t]);
          if s.threads[tid].Storing? {
            StaleStays(s.heap, PendingCtx(s.threads[tid].sc, c.at), s.threads[t]);
          }
        }
      }
    }
  }

  lemma {:induction false} RunTakesOnlyStale(s: State, schedule: seq<Event>)
    requires Inv(s) && AllTakeOnlyStale(s)
    ensures AllTakeOnlyStale(Run(s, schedule))
    decreases |schedule|
  {
    if schedule != [] {
      StepTakesOnlyStale(s, schedule[0].tid, schedule[0].choice);
      StepKeepsInv(s, schedule[0].tid, schedule[0].choice);
      RunTakesOnlyStale(Step(s, schedule[0].tid, schedule[0].choice), schedule[1..]);
    }
  }

  /** In every reachable state a context that a reaper pass takes or releases is older than a minute. */
  lemma ReapersTakeOnlyStale(n: nat, schedule: seq<Event>, tid: nat)
    requires tid < |Reached(n, schedule).threads|
    ensures var s := Reached(n, schedule);
      match s.threads[tid]
      case Yielded(Reap(now), _, _, p) => p < |s.heap| && now - s.heap[p].created > 60
      case Releasing(sc, Resume(Reap(now), _)) =>
        exists p: Ptr :: p < |s.heap| && s.heap[p].sc == sc && now - s.heap[p].created > 60
      case _ => true
  {
    InitInv(n);
    RunTakesOnlyStale(Init(n), schedule);
    var s := Reached(n, schedule);
    assert TakesOnlyStale(s.heap, s.threads[tid]);
    match s.threads[tid]
    case Releasing(sc, Resume(Reap(now), _)) =>
      var p: Ptr :| Stale(s.heap, p, now) && s.heap[p].sc == sc;
    case _ =>
  }

  // The goroutine is at work until the schedule ends.
  ghost predicate Busy(s: State, schedule: seq<Event>, tid: nat)
    requires Inv(s) && tid < |s.threads|
    decreases |schedule|
  {
    schedule == [] ||
    (!s.threads[tid].Idle? &&
     (StepKeepsInv(s, schedule[0].tid, schedule[0].choice);
      Busy(Step(s, schedule[0].tid, schedule[0].choice), schedule[1..], tid)))
  }

  // The entry under this key is out of the map, or the pass of `tid` has still to come by.
  ghost predicate Due(s: State, tid: nat, now: int, key: Key, p: Ptr) {
    && tid < |s.threads| && Stale(s.heap, p, now)
    && (p !in s.pending.Values ||
        (key in s.pending && s.pending[key] == p &&
         match s.threads[tid]
         case Sweeping(pass, todo) => pass == Reap(now) && key in todo
         case Yielded(pass, todo, k, q) => pass == Reap(now) && (key in todo || (k == key && q == p))
         case Releasing(_, after) => after.Resume? && after.pass == Reap(now) && key in after.todo
         case Released(after) => after.Resume? && after.pass == Reap(now) && key in after.todo
         case Uncounting(pass, todo) => pass == Reap(now) && key in todo
         case _ => false))
  }

  // An entry is in the map under one key.
  lemma OneKey(s: State, k: Key, l: Key)
    requires Inv(s) && k in s.pending && l in s.pending && s.pending[k] == s.pending[l]
    ensures k == l
  {
    var owner :| OwnedBy(s, owner);
    var c := s.heap[s.pending[k]].sc;
    assert HeldAt(s, c, InMap(k)) && HeldAt(s, c, InMap(l));
  }

  lemma OutOfMap(s: State, k: Key)
    requires Inv(s) && k in s.pending
    ensures s.pending[k] !in (s.pending - {k}).Values
  {
    if s.pending[k] in (s.pending - {k}).Values {
      var l :| l in s.pending - {k} && (s.pending - {k})[l] == s.pending[k];
      OneKey(s, k, l);
    }
  }

  // A step takes the entry out of the map or leaves it where it is.
  lemma EntryStaysOrGoes(s: State, tid: nat, c: Choice, key: Key)
    requires Inv(s) && key in s.pending
    ensures var s' := Step(s, tid, c);
      s.pending[key] in s'.pending.Values ==> key in s'.pending && s'.pending[key] == s.pending[key]
  {
    var s' := Step(s, tid, c);
    var p := s.pending[key];
    if p in s'.pending.Values {
      var l :| l in s'.pending && s'.pending[l] == p;
      assert p < |s.heap|;
      assert l in s.pending && s.pending[l] == p;
      OneKey(s, key, l);
    }
  }

  lemma SweeperComesBy(s: State, tid: nat, now: int, key: Key, p: Ptr, c: Choice)
    requires Inv(s) && Due(s, tid, now, key, p) && p in s.pending.Values
    ensures Due(Step(s, tid, c), tid, now, key, p)
  {
    var s' := Step(s, tid, c);
    EntryStaysOrGoes(s, tid, c, key);
    match s.threads[tid]
    case Yielded(pass, todo, k, q) =>
      if k == key && q == p {
        OutOfMap(s, key);
        assert s'.pending == s.pending - {key};
      }
    case _ =>
  }

  lemma StaysDue(s: State, tid: nat, now: int, key: Key, p: Ptr, e: Event)
    requires Inv(s) && Due(s, tid, now, key, p)
    ensures Due(Step(s, e.tid, e.choice), tid, now, key, p)
  {
    StepKeepsInv(s, e.tid, e.choice);
    if p !in s.pending.Values {
      assert Run(s, [e]) == Step(s, e.tid, e.choice) by {
        assert [e][1..] == [];
      }
      OnceOutStaysOut(s, [e], p);
    } else if e.tid == tid {
      SweeperComesBy(s, tid, now, key, p, e.choice);
    } else {
      EntryStaysOrGoes(s, e.tid, e.choice, key);
    }
  }

  lemma {:induction false} RunStaysDue(s: State, schedule: seq<Event>, tid: nat, now: int, key: Key, p: Ptr)
    requires Inv(s) && Due(s, tid, now, key, p)
    requires Busy(s, schedule, tid)
    ensures Due(Run(s, schedule), tid, now, key, p)
    decreases |schedule|
  {
    if schedule != [] {
      StepKeepsInv(s, schedule[0].tid, schedule[0].choice);
      StaysDue(s, tid, now, key, p, schedule[0]);
      RunStaysDue(Step(s, schedule[0].tid, schedule[0].choice), schedule[1..], tid, now, key, p);
    }
  }

  /**
   Whatever the other goroutines do meanwhile, when a reaper pass ends every entry that was
   older than a minute at its start is out of the map.
   */
  lemma StaleEntriesGo(s: State, schedule: seq<Event>, tid: nat, now: int, key: Key)
    requires Inv(s) && tid < |s.threads| && s.threads[tid] == Sweeping(Reap(now), s.pending.Keys)
    requires Busy(s, schedule, tid) && Run(s, schedule).threads[tid].Idle?
    requires key in s.pending && now - s.heap[s.pending[key]].created > 60
    ensures s.pending[key] !in Run(s, schedule).pending.Values
  {
    RunStaysDue(s, schedule, tid, now, key, s.pending[key]);
  }

  // ----------------------------------------------------- a reaper pass of its own

  function Young(heap: seq<PendingCtx>, pending: map<Key, Ptr>, now: int): map<Key, Ptr>
    requires forall k :: k in pending ==> pending[k] < |heap|
  {
    map k | k in pending && now - heap[pending[k]].created <= 60 :: pending[k]
  }

  predicate Alone(schedule: seq<Event>, tid: nat) {
    forall i :: 0 <= i < |schedule| ==> schedule[i].tid == tid
  }

  // The pass has left every young entry alone.
  ghost predicate SparesYoung(s0: State, s: State, tid: nat, now: int)
    requires PointersValid(s0)
  {
    && s.heap == s0.heap && tid < |s.threads|
    && (forall k :: k in s.pending ==> k in s0.pending && s.pending[k] == s0.pending[k])
    && (forall k :: k in Young(s0.heap, s0.pending, now) ==> k in s.pending)
    && match s.threads[tid]
       case Idle => true
       case Sweeping(pass, todo) => pass == Reap(now)
       case Yielded(pass, todo, k, p) => pass == Reap(now) && Stale(s.heap, p, now)
       case Releasing(_, after) => after.Resume? && after.pass == Reap(now)
       case Released(after) => after.Resume? && after.pass == Reap(now)
       case Uncounting(pass, todo) => pass == Reap(now)
       case _ => false
  }

  lemma StepSparesYoung(s0: State, s: State, tid: nat, now: int, c: Choice)
    requires PointersValid(s0) && PointersValid(s) && SparesYoung(s0, s, tid, now) && !s.threads[tid].Idle?
    ensures SparesYoung(s0, Step(s, tid, c), tid, now)
  {
  }

  lemma {:induction false} PassSparesYoung(s0: State, s: State, schedule: seq<Event>, tid: nat, now: int)
    requires Inv(s0) && Inv(s) && SparesYoung(s0, s, tid, now)
    requires Alone(schedule, tid) && Busy(s, schedule, tid)
    ensures SparesYoung(s0, Run(s, schedule), tid, now)
    decreases |schedule|
  {
    if schedule != [] {
      StepKeepsInv(s, tid, schedule[0].choice);
      StepSparesYoung(s0, s, tid, now, schedule[0].choice);
      PassSparesYoung(s0, Step(s, tid, schedule[0].choice), schedule[1..], tid, now);
    }
  }

  /** A reaper pass that nobody disturbs leaves exactly the entries that are at most a minute old. */
  lemma PassKeepsExactlyTheYoung(s: State, schedule: seq<Event>, tid: nat, now: int)
    requires Inv(s) && tid < |s.threads| && s.threads[tid] == Sweeping(Reap(now), s.pending.Keys)
    requires Alone(schedule, tid) && Busy(s, schedule, tid) && Run(s, schedule).threads[tid].Idle?
    ensures Run(s, schedule).pending ==
      map k | k in s.pending && now - s.heap[s.pending[k]].created <= 60 :: s.pending[k]
  {
    var s' := Run(s, schedule);
    PassSparesYoung(s, s, schedule, tid, now);
    forall k | k in s'.pending ensures k in Young(s.heap, s.pending, now) {
      assert s'.pending[k] == s.pending[k] && s'.pending[k] in s'.pending.Values;
      if now - s.heap[s.pending[k]].created > 60 {
        StaleEntriesGo(s, schedule, tid, now, k);
      }
    }
  }

  lemma {:induction false} BusyAppend(s: State, a: seq<Event>, b: seq<Event>, tid: nat)
    requires Inv(s) && tid < |s.threads| && Busy(s, a, tid) && Busy(Run(s, a), b, tid)
    ensures Busy(s, a + b, tid) && Run(s, a + b) == Run(Run(s, a), b)
    decreases |a|
  {
    if a == [] {
      assert a + b == b;
    } else {
      assert (a + b)[0] == a[0] && (a + b)[1..] == a[1..] + b;
      StepKeepsInv(s, a[0].tid, a[0].choice);
      BusyAppend(Step(s, a[0].tid, a[0].choice), a[1..], b, tid);
    }
  }

  lemma OneStep(s: State, tid: nat, c: Choice)
    requires Inv(s) && tid < |s.threads| && !s.threads[tid].Idle?
    ensures Inv(Step(s, tid, c))
    ensures Busy(s, [Event(tid, c)], tid) && Run(s, [Event(tid, c)]) == Step(s, tid, c)
  {
    StepKeepsInv(s, tid, c);
    assert [Event(tid, c)][1..] == [];
  }

  // How far a sweeper is from its rest.
  function Left(l: Local): nat {
    match l
    case Sweeping(_, todo) => 5 * |todo| + 1
    case Yielded(_, todo, _, _) => 5 * |todo| + 5
    case Releasing(_, after) => if after.Resume? then 5 * |after.todo| + 4 else 0
    case Released(after) => if after.Resume? then 5 * |after.todo| + 3 else 0
    case Uncounting(_, todo) => 5 * |todo| + 2
    case _ => 0
  }

  predicate InPass(l: Local) {
    l.Sweeping? || l.Yielded? || l.Uncounting? || ((l.Releasing? || l.Released?) && l.after.Resume?)
  }

  lemma {:induction false} SomeLength(keys: set<Key>) returns (n: nat)
    ensures forall k :: k in keys ==> |k| < n
  {
    if keys == {} {
      n := 0;
    } else {
      var k :| k in keys;
      var m := SomeLength(keys - {k});
      n := if |k| < m then m else |k| + 1;
    }
  }

  // The key to visit next: one not visited yet, or in the end one that is not in the map.
  lemma NextKey(s: State, tid: nat) returns (key: Key)
    requires tid < |s.threads|
    ensures s.threads[tid].Sweeping? && s.threads[tid].todo != {} ==> key in s.threads[tid].todo
    ensures s.threads[tid].Sweeping? && s.threads[tid].todo == {} ==> key !in s.pending
  {
    if s.threads[tid].Sweeping? && s.threads[tid].todo != {} {
      key :| key in s.threads[tid].todo;
    } else {
      var n := SomeLength(s.pending.Keys);
      key := seq(n, i => 'x');
    }
  }

  lemma StepTowardsRest(s: State, tid: nat, c: Choice)
    requires Inv(s) && tid < |s.threads| && InPass(s.threads[tid])
    requires s.threads[tid].Sweeping? && s.threads[tid].todo != {} ==> c.key in s.threads[tid].todo
    requires s.threads[tid].Sweeping? && s.threads[tid].todo == {} ==> c.key !in s.pending
    ensures var l := Step(s, tid, c).threads[tid]; l.Idle? || (InPass(l) && Left(l) < Left(s.threads[tid]))
  {
    match s.threads[tid]
    case Sweeping(pass, todo) =>
      if todo != {} {
        assert |todo - {c.key}| == |todo| - 1;
      }
    case _ =>
  }

  /** Such a pass comes to its end. */
  lemma {:induction false} PassEnds(s: State, tid: nat) returns (schedule: seq<Event>)
    requires Inv(s) && tid < |s.threads| && InPass(s.threads[tid])
    ensures Alone(schedule, tid) && Busy(s, schedule, tid) && Run(s, schedule).threads[tid].Idle?
    decreases Left(s.threads[tid])
  {
    var key := NextKey(s, tid);
    var c := Choice(false, key, Shutdown, Failed, 0);
    OneStep(s, tid, c);
    StepTowardsRest(s, tid, c);
    schedule := [Event(tid, c)];
    if !Step(s, tid, c).threads[tid].Idle? {
      var rest := PassEnds(Step(s, tid, c), tid);
      BusyAppend(s, schedule, rest, tid);
      schedule := schedule + rest;
    }
  }

  /**
   A tick of the reaper that nobody disturbs ends with exactly the entries that are at most a
   minute old.
   */
  lemma TickReaps(s: State, tid: nat, now: int, start: Choice) returns (schedule: seq<Event>)
    requires Inv(s) && tid < |s.threads| && s.threads[tid].Idle? && !start.request && start.pass == Reap(now)
    ensures Alone(schedule, tid) && Inv(Step(s, tid, start))
    ensures var s' := Run(Step(s, tid, start), schedule);
      && s'.threads[tid].Idle?
      && s'.pending == map k | k in s.pending && now - s.heap[s.pending[k]].created <= 60 :: s.pending[k]
  {
    StepKeepsInv(s, tid, start);
    var s1 := Step(s, tid, start);
    schedule := PassEnds(s1, tid);
    PassKeepsExactlyTheYoung(s1, schedule, tid, now);
  }

  /** A shutdown drains the registry from the moment its goroutine is told to, others being at work. */
  lemma ShutdownStarts(s: State, tid: nat, start: Choice, schedule: seq<Event>)
    requires Inv(s) && tid < |s.threads| && s.threads[tid].Idle? && !start.request && start.pass == Shutdown
    requires Inv(Step(s, tid, start)) && StoresNothing(Step(s, tid, start), schedule)
    requires Quiescent(Run(Step(s, tid, start), schedule))
    ensures var s' := Run(Step(s, tid, start), schedule);
      s'.pending == map[] && s'.live == 0 && s'.pendingCount == 0 && |s'.released| == s'.contexts
  {
    ShutdownDrains(Step(s, tid, start), schedule, tid);
  }

  // ------------------------------------------------------------ one request alone

  // `n` steps of one goroutine, the environment answering alike each time.
  function Steps(tid: nat, c: Choice, n: nat): (schedule: seq<Event>)
    ensures |schedule| == n
  {
    if n == 0 then [] else [Event(tid, c)] + Steps(tid, c, n - 1)
  }

  // One step that leads to `s'`, and the rest of them.
  lemma Then(s: State, tid: nat, c: Choice, n: nat, s': State)
    requires Inv(s) && Step(s, tid, c) == s'
    ensures Inv(s') && Run(s, Steps(tid, c, n + 1)) == Run(s', Steps(tid, c, n))
  {
    StepKeepsInv(s, tid, c);
    assert Steps(tid, c, n + 1)[1..] == Steps(tid, c, n);
  }

  function At(s: State, tid: nat, l: Local): State
    requires tid < |s.threads|
  {
    s.(threads := s.threads[tid := l])
  }

  lemma ReleasesAlone(s: State, tid: nat, sc: Ctx, c: Choice)
    requires Inv(s) && tid < |s.threads| && s.threads[tid] == Releasing(sc, Respond)
    ensures Run(s, Steps(tid, c, 2)) == At(s.(released := s.released + [sc], live := s.live - 1), tid, Idle)
  {
    var s1 := s.(released := s.released + [sc]);
    Then(s, tid, c, 1, At(s1, tid, SspiRegistry.Released(Respond)));
    Then(At(s1, tid, SspiRegistry.Released(Respond)), tid, c, 0, At(s1.(live := s.live - 1), tid, Idle));
  }

  lemma StoresAlone(s: State, tid: nat, key: Key, sc: Ctx, c: Choice)
    requires Inv(s) && tid < |s.threads| && s.threads[tid] == Storing(key, sc) && key !in s.pending
    ensures Run(s, Steps(tid, c, 2)) ==
      At(s.(heap := s.heap + [PendingCtx(sc, c.at)], pending := s.pending[key := |s.heap|],
            pendingCount := s.pendingCount + 1), tid, Idle)
  {
    var s1 := s.(heap := s.heap + [PendingCtx(sc, c.at)], pending := s.pending[key := |s.heap|]);
    Then(s, tid, c, 1, At(s1, tid, Stored));
    Then(At(s1, tid, Stored), tid, c, 0, At(s1.(pendingCount := s.pendingCount + 1), tid, Idle));
  }

  // A request on a connection without a context creates one, unless the kernel refuses.
  lemma FirstLegFails(s: State, tid: nat, key: Key, c: Choice)
    requires Inv(s) && tid < |s.threads| && s.threads[tid] == Arrived(key) && key !in s.pending
    requires c.outcome.Failed?
    ensures Run(s, Steps(tid, c, 2)) == At(s, tid, Idle)
  {
    Then(s, tid, c, 1, At(s, tid, Missed(key)));
    Then(At(s, tid, Missed(key)), tid, c, 0, At(s, tid, Idle));
  }

  lemma FirstLegCreates(s: State, tid: nat, key: Key, c: Choice, l: Local)
    requires Inv(s) && tid < |s.threads| && s.threads[tid] == Arrived(key) && key !in s.pending
    requires !c.outcome.Failed?
    requires l == if c.outcome.Done? then Releasing(s.contexts, Respond) else Storing(key, s.contexts)
    ensures var created := At(s.(contexts := s.contexts + 1, live := s.live + 1), tid, l);
      Inv(created) && Run(s, Steps(tid, c, 5)) == Run(created, Steps(tid, c, 2))
  {
    var s2 := s.(contexts := s.contexts + 1);
    Then(s, tid, c, 4, At(s, tid, Missed(key)));
    Then(At(s, tid, Missed(key)), tid, c, 3, At(s2, tid, Created(key, s.contexts, c.outcome.Done?)));
    Then(At(s2, tid, Created(key, s.contexts, c.outcome.Done?)), tid, c, 2, At(s2.(live := s.live + 1), tid, l));
  }

  // If the handshake is over at once the new context is released.
  lemma FirstLegEnds(s: State, tid: nat, key: Key, c: Choice)
    requires Inv(s) && tid < |s.threads| && s.threads[tid] == Arrived(key) && key !in s.pending
    requires c.outcome.Done?
    ensures Run(s, Steps(tid, c, 5)) ==
      At(s.(contexts := s.contexts + 1, released := s.released + [s.contexts]), tid, Idle)
  {
    var l := Releasing(s.contexts, Respond);
    FirstLegCreates(s, tid, key, c, l);
    ReleasesAlone(At(s.(contexts := s.contexts + 1, live := s.live + 1), tid, l), tid, s.contexts, c);
  }

  // If not it is stored under the connection, with the time, and both counters go up.
  lemma FirstLegStores(s: State, tid: nat, key: Key, c: Choice)
    requires Inv(s) && tid < |s.threads| && s.threads[tid] == Arrived(key) && key !in s.pending
    requires c.outcome.More?
    ensures Run(s, Steps(tid, c, 5)) ==
      At(s.(contexts := s.contexts + 1, heap := s.heap + [PendingCtx(s.contexts, c.at)],
            pending := s.pending[key := |s.heap|], live := s.live + 1, pendingCount := s.pendingCount + 1), tid, Idle)
  {
    var l := Storing(key, s.contexts);
    FirstLegCreates(s, tid, key, c, l);
    StoresAlone(At(s.(contexts := s.contexts + 1, live := s.live + 1), tid, l), tid, key, s.contexts, c);
  }

  function TakenOut(s: State, tid: nat, key: Key, l: Local): State
    requires tid < |s.threads|
  {
    At(s.(pending := s.pending - {key}, pendingCount := s.pendingCount - 1), tid, l)
  }

  lemma TakesStep(s: State, tid: nat, key: Key, c: Choice)
    requires PointersValid(s) && tid < |s.threads| && s.threads[tid] == Arrived(key) && key in s.pending
    ensures Step(s, tid, c) == At(s.(pending := s.pending - {key}), tid, Removed(key, s.pending[key]))
  {
  }

  lemma DiscountsStep(s: State, tid: nat, key: Key, p: Ptr, c: Choice)
    requires PointersValid(s) && tid < |s.threads| && s.threads[tid] == Removed(key, p) && p < |s.heap|
    ensures Step(s, tid, c) == At(s.(pendingCount := s.pendingCount - 1), tid, Continuing(key, s.heap[p].sc))
  {
  }

  lemma ContinuesStep(s: State, tid: nat, key: Key, sc: Ctx, c: Choice, l: Local)
    requires PointersValid(s) && tid < |s.threads| && s.threads[tid] == Continuing(key, sc)
    requires l == if c.outcome.More? then Storing(key, sc) else Releasing(sc, Respond)
    ensures Step(s, tid, c) == At(s, tid, l)
  {
  }

  // A request on a connection with a pending context continues that one.
  lemma SecondLegContinues(s: State, tid: nat, key: Key, c: Choice, l: Local)
    requires Inv(s) && tid < |s.threads| && s.threads[tid] == Arrived(key) && key in s.pending
    requires var sc := s.heap[s.pending[key]].sc;
      l == if c.outcome.More? then Storing(key, sc) else Releasing(sc, Respond)
    ensures Inv(TakenOut(s, tid, key, l))
    ensures Run(s, Steps(tid, c, 5)) == Run(TakenOut(s, tid, key, l), Steps(tid, c, 2))
  {
    var p := s.pending[key];
    var sc := s.heap[p].sc;
    var s1 := At(s.(pending := s.pending - {key}), tid, Removed(key, p));
    var s2 := TakenOut(s, tid, key, Continuing(key, sc));
    TakesStep(s, tid, key, c);
    Then(s, tid, c, 4, s1);
    DiscountsStep(s1, tid, key, p, c);
    assert Step(s1, tid, c) == s2;
    Then(s1, tid, c, 3, s2);
    ContinuesStep(s2, tid, key, sc, c, l);
    assert Step(s2, tid, c) == TakenOut(s, tid, key, l);
    Then(s2, tid, c, 2, TakenOut(s, tid, key, l));
  }

  // If the handshake is over, or fails, it is released and both counters go down.
  lemma SecondLegEnds(s: State, tid: nat, key: Key, c: Choice)
    requires Inv(s) && tid < |s.threads| && s.threads[tid] == Arrived(key) && key in s.pending
    requires !c.outcome.More?
    ensures Run(s, Steps(tid, c, 5)) ==
      At(s.(pending := s.pending - {key}, released := s.released + [s.heap[s.pending[key]].sc], live := s.live - 1,
            pendingCount := s.pendingCount - 1), tid, Idle)
  {
    var sc := s.heap[s.pending[key]].sc;
    var l := Releasing(sc, Respond);
    SecondLegContinues(s, tid, key, c, l);
    ReleasesAlone(TakenOut(s, tid, key, l), tid, sc, c);
  }

  lemma StoredBack(s: State, tid: nat, key: Key, l: Local, pc: PendingCtx)
    requires tid < |s.threads|
    ensures var s1 := TakenOut(s, tid, key, l);
      At(s1.(heap := s1.heap + [pc], pending := s1.pending[key := |s1.heap|], pendingCount := s1.pendingCount + 1),
         tid, Idle) ==
      At(s.(heap := s.heap + [pc], pending := s.pending[key := |s.heap|]), tid, Idle)
  {
    var s1 := TakenOut(s, tid, key, l);
    assert s1.pending[key := |s.heap|] == s.pending[key := |s.heap|];
    assert s1.threads[tid := Idle] == s.threads[tid := Idle];
  }

  // If not it is stored again, with the new time.
  lemma SecondLegStores(s: State, tid: nat, key: Key, c: Choice)
    requires Inv(s) && tid < |s.threads| && s.threads[tid] == Arrived(key) && key in s.pending
    requires c.outcome.More?
    ensures Run(s, Steps(tid, c, 5)) ==
      At(s.(heap := s.heap + [PendingCtx(s.heap[s.pending[key]].sc, c.at)], pending := s.pending[key := |s.heap|]),
         tid, Idle)
  {
    var sc := s.heap[s.pending[key]].sc;
    var l := Storing(key, sc);
    SecondLegContinues(s, tid, key, c, l);
    StoresAlone(TakenOut(s, tid, key, l), tid, key, sc, c);
    StoredBack(s, tid, key, l, PendingCtx(sc, c.at));
  }

  lemma Arrives(s: State, tid: nat, c: Choice, n: nat)
    requires Inv(s) && tid < |s.threads| && s.threads[tid].Idle? && c.request
    ensures var s1 := At(s, tid, Arrived(c.key));
      Inv(s1) && Run(s, Steps(tid, c, n + 1)) == Run(s1, Steps(tid, c, n)) && s1.threads[tid := Idle] == s.threads
  {
    Then(s, tid, c, n, At(s, tid, Arrived(c.key)));
  }

  /**
   What a request does when nobody disturbs it, from its arrival to its answer: without a context
   on its connection it creates one, and releases it or stores it.
   */
  lemma FirstRequestAlone(s: State, tid: nat, c: Choice)
    requires Inv(s) && tid < |s.threads| && s.threads[tid].Idle? && c.request && c.key !in s.pending
    ensures c.outcome.Failed? ==> Run(s, Steps(tid, c, 3)) == s
    ensures c.outcome.Done? ==>
      Run(s, Steps(tid, c, 6)) == s.(contexts := s.contexts + 1, released := s.released + [s.contexts])
    ensures c.outcome.More? ==>
      Run(s, Steps(tid, c, 6)) ==
        s.(contexts := s.contexts + 1, heap := s.heap + [PendingCtx(s.contexts, c.at)],
           pending := s.pending[c.key := |s.heap|], live := s.live + 1, pendingCount := s.pendingCount + 1)
  {
    var s1 := At(s, tid, Arrived(c.key));
    match c.outcome
    case Failed =>
      Arrives(s, tid, c, 2);
      FirstLegFails(s1, tid, c.key, c);
    case Done =>
      Arrives(s, tid, c, 5);
      FirstLegEnds(s1, tid, c.key, c);
    case More =>
      Arrives(s, tid, c, 5);
      FirstLegStores(s1, tid, c.key, c);
  }

  /** With one it takes it out and continues it, and releases it or stores it again. */
  lemma SecondRequestAlone(s: State, tid: nat, c: Choice)
    requires Inv(s) && tid < |s.threads| && s.threads[tid].Idle? && c.request && c.key in s.pending
    ensures !c.outcome.More? ==>
      Run(s, Steps(tid, c, 6)) ==
        s.(pending := s.pending - {c.key}, released := s.released + [s.heap[s.pending[c.key]].sc],
           live := s.live - 1, pendingCount := s.pendingCount - 1)
    ensures c.outcome.More? ==>
      Run(s, Steps(tid, c, 6)) ==
        s.(heap := s.heap + [PendingCtx(s.heap[s.pending[c.key]].sc, c.at)],
           pending := s.pending[c.key := |s.heap|])
  {
    var s1 := At(s, tid, Arrived(c.key));
    Arrives(s, tid, c, 5);
    if c.outcome.More? {
      SecondLegStores(s1, tid, c.key, c);
    } else {
      SecondLegEnds(s1, tid, c.key, c);
    }
  }

  // ------------------------------------------------- a handshake among the others

  // The step is no request on this connection at its map operation, and no sweep of everything.
  predicate Spares(s: State, e: Event, key: Key, until: int) {
    e.tid < |s.threads| ==>
      match s.threads[e.tid]
      case Arrived(k) => k != key
      case Storing(k, _) => k != key
      case Yielded(pass, _, k, _) => k == key ==> pass.Reap? && pass.now <= until
      case _ => true
  }

  ghost predicate AlwaysSpares(s: State, schedule: seq<Event>, key: Key, until: int)
    requires Inv(s)
    decreases |schedule|
  {
    schedule == [] ||
    (Spares(s, schedule[0], key, until) &&
     (StepKeepsInv(s, schedule[0].tid, schedule[0].choice);
      AlwaysSpares(Step(s, schedule[0].tid, schedule[0].choice), schedule[1..], key, until)))
  }

  lemma {:induction false} YoungStays(s: State, schedule: seq<Event>, key: Key, until: int)
    requires Inv(s) && AllTakeOnlyStale(s)
    requires key in s.pending && until <= s.heap[s.pending[key]].created + 60
    requires AlwaysSpares(s, schedule, key, until)
    ensures var s' := Run(s, schedule);
      key in s'.pending && s'.pending[key] == s.pending[key] && s'.heap[s.pending[key]] == s.heap[s.pending[key]]
    decreases |schedule|
  {
    if schedule != [] {
      var e := schedule[0];
      var s1 := Step(s, e.tid, e.choice);
      StepKeepsInv(s, e.tid, e.choice);
      StepTakesOnlyStale(s, e.tid, e.choice);
      if e.tid < |s.threads| {
        assert TakesOnlyStale(s.heap, s.threads[e.tid]);
      }
      assert key in s1.pending && s1.pending[key] == s.pending[key];
      YoungStays(s1, schedule[1..], key, until);
    }
  }

  ghost function After(s: State, tid: nat, c: Choice): (s': State)
    requires Inv(s)
    ensures Inv(s')
  {
    StepKeepsInv(s, tid, c);
    Step(s, tid, c)
  }

  /**
   A context stored by the first leg of a handshake is the one that the second leg continues,
   whatever other connections and the reaper do in between, as long as no reaper reads a clock
   more than a minute later, no other request comes on the connection, and there is no shutdown.
   */
  lemma SecondLegContinuesTheFirst(n: nat, before: seq<Event>, first: nat, key: Key, sc: Ctx, c: Choice,
                                   schedule: seq<Event>, second: nat, d: Choice, e: Choice)
    requires first < |Reached(n, before).threads| && Reached(n, before).threads[first] == Storing(key, sc)
    requires AlwaysSpares(After(Reached(n, before), first, c), schedule, key, c.at + 60)
    requires var s := Run(After(Reached(n, before), first, c), schedule);
      second < |s.threads| && s.threads[second] == Arrived(key)
    ensures var s := Run(After(Reached(n, before), first, c), schedule);
      After(After(s, second, d), second, e).threads[second] == Continuing(key, sc)
  {
    var s := Reached(n, before);
    InitInv(n);
    RunTakesOnlyStale(Init(n), before);
    StepTakesOnlyStale(s, first, c);
    YoungStays(After(s, first, c), schedule, key, c.at + 60);
  }
}
