/**
 The pending-context registry behind the Negotiate middleware.

 Request handlers, the reaper and the shutdown sweep share one concurrent map and
 two atomic counters without any lock.  Every atomic map operation, every counter
 addition and every kernel release is a step of its own; a schedule names, step by
 step, the goroutine that moves and what the environment answers it.
 */
module SspiRegistry {
  import opened Wrappers

  type Key = string  // remote address of the TCP connection
  type Ctx = nat     // kernel security context, numbered in creation order
  type Ptr = nat     // address of a PendingCtx; the map compares entries by address

  datatype PendingCtx = PendingCtx(sc: Ctx, created: int)

  // A Range pass: the shutdown sweep takes every entry, the reaper only old ones.
  datatype Pass = Shutdown | Reap(now: int)

  // What a goroutine does once the context it is releasing is gone.
  datatype After = Respond | Resume(pass: Pass, todo: set<Key>)

  // Program counter and local variables of one goroutine.
  datatype Local =
    | Idle
    | Arrived(key: Key)                        // about to LoadAndDelete
    | Removed(key: Key, p: Ptr)                // entry taken, Pending not yet decremented
    | Continuing(key: Key, sc: Ctx)            // about to feed the token to the context
    | Missed(key: Key)                         // about to create a context
    | Created(key: Key, sc: Ctx, done: bool)   // context exists, Live not yet incremented
    | Storing(key: Key, sc: Ctx)               // about to Swap
    | Stored                                   // new entry stored, Pending not yet incremented
    | Sweeping(pass: Pass, todo: set<Key>)     // inside Range, todo not yet visited
    | Yielded(pass: Pass, todo: set<Key>, key: Key, p: Ptr)  // about to CompareAndDelete
    | Releasing(sc: Ctx, after: After)         // about to call Release
    | Released(after: After)                   // Release done, Live not yet decremented
    | Uncounting(pass: Pass, todo: set<Key>)   // swept entry, Pending not yet decremented

  datatype State = State(
    heap: seq<PendingCtx>,
    pending: map<Key, Ptr>,
    contexts: nat,
    released: seq<Ctx>,
    live: int,
    pendingCount: int,
    threads: seq<Local>
  )

  datatype Outcome = Failed | More | Done

  // The environment's part of a step.
  datatype Choice = Choice(request: bool, key: Key, pass: Pass, outcome: Outcome, at: int)

  datatype Event = Event(tid: nat, choice: Choice)

  const MAX_AGE_SECONDS := 60

  function Init(n: nat): State {
    State([], map[], 0, [], 0, 0, seq(n, i => Idle))
  }

  predicate PointersValid(s: State) {
    && (forall k | k in s.pending :: s.pending[k] < |s.heap|)
    && (forall t | 0 <= t < |s.threads| ::
          (s.threads[t].Removed? || s.threads[t].Yielded?) ==> s.threads[t].p < |s.heap|)
  }

  function Put(s: State, tid: nat, l: Local): State
    requires tid < |s.threads|
  {
    s.(threads := s.threads[tid := l])
  }

  /** One atomic step of goroutine `tid`. */
  function Step(s: State, tid: nat, c: Choice): (s': State)
    requires PointersValid(s)
    ensures |s'.threads| == |s.threads|
  {
    if tid >= |s.threads| then s else
    match s.threads[tid]
    case Idle =>
      Put(s, tid, if c.request then Arrived(c.key) else Sweeping(c.pass, s.pending.Keys))
    case Arrived(k) =>
      if k in s.pending then Put(s.(pending := s.pending - {k}), tid, Removed(k, s.pending[k]))
      else Put(s, tid, Missed(k))
    case Removed(k, p) =>
      Put(s.(pendingCount := s.pendingCount - 1), tid, Continuing(k, s.heap[p].sc))
    case Continuing(k, sc) =>
      Put(s, tid, if c.outcome.More? then Storing(k, sc) else Releasing(sc, Respond))
    case Missed(k) =>
      if c.outcome.Failed? then Put(s, tid, Idle)
      else Put(s.(contexts := s.contexts + 1), tid, Created(k, s.contexts, c.outcome.Done?))
    case Created(k, sc, done) =>
      Put(s.(live := s.live + 1), tid, if done then Releasing(sc, Respond) else Storing(k, sc))
    case Storing(k, sc) =>
      Put(s.(heap := s.heap + [PendingCtx(sc, c.at)], pending := s.pending[k := |s.heap|]), tid,
          if k in s.pending then Releasing(s.heap[s.pending[k]].sc, Respond) else Stored)
    case Stored =>
      Put(s.(pendingCount := s.pendingCount + 1), tid, Idle)
    case Sweeping(pass, todo) =>
      if c.key in s.pending then
        var p := s.pending[c.key];
        if pass.Reap? && pass.now - s.heap[p].created <= MAX_AGE_SECONDS
        then Put(s, tid, Sweeping(pass, todo - {c.key}))
        else Put(s, tid, Yielded(pass, todo - {c.key}, c.key, p))
      else if todo == {} then Put(s, tid, Idle)
      else Put(s, tid, Sweeping(pass, todo - {c.key}))
    case Yielded(pass, todo, k, p) =>
      if k in s.pending && s.pending[k] == p
      then Put(s.(pending := s.pending - {k}), tid, Releasing(s.heap[p].sc, Resume(pass, todo)))
      else Put(s, tid, Sweeping(pass, todo))
    case Releasing(sc, after) =>
      Put(s.(released := s.released + [sc]), tid, Released(after))
    case Released(after) =>
      Put(s.(live := s.live - 1), tid,
          if after.Respond? then Idle else Uncounting(after.pass, after.todo))
    case Uncounting(pass, todo) =>
      Put(s.(pendingCount := s.pendingCount - 1), tid, Sweeping(pass, todo))
  }

  // ---------------------------------------------------------------- ownership

  // A place that can own a context.
  datatype Place = InMap(key: Key) | InThread(tid: nat) | Gone(index: nat)

  predicate Owns(heap: seq<PendingCtx>, l: Local, c: Ctx) {
    match l
    case Removed(_, p) => p < |heap| && heap[p].sc == c
    case Continuing(_, sc) => sc == c
    case Created(_, sc, _) => sc == c
    case Storing(_, sc) => sc == c
    case Releasing(sc, _) => sc == c
    case _ => false
  }

  predicate HeldAt(s: State, c: Ctx, h: Place) {
    match h
    case InMap(k) => k in s.pending && s.pending[k] < |s.heap| && s.heap[s.pending[k]].sc == c
    case InThread(t) => t < |s.threads| && Owns(s.heap, s.threads[t], c)
    case Gone(i) => i < |s.released| && s.released[i] == c
  }

  // owner[c] is the one place that owns context c; nothing owns a context that does not exist.
  ghost predicate OwnedBy(s: State, owner: seq<Place>) {
    && |owner| == s.contexts
    && (forall c: Ctx, h: Place :: HeldAt(s, c, h) ==> c < s.contexts && h == owner[c])
    && (forall c: Ctx :: c < s.contexts ==> HeldAt(s, c, owner[c]))
  }

  // ----------------------------------------------------------------- counters

  // What one goroutine contributes to each count:
  //   Contexts  - contexts it owns itself
  //   Pending   - how far it leaves the Pending counter above the size of the map
  //   Live      - how far it leaves the Live counter above the contexts not yet released
  datatype Tally = Contexts | Pending | Live

  function Weight(q: Tally, l: Local): int {
    match q
    case Contexts =>
      if l.Removed? || l.Continuing? || l.Created? || l.Storing? || l.Releasing? then 1 else 0
    case Pending =>
      if l.Removed? || l.Uncounting? then 1
      else if l.Stored? then -1
      else if (l.Releasing? || l.Released?) && l.after.Resume? then 1
      else 0
    case Live =>
      if l.Created? then -1 else if l.Released? then 1 else 0
  }

  function Sum(q: Tally, ls: seq<Local>): int {
    if ls == [] then 0 else Weight(q, ls[0]) + Sum(q, ls[1..])
  }

  lemma {:induction false} SumUpdate(q: Tally, ls: seq<Local>, i: nat, l: Local)
    requires i < |ls|
    ensures Sum(q, ls[i := l]) == Sum(q, ls) - Weight(q, ls[i]) + Weight(q, l)
  {
    if i == 0 {
      assert ls[i := l][1..] == ls[1..];
    } else {
      assert ls[i := l][1..] == ls[1..][i - 1 := l];
      SumUpdate(q, ls[1..], i - 1, l);
    }
  }

  lemma {:induction false} SumOfIdle(q: Tally, ls: seq<Local>)
    requires forall t | 0 <= t < |ls| :: ls[t] == Idle
    ensures Sum(q, ls) == 0
  {
    if ls != [] {
      SumOfIdle(q, ls[1..]);
    }
  }

  // The global side of each tally, which the goroutines' contributions must add up to.
  function Total(q: Tally, s: State): int {
    match q
    case Contexts => s.contexts - |s.released| - |s.pending|
    case Pending => s.pendingCount - |s.pending|
    case Live => s.live - s.contexts + |s.released|
  }

  ghost predicate CountersExact(s: State) {
    forall q: Tally :: Total(q, s) == Sum(q, s.threads)
  }

  // ---------------------------------------------------------------- invariant

  ghost predicate Inv(s: State) {
    && PointersValid(s)
    && CountersExact(s)
    && exists owner :: OwnedBy(s, owner)
  }

  lemma InitInv(n: nat)
    ensures Inv(Init(n))
  {
    var s := Init(n);
    SumOfIdle(Contexts, s.threads);
    SumOfIdle(Pending, s.threads);
    SumOfIdle(Live, s.threads);
    assert OwnedBy(s, []);
  }

  // Swap stores the address of a new entry.
  lemma StoreKeepsPointers(s: State, tid: nat, c: Choice)
    requires PointersValid(s) && tid < |s.threads| && s.threads[tid].Storing?
    ensures PointersValid(Step(s, tid, c))
  {
  }

  // LoadAndDelete, CompareAndDelete and Range only hand on addresses from the map.
  lemma TakeKeepsPointers(s: State, tid: nat, c: Choice)
    requires PointersValid(s) && tid < |s.threads|
    requires s.threads[tid].Arrived? || s.threads[tid].Yielded? || s.threads[tid].Sweeping?
    ensures PointersValid(Step(s, tid, c))
  {
  }

  lemma StepKeepsPointers(s: State, tid: nat, c: Choice)
    requires PointersValid(s)
    ensures PointersValid(Step(s, tid, c))
  {
    if tid < |s.threads| {
      var l := s.threads[tid];
      if l.Storing? {
        StoreKeepsPointers(s, tid, c);
      } else if l.Arrived? || l.Yielded? || l.Sweeping? {
        TakeKeepsPointers(s, tid, c);
      } else {
        var s' := Step(s, tid, c);
        assert s'.heap == s.heap && s'.pending == s.pending;
        assert !s'.threads[tid].Removed? && !s'.threads[tid].Yielded?;
      }
    }
  }

  lemma SizeWithout(m: map<Key, Ptr>, k: Key)
    requires k in m
    ensures |m - {k}| == |m| - 1
  {
    assert (m - {k}).Keys == m.Keys - {k};
    assert |m - {k}| == |(m - {k}).Keys|;
  }

  lemma SizeWith(m: map<Key, Ptr>, k: Key, p: Ptr)
    ensures |m[k := p]| == if k in m then |m| else |m| + 1
  {
    assert m[k := p].Keys == m.Keys + {k};
    assert |m[k := p]| == |m[k := p].Keys|;
  }

  lemma SizeAfter(s: State, tid: nat, c: Choice)
    requires PointersValid(s) && tid < |s.threads|
    ensures |Step(s, tid, c).pending| == |s.pending| +
              match s.threads[tid]
              case Arrived(k) => if k in s.pending then -1 else 0
              case Yielded(_, _, k, p) => if k in s.pending && s.pending[k] == p then -1 else 0
              case Storing(k, _) => if k in s.pending then 0 else 1
              case _ => 0
  {
    match s.threads[tid]
    case Arrived(k) => if k in s.pending { SizeWithout(s.pending, k); }
    case Yielded(_, _, k, p) => if k in s.pending { SizeWithout(s.pending, k); }
    case Storing(k, _) => SizeWith(s.pending, k, |s.heap|);
    case _ =>
  }

  // Each step moves both sides of every tally by the same amount.
  lemma StepBalancesContexts(s: State, tid: nat, c: Choice)
    requires PointersValid(s) && tid < |s.threads|
    ensures Total(Contexts, Step(s, tid, c)) - Total(Contexts, s)
              == Weight(Contexts, Step(s, tid, c).threads[tid]) - Weight(Contexts, s.threads[tid])
  {
    SizeAfter(s, tid, c);
  }

  predicate MapStep(l: Local) {
    l.Arrived? || l.Yielded? || l.Storing?
  }

  lemma MapStepBalancesPending(s: State, tid: nat, c: Choice)
    requires PointersValid(s) && tid < |s.threads| && MapStep(s.threads[tid])
    ensures Total(Pending, Step(s, tid, c)) - Total(Pending, s)
              == Weight(Pending, Step(s, tid, c).threads[tid]) - Weight(Pending, s.threads[tid])
  {
    SizeAfter(s, tid, c);
  }

  lemma OtherStepBalancesPending(s: State, tid: nat, c: Choice)
    requires PointersValid(s) && tid < |s.threads| && !MapStep(s.threads[tid])
    ensures Total(Pending, Step(s, tid, c)) - Total(Pending, s)
              == Weight(Pending, Step(s, tid, c).threads[tid]) - Weight(Pending, s.threads[tid])
  {
    assert Step(s, tid, c).pending == s.pending;
  }

  lemma StepBalancesPending(s: State, tid: nat, c: Choice)
    requires PointersValid(s) && tid < |s.threads|
    ensures Total(Pending, Step(s, tid, c)) - Total(Pending, s)
              == Weight(Pending, Step(s, tid, c).threads[tid]) - Weight(Pending, s.threads[tid])
  {
    if MapStep(s.threads[tid]) {
      MapStepBalancesPending(s, tid, c);
    } else {
      OtherStepBalancesPending(s, tid, c);
    }
  }

  lemma StepBalancesLive(s: State, tid: nat, c: Choice)
    requires PointersValid(s) && tid < |s.threads|
    ensures Total(Live, Step(s, tid, c)) - Total(Live, s)
              == Weight(Live, Step(s, tid, c).threads[tid]) - Weight(Live, s.threads[tid])
  {
    SizeAfter(s, tid, c);
  }

  lemma StepBalances(q: Tally, s: State, tid: nat, c: Choice)
    requires PointersValid(s) && tid < |s.threads|
    ensures Total(q, Step(s, tid, c)) - Total(q, s)
              == Weight(q, Step(s, tid, c).threads[tid]) - Weight(q, s.threads[tid])
  {
    match q
    case Contexts => StepBalancesContexts(s, tid, c);
    case Pending => StepBalancesPending(s, tid, c);
    case Live => StepBalancesLive(s, tid, c);
  }

  lemma StepKeepsCounters(s: State, tid: nat, c: Choice)
    requires PointersValid(s) && CountersExact(s)
    ensures CountersExact(Step(s, tid, c))
  {
    if tid < |s.threads| {
      var s' := Step(s, tid, c);
      forall q: Tally
        ensures Total(q, s') == Sum(q, s'.threads)
      {
        StepBalances(q, s, tid, c);
        SumUpdate(q, s.threads, tid, s'.threads[tid]);
        assert s'.threads == s.threads[tid := s'.threads[tid]];
      }
    }
  }

  // The owner map after a step: at most two contexts change hands.
  ghost function NextOwner(s: State, tid: nat, c: Choice, owner: seq<Place>): (owner': seq<Place>)
    requires PointersValid(s) && OwnedBy(s, owner)
    ensures |owner'| == Step(s, tid, c).contexts
  {
    if tid >= |s.threads| then owner else
    match s.threads[tid]
    case Arrived(k) =>
      if k in s.pending then
        assert HeldAt(s, s.heap[s.pending[k]].sc, InMap(k));
        owner[s.heap[s.pending[k]].sc := InThread(tid)]
      else owner
    case Missed(k) => if c.outcome.Failed? then owner else owner + [InThread(tid)]
    case Storing(k, sc) =>
      assert HeldAt(s, sc, InThread(tid));
      if k in s.pending then
        assert HeldAt(s, s.heap[s.pending[k]].sc, InMap(k));
        owner[sc := InMap(k)][s.heap[s.pending[k]].sc := InThread(tid)]
      else owner[sc := InMap(k)]
    case Yielded(pass, todo, k, p) =>
      if k in s.pending && s.pending[k] == p then
        assert HeldAt(s, s.heap[p].sc, InMap(k));
        owner[s.heap[p].sc := InThread(tid)]
      else owner
    case Releasing(sc, after) =>
      assert HeldAt(s, sc, InThread(tid));
      owner[sc := Gone(|s.released|)]
    case _ => owner
  }

  lemma StepKeepsOwnership(s: State, tid: nat, c: Choice, owner: seq<Place>)
    requires PointersValid(s) && OwnedBy(s, owner)
    ensures OwnedBy(Step(s, tid, c), NextOwner(s, tid, c, owner))
  {
    var s' := Step(s, tid, c);
    var owner' := NextOwner(s, tid, c, owner);
    forall x: Ctx, h: Place
      ensures HeldAt(s', x, h) <==> x < |owner'| && h == owner'[x]
    {
      if tid >= |s.threads| {
        assert HeldAt(s, x, h) <==> x < |owner| && h == owner[x];
      } else if s.threads[tid].Storing? {
        StoreMoves(s, tid, c, owner, x, h);
      } else if s.threads[tid].Arrived? || s.threads[tid].Yielded? {
        TakeMoves(s, tid, c, owner, x, h);
      } else if s.threads[tid].Missed? || s.threads[tid].Releasing? {
        EndpointMoves(s, tid, c, owner, x, h);
      } else {
        PassingMoves(s, tid, c, owner, x, h);
      }
    }
  }

  // Steps that change no owner.
  lemma PassingMoves(s: State, tid: nat, c: Choice, owner: seq<Place>, x: Ctx, h: Place)
    requires PointersValid(s) && OwnedBy(s, owner)
    requires tid < |s.threads|
    requires var l := s.threads[tid];
             !l.Storing? && !l.Arrived? && !l.Yielded? && !l.Missed? && !l.Releasing?
    ensures HeldAt(Step(s, tid, c), x, h) <==> x < |owner| && h == owner[x]
  {
    assert HeldAt(s, x, h) <==> x < |owner| && h == owner[x];
    var s' := Step(s, tid, c);
    assert s'.heap == s.heap && s'.pending == s.pending && s'.released == s.released;
    assert Owns(s.heap, s'.threads[tid], x) == Owns(s.heap, s.threads[tid], x);
  }

  // LoadAndDelete and CompareAndDelete: the entry's context moves from the map to the goroutine.
  lemma TakeMoves(s: State, tid: nat, c: Choice, owner: seq<Place>, x: Ctx, h: Place)
    requires PointersValid(s) && OwnedBy(s, owner)
    requires tid < |s.threads| && (s.threads[tid].Arrived? || s.threads[tid].Yielded?)
    ensures var owner' := NextOwner(s, tid, c, owner);
            HeldAt(Step(s, tid, c), x, h) <==> x < |owner'| && h == owner'[x]
  {
    assert HeldAt(s, x, h) <==> x < |owner| && h == owner[x];
    var k := s.threads[tid].key;
    if k in s.pending {
      assert HeldAt(s, s.heap[s.pending[k]].sc, InMap(k));
    }
  }

  // A context is created by a handler and given up to the kernel by Release.
  lemma EndpointMoves(s: State, tid: nat, c: Choice, owner: seq<Place>, x: Ctx, h: Place)
    requires PointersValid(s) && OwnedBy(s, owner)
    requires tid < |s.threads| && (s.threads[tid].Missed? || s.threads[tid].Releasing?)
    ensures var owner' := NextOwner(s, tid, c, owner);
            HeldAt(Step(s, tid, c), x, h) <==> x < |owner'| && h == owner'[x]
  {
    assert HeldAt(s, x, h) <==> x < |owner| && h == owner[x];
    if s.threads[tid].Releasing? {
      assert HeldAt(s, s.threads[tid].sc, InThread(tid));
    }
  }

  // Swap: the stored context enters the map, a displaced one is left with the goroutine.
  lemma StoreMoves(s: State, tid: nat, c: Choice, owner: seq<Place>, x: Ctx, h: Place)
    requires PointersValid(s) && OwnedBy(s, owner)
    requires tid < |s.threads| && s.threads[tid].Storing?
    ensures var owner' := NextOwner(s, tid, c, owner);
            HeldAt(Step(s, tid, c), x, h) <==> x < |owner'| && h == owner'[x]
  {
    var k, sc := s.threads[tid].key, s.threads[tid].sc;
    var s' := Step(s, tid, c);
    assert HeldAt(s, x, h) <==> x < |owner| && h == owner[x];
    assert HeldAt(s, sc, InThread(tid));
    if k in s.pending {
      assert HeldAt(s, s.heap[s.pending[k]].sc, InMap(k));
    }
    match h
    case InMap(k') =>
    case InThread(t) =>
      if t < |s.threads| && t != tid {
        assert Owns(s'.heap, s'.threads[t], x) == Owns(s.heap, s.threads[t], x);
      }
    case Gone(i) =>
  }

  // --------------------------------------------------------------------- runs

  lemma StepKeepsInv(s: State, tid: nat, c: Choice)
    requires Inv(s)
    ensures Inv(Step(s, tid, c))
  {
    StepKeepsPointers(s, tid, c);
    StepKeepsCounters(s, tid, c);
    var owner :| OwnedBy(s, owner);
    StepKeepsOwnership(s, tid, c, owner);
  }

  ghost function Run(s: State, schedule: seq<Event>): (s': State)
    requires Inv(s)
    ensures Inv(s') && |s'.threads| == |s.threads|
    decreases |schedule|
  {
    if schedule == [] then s else
      StepKeepsInv(s, schedule[0].tid, schedule[0].choice);
      Run(Step(s, schedule[0].tid, schedule[0].choice), schedule[1..])
  }

  ghost function Reached(n: nat, schedule: seq<Event>): (s: State)
    ensures Inv(s)
  {
    InitInv(n);
    Run(Init(n), schedule)
  }

  /** Under every interleaving each context that was ever created has exactly one owner. */
  lemma ExactlyOneOwner(n: nat, schedule: seq<Event>, c: Ctx)
    requires c < Reached(n, schedule).contexts
    ensures exists h :: HeldAt(Reached(n, schedule), c, h)
    ensures forall h, h' :: HeldAt(Reached(n, schedule), c, h) && HeldAt(Reached(n, schedule), c, h') ==> h == h'
  {
    var s := Reached(n, schedule);
    var owner :| OwnedBy(s, owner);
    assert HeldAt(s, c, owner[c]);
  }

  /** No context is released twice, and none is released while the map or a goroutine still has it. */
  lemma ReleasedAtMostOnce(n: nat, schedule: seq<Event>)
    ensures var s := Reached(n, schedule);
            && (forall i, j :: 0 <= i < j < |s.released| ==> s.released[i] != s.released[j])
            && (forall i, k :: 0 <= i < |s.released| && k in s.pending ==> s.heap[s.pending[k]].sc != s.released[i])
            && (forall i, t :: 0 <= i < |s.released| && 0 <= t < |s.threads| ==>
                  !Owns(s.heap, s.threads[t], s.released[i]))
  {
    var s := Reached(n, schedule);
    var owner :| OwnedBy(s, owner);
    forall i | 0 <= i < |s.released|
      ensures s.released[i] < s.contexts && owner[s.released[i]] == Gone(i)
    {
      assert HeldAt(s, s.released[i], Gone(i));
    }
    forall i, k | 0 <= i < |s.released| && k in s.pending
      ensures s.heap[s.pending[k]].sc != s.released[i]
    {
      assert HeldAt(s, s.heap[s.pending[k]].sc, InMap(k));
    }
    forall i, t | 0 <= i < |s.released| && 0 <= t < |s.threads|
      ensures !Owns(s.heap, s.threads[t], s.released[i])
    {
      assert Owns(s.heap, s.threads[t], s.released[i]) ==> HeldAt(s, s.released[i], InThread(t));
    }
  }

  // An address that has left the map never comes back: every Swap stores a new one.
  lemma {:induction false} OnceOutStaysOut(s: State, schedule: seq<Event>, p: Ptr)
    requires Inv(s)
    requires p < |s.heap| && p !in s.pending.Values
    ensures p !in Run(s, schedule).pending.Values
    ensures |s.heap| <= |Run(s, schedule).heap|
    decreases |schedule|
  {
    if schedule != [] {
      var s1 := Step(s, schedule[0].tid, schedule[0].choice);
      StepKeepsInv(s, schedule[0].tid, schedule[0].choice);
      forall k | k in s1.pending
        ensures s1.pending[k] != p
      {
        assert k in s.pending ==> s.pending[k] in s.pending.Values;
      }
      OnceOutStaysOut(s1, schedule[1..], p);
    }
  }

  lemma {:induction false} OthersLeaveMine(s: State, schedule: seq<Event>, tid: nat)
    requires Inv(s) && tid < |s.threads|
    requires forall i | 0 <= i < |schedule| :: schedule[i].tid != tid
    ensures Run(s, schedule).threads[tid] == s.threads[tid]
    decreases |schedule|
  {
    if schedule != [] {
      StepKeepsInv(s, schedule[0].tid, schedule[0].choice);
      OthersLeaveMine(Step(s, schedule[0].tid, schedule[0].choice), schedule[1..], tid);
    }
  }

  /**
   A sweeper holding an entry that Range yielded and that has since left the map releases
   nothing and removes nothing, whatever was stored under the same key in the meantime.
   */
  lemma StaleEntryIsHarmless(s: State, schedule: seq<Event>, tid: nat, c: Choice)
    requires Inv(s) && tid < |s.threads|
    requires s.threads[tid].Yielded? && s.threads[tid].p !in s.pending.Values
    requires forall i | 0 <= i < |schedule| :: schedule[i].tid != tid
    ensures var before := Run(s, schedule);
            var after := Step(before, tid, c);
            && after.pending == before.pending
            && after.released == before.released
            && after.live == before.live && after.pendingCount == before.pendingCount
            && !after.threads[tid].Releasing?
  {
    OnceOutStaysOut(s, schedule, s.threads[tid].p);
    OthersLeaveMine(s, schedule, tid);
    var before := Run(s, schedule);
    var k := s.threads[tid].key;
    assert k in before.pending ==> before.pending[k] in before.pending.Values;
  }

  /** In every reachable state both counters are exact up to the additions still in flight. */
  lemma CountersUpToInFlight(n: nat, schedule: seq<Event>)
    ensures var s := Reached(n, schedule);
            && s.pendingCount == |s.pending| + Sum(Pending, s.threads)
            && s.live == s.contexts - |s.released| + Sum(Live, s.threads)
            && s.contexts - |s.released| == |s.pending| + Sum(Contexts, s.threads)
  {
    var s := Reached(n, schedule);
    assert Total(Pending, s) == Sum(Pending, s.threads);
    assert Total(Live, s) == Sum(Live, s.threads);
    assert Total(Contexts, s) == Sum(Contexts, s.threads);
  }

  predicate Quiescent(s: State) {
    forall t | 0 <= t < |s.threads| :: s.threads[t].Idle?
  }

  /** With no request and no sweep in progress both counters equal the size of the map. */
  lemma QuiescentCounters(s: State)
    requires Inv(s) && Quiescent(s)
    ensures s.live == s.pendingCount == |s.pending| == s.contexts - |s.released|
  {
    forall q: Tally
      ensures Total(q, s) == 0
    {
      SumOfIdle(q, s.threads);
    }
    assert Total(Pending, s) == Total(Live, s) == Total(Contexts, s) == 0;
  }

  // ----------------------------------------------------------------- shutdown

  predicate AboutToStore(s: State, tid: nat) {
    tid < |s.threads| && s.threads[tid].Storing?
  }

  // No handler stores a context in the course of the schedule.
  ghost predicate StoresNothing(s: State, schedule: seq<Event>)
    requires Inv(s)
    decreases |schedule|
  {
    schedule == [] ||
    (!AboutToStore(s, schedule[0].tid) &&
     (StepKeepsInv(s, schedule[0].tid, schedule[0].choice);
      StoresNothing(Step(s, schedule[0].tid, schedule[0].choice), schedule[1..])))
  }

  // A step that does not store only takes entries out of the map.
  lemma PendingShrinks(s: State, tid: nat, c: Choice)
    requires PointersValid(s) && !AboutToStore(s, tid)
    ensures forall k :: k in Step(s, tid, c).pending ==> k in s.pending && Step(s, tid, c).pending[k] == s.pending[k]
  {
  }

  // Every entry left is one that the shutdown sweep of `tid` has still to visit; the one Range
  // has yielded may have been taken by a handler.
  predicate Draining(s: State, tid: nat) {
    s.pending == map[] ||
    (tid < |s.threads| &&
     match s.threads[tid]
     case Sweeping(pass, todo) => pass.Shutdown? && s.pending.Keys <= todo
     case Yielded(pass, todo, k, p) =>
       pass.Shutdown? && s.pending.Keys <= todo + {k} && (k in s.pending ==> s.pending[k] == p)
     case Releasing(_, after) => after.Resume? && after.pass.Shutdown? && s.pending.Keys <= after.todo
     case Released(after) => after.Resume? && after.pass.Shutdown? && s.pending.Keys <= after.todo
     case Uncounting(pass, todo) => pass.Shutdown? && s.pending.Keys <= todo
     case _ => false)
  }

  lemma SweeperKeepsDraining(s: State, tid: nat, c: Choice)
    requires PointersValid(s) && Draining(s, tid) && !AboutToStore(s, tid)
    ensures Draining(Step(s, tid, c), tid)
  {
    PendingShrinks(s, tid, c);
    var s' := Step(s, tid, c);
    if s.pending == map[] {
      assert s'.pending == map[];
    }
  }

  lemma OthersKeepDraining(s: State, tid: nat, other: nat, c: Choice)
    requires PointersValid(s) && Draining(s, tid) && other != tid && !AboutToStore(s, other)
    ensures Draining(Step(s, other, c), tid)
  {
    PendingShrinks(s, other, c);
    var s' := Step(s, other, c);
    if s.pending == map[] {
      assert s'.pending == map[];
    } else {
      assert s'.threads[tid] == s.threads[tid];
      assert s'.pending.Keys <= s.pending.Keys;
    }
  }

  lemma {:induction false} RunKeepsDraining(s: State, schedule: seq<Event>, tid: nat)
    requires Inv(s) && StoresNothing(s, schedule) && Draining(s, tid)
    ensures Draining(Run(s, schedule), tid)
    decreases |schedule|
  {
    if schedule != [] {
      var e := schedule[0];
      StepKeepsInv(s, e.tid, e.choice);
      if e.tid == tid {
        SweeperKeepsDraining(s, tid, e.choice);
      } else {
        OthersKeepDraining(s, tid, e.tid, e.choice);
      }
      RunKeepsDraining(Step(s, e.tid, e.choice), schedule[1..], tid);
    }
  }

  /**
   A shutdown sweep that enters Range while handlers and the reaper are anywhere in their
   work: if none of them stores a context any more, then once all have come to rest the map is
   empty, both counters are zero and every context has been released, whoever took it.
   */
  lemma ShutdownDrains(s: State, schedule: seq<Event>, tid: nat)
    requires Inv(s) && tid < |s.threads| && s.threads[tid] == Sweeping(Shutdown, s.pending.Keys)
    requires StoresNothing(s, schedule) && Quiescent(Run(s, schedule))
    ensures var s' := Run(s, schedule);
            s'.pending == map[] && s'.live == 0 && s'.pendingCount == 0 && |s'.released| == s'.contexts
  {
    RunKeepsDraining(s, schedule, tid);
    QuiescentCounters(Run(s, schedule));
  }

  // -------------------------------------------------------- server credentials

  /** The lazily acquired server credential that every context shares. */
  class SharedServerCred {
    var cred: Option<nat>   // handle in use
    var acquired: nat       // successful acquisitions so far; handles are numbered by it
    var returned: nat       // handles given back

    // At most one handle is out, and it is the latest one.
    predicate Valid()
      reads this
    {
      && acquired == returned + (if cred.Some? then 1 else 0)
      && (cred.Some? ==> cred.value + 1 == acquired)
    }

    constructor ()
      ensures Valid() && cred == None && acquired == 0
    {
      cred, acquired, returned := None, 0, 0;
    }

    // `ok` is what the operating system answers, if it is asked.
    method Get(ok: bool) returns (r: Option<nat>)
      requires Valid()
      modifies this
      ensures Valid() && returned == old(returned)
      ensures r == cred
      ensures old(cred).Some? ==> cred == old(cred) && acquired == old(acquired)
      ensures old(cred).None? ==> cred.Some? == ok && acquired == old(acquired) + (if ok then 1 else 0)
    {
      if cred.Some? {
        return cred;
      }
      if !ok {
        return None;
      }
      cred := Some(acquired);
      acquired := acquired + 1;
      r := cred;
    }

    method Release()
      requires Valid()
      modifies this
      ensures Valid() && cred == None
      ensures acquired == old(acquired) && returned == acquired
    {
      if cred.Some? {
        returned := returned + 1;
        cred := None;
      }
    }
  }
}
