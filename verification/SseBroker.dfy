/**
 The server-sent-event broker: subscribers come and go under a lock while Broadcast
 snapshots them, sends outside the lock and evicts the slow ones afterwards.

 Payloads are identified by the number of the Broadcast call that carries them, and
 subscribers by the number in their "sub-N" name (counted from zero).
 */
module SseBroker {
  import opened Wrappers

  const MAX_SUBSCRIBERS := 100
  const BUFFER_SIZE := 16

  // `joined` is the number of broadcasts snapshotted before the subscriber was registered.
  datatype Subscriber = Subscriber(buffer: seq<nat>, read: seq<nat>, done: bool, joined: nat) {
    // Everything the subscriber has been given, in order.
    function Got(): seq<nat> { read + buffer }
  }

  // The shared state: every subscriber ever created, those in the map, broadcasts begun.
  datatype Hub = Hub(subs: seq<Subscriber>, registered: set<nat>, sent: nat) {
    predicate Valid() {
      && |registered| <= MAX_SUBSCRIBERS
      && (forall id | id in registered :: id < |subs|)
      && (forall id | 0 <= id < |subs| :: subs[id].done <==> id !in registered)
      && (forall id | 0 <= id < |subs| :: subs[id].joined <= sent && |subs[id].buffer| <= BUFFER_SIZE)
    }
  }

  // ------------------------------------------------------------- atomic sections

  function AddSubscriber(h: Hub): Hub {
    if |h.registered| >= MAX_SUBSCRIBERS then h else
      h.(subs := h.subs + [Subscriber([], [], false, h.sent)], registered := h.registered + {|h.subs|})
  }

  // The locked section of Unsubscribe; eviction treats each slow subscriber the same way.
  function Remove(h: Hub, id: nat): Hub {
    if id in h.registered && id < |h.subs|
    then h.(subs := h.subs[id := h.subs[id].(done := true)], registered := h.registered - {id})
    else h
  }

  function RemoveAll(h: Hub, ids: seq<nat>): Hub
    decreases |ids|
  {
    if ids == [] then h else RemoveAll(Remove(h, ids[0]), ids[1..])
  }

  predicate HasRoom(h: Hub, id: nat) {
    id < |h.subs| && |h.subs[id].buffer| < BUFFER_SIZE
  }

  // A non-blocking channel send.
  function Send(h: Hub, id: nat, n: nat): Hub {
    if HasRoom(h, id)
    then h.(subs := h.subs[id := h.subs[id].(buffer := h.subs[id].buffer + [n])])
    else h
  }

  function Receive(h: Hub, id: nat): Hub {
    if id < |h.subs| && h.subs[id].buffer != [] then
      var sub := h.subs[id];
      h.(subs := h.subs[id := sub.(buffer := sub.buffer[1..], read := sub.read + [sub.buffer[0]])])
    else h
  }

  // -------------------------------------------------------------- state machine

  // One Broadcast call: snapshot taken and sends under way, or about to evict, or none.
  datatype Cast =
    | Quiet
    | Sending(n: nat, rest: seq<nat>, slow: seq<nat>)
    | Evicting(n: nat, slow: seq<nat>)

  datatype State = State(hub: Hub, casts: seq<Cast>)

  // `order` is the order in which the snapshot enumerates the map.
  datatype Event =
    | Join
    | Leave(id: nat)
    | Read(id: nat)
    | Move(tid: nat, order: seq<nat>)

  ghost predicate Lists(order: seq<nat>, ids: set<nat>) {
    && (forall i, j | 0 <= i < j < |order| :: order[i] != order[j])
    && (forall id :: id in order <==> id in ids)
  }

  function Init(n: nat): State {
    State(Hub([], {}, 0), seq(n, i => Quiet))
  }

  ghost function MoveCast(s: State, tid: nat, order: seq<nat>): State
    requires tid < |s.casts|
  {
    match s.casts[tid]
    case Quiet =>
      if Lists(order, s.hub.registered)
      then State(s.hub.(sent := s.hub.sent + 1), s.casts[tid := Sending(s.hub.sent, order, [])])
      else s
    case Sending(n, rest, slow) =>
      if rest == [] then
        s.(casts := s.casts[tid := if slow == [] then Quiet else Evicting(n, slow)])
      else
        var slow' := if HasRoom(s.hub, rest[0]) then slow else slow + [rest[0]];
        State(Send(s.hub, rest[0], n), s.casts[tid := Sending(n, rest[1..], slow')])
    case Evicting(n, slow) =>
      State(RemoveAll(s.hub, slow), s.casts[tid := Quiet])
  }

  ghost function Step(s: State, e: Event): (s': State)
    ensures |s'.casts| == |s.casts|
  {
    match e
    case Join => s.(hub := AddSubscriber(s.hub))
    case Leave(id) => s.(hub := Remove(s.hub, id))
    case Read(id) => s.(hub := Receive(s.hub, id))
    case Move(tid, order) => if tid < |s.casts| then MoveCast(s, tid, order) else s
  }

  ghost function Run(s: State, schedule: seq<Event>): (s': State)
    ensures |s'.casts| == |s.casts|
    decreases |schedule|
  {
    if schedule == [] then s else Run(Step(s, schedule[0]), schedule[1..])
  }

  // ------------------------------------------------- what one section does to the hub

  // Subscribers keep what they got, and one that is gone stays gone with its done channel closed.
  ghost predicate Extends(h: Hub, h': Hub) {
    && |h.subs| <= |h'.subs| && h.sent <= h'.sent
    && (forall id | 0 <= id < |h.subs| ::
          && h.subs[id].Got() <= h'.subs[id].Got() && h'.subs[id].joined == h.subs[id].joined
          && (id !in h.registered && h.subs[id].done ==> id !in h'.registered && h'.subs[id].done))
  }

  lemma SubscribeExtends(h: Hub)
    requires h.Valid()
    ensures AddSubscriber(h).Valid() && Extends(h, AddSubscriber(h))
  {
  }

  lemma RemoveExtends(h: Hub, id: nat)
    requires h.Valid()
    ensures Remove(h, id).Valid() && Extends(h, Remove(h, id))
  {
  }

  lemma SendExtends(h: Hub, id: nat, n: nat)
    requires h.Valid()
    ensures Send(h, id, n).Valid() && Extends(h, Send(h, id, n))
    ensures HasRoom(h, id) ==> n in Send(h, id, n).subs[id].Got()
  {
    if HasRoom(h, id) {
      assert Send(h, id, n).subs[id].Got() == h.subs[id].Got() + [n];
    }
  }

  lemma ReceiveExtends(h: Hub, id: nat)
    requires h.Valid()
    ensures Receive(h, id).Valid() && Extends(h, Receive(h, id))
    ensures id < |h.subs| ==> Receive(h, id).subs[id].Got() == h.subs[id].Got()
  {
    if id < |h.subs| && h.subs[id].buffer != [] {
      assert Receive(h, id).subs[id].Got() == h.subs[id].Got();
    }
  }

  lemma {:induction false} RemoveAllEffect(h: Hub, ids: seq<nat>)
    requires h.Valid()
    ensures var h' := RemoveAll(h, ids);
            && h'.Valid() && h'.sent == h.sent && |h'.subs| == |h.subs|
            && (forall id :: id in h'.registered <==> id in h.registered && id !in ids)
            && (forall id | 0 <= id < |h.subs| ::
                  h'.subs[id] == if id in h.registered && id in ids then h.subs[id].(done := true) else h.subs[id])
    decreases |ids|
  {
    if ids != [] {
      var h1 := Remove(h, ids[0]);
      RemoveExtends(h, ids[0]);
      RemoveAllEffect(h1, ids[1..]);
      assert forall id: nat :: id in ids <==> id == ids[0] || id in ids[1..];
      assert forall id :: id in h1.registered <==> id in h.registered && id != ids[0];
      assert forall id | 0 <= id < |h.subs| ::
        h1.subs[id] == if id in h.registered && id == ids[0] then h.subs[id].(done := true) else h.subs[id];
    }
  }

  lemma StepExtends(s: State, e: Event)
    requires s.hub.Valid()
    ensures Step(s, e).hub.Valid() && Extends(s.hub, Step(s, e).hub)
    ensures |Step(s, e).hub.subs| != |s.hub.subs| ==> e.Join?
    ensures Step(s, e).hub.sent != s.hub.sent ==>
              && e.Move? && e.tid < |s.casts| && Lists(e.order, s.hub.registered)
              && Step(s, e) == State(s.hub.(sent := s.hub.sent + 1), s.casts[e.tid := Sending(s.hub.sent, e.order, [])])
  {
    match e
    case Join => SubscribeExtends(s.hub);
    case Leave(id) => RemoveExtends(s.hub, id);
    case Read(id) => ReceiveExtends(s.hub, id);
    case Move(tid, order) =>
      if tid < |s.casts| {
        match s.casts[tid]
        case Quiet =>
        case Sending(n, rest, slow) => if rest != [] { SendExtends(s.hub, rest[0], n); }
        case Evicting(n, slow) => RemoveAllEffect(s.hub, slow);
      }
  }

  // ------------------------------------------- every interleaving: nothing is lost

  // Broadcast n has reached subscriber id, or id is gone with its done channel closed.
  predicate Settled(h: Hub, id: nat, n: nat)
    requires id < |h.subs|
  {
    n in h.subs[id].Got() || (id !in h.registered && h.subs[id].done)
  }

  // Broadcast n is still under way and has id left to send to or to evict.
  predicate Owed(c: Cast, id: nat, n: nat) {
    match c
    case Quiet => false
    case Sending(n', rest, slow) => n' == n && (id in rest || id in slow)
    case Evicting(n', slow) => n' == n && id in slow
  }

  ghost predicate OwedBySome(casts: seq<Cast>, id: nat, n: nat) {
    exists t :: 0 <= t < |casts| && Owed(casts[t], id, n)
  }

  ghost predicate Accounted(s: State, id: nat, n: nat)
    requires id < |s.hub.subs|
  {
    s.hub.subs[id].joined <= n < s.hub.sent ==> Settled(s.hub, id, n) || OwedBySome(s.casts, id, n)
  }

  ghost predicate Inv(s: State) {
    && s.hub.Valid()
    && (forall t | 0 <= t < |s.casts| && !s.casts[t].Quiet? :: s.casts[t].n < s.hub.sent)
    && (forall id: nat, n: nat | id < |s.hub.subs| :: Accounted(s, id, n))
  }

  lemma StepKeepsInv(s: State, e: Event)
    requires Inv(s)
    ensures Inv(Step(s, e))
  {
    StepExtends(s, e);
    var s' := Step(s, e);
    assert forall t | 0 <= t < |s'.casts| && !s'.casts[t].Quiet? :: s'.casts[t].n < s'.hub.sent;
    forall id: nat, n: nat | id < |s'.hub.subs|
      ensures Accounted(s', id, n)
    {
      if s'.hub.subs[id].joined <= n < s'.hub.sent {
        StaysAccounted(s, e, id, n);
      }
    }
  }

  lemma StaysAccounted(s: State, e: Event, id: nat, n: nat)
    requires Inv(s)
    requires var h' := Step(s, e).hub; id < |h'.subs| && h'.subs[id].joined <= n < h'.sent
    ensures Accounted(Step(s, e), id, n)
  {
    StepExtends(s, e);
    var s' := Step(s, e);
    if id < |s.hub.subs| && n < s.hub.sent {
      assert Accounted(s, id, n);
      if !Settled(s.hub, id, n) {
        var t :| 0 <= t < |s.casts| && Owed(s.casts[t], id, n);
        if e.Move? && e.tid == t {
          CastPaysItsDebt(s, e, id, n);
        } else {
          assert Owed(s'.casts[t], id, n);
        }
      }
    } else if id < |s.hub.subs| {
      assert s'.casts[e.tid] == Sending(n, e.order, []);
      if id in s.hub.registered {
        assert Owed(s'.casts[e.tid], id, n);
      } else {
        assert Settled(s'.hub, id, n);
      }
    }
  }

  // The call that owes id a delivery makes it, keeps owing it, or evicts id.
  lemma CastPaysItsDebt(s: State, e: Event, id: nat, n: nat)
    requires Inv(s) && id < |s.hub.subs|
    requires e.Move? && e.tid < |s.casts| && Owed(s.casts[e.tid], id, n)
    ensures id < |Step(s, e).hub.subs|
    ensures Settled(Step(s, e).hub, id, n) || Owed(Step(s, e).casts[e.tid], id, n)
  {
    match s.casts[e.tid]
    case Quiet =>
    case Sending(_, rest, slow) =>
      if rest != [] {
        SendExtends(s.hub, rest[0], n);
        assert id in rest ==> id == rest[0] || id in rest[1..];
      }
    case Evicting(_, slow) => RemoveAllEffect(s.hub, slow);
  }

  lemma {:induction false} RunKeepsInv(s: State, schedule: seq<Event>)
    requires Inv(s)
    ensures Inv(Run(s, schedule)) && Extends(s.hub, Run(s, schedule).hub)
    decreases |schedule|
  {
    if schedule != [] {
      StepKeepsInv(s, schedule[0]);
      StepExtends(s, schedule[0]);
      RunKeepsInv(Step(s, schedule[0]), schedule[1..]);
    }
  }

  /**
   Under every interleaving, once Broadcast n has returned, a subscriber that was there
   before it has got it or is out of the map with its done channel closed.
   */
  lemma MissedMeansEvicted(callers: nat, schedule: seq<Event>, id: nat, n: nat)
    requires var s := Run(Init(callers), schedule);
             && id < |s.hub.subs| && s.hub.subs[id].joined <= n < s.hub.sent
             && (forall t | 0 <= t < |s.casts| :: s.casts[t].Quiet? || s.casts[t].n != n)
    ensures Settled(Run(Init(callers), schedule).hub, id, n)
  {
    RunKeepsInv(Init(callers), schedule);
    var s := Run(Init(callers), schedule);
    assert Accounted(s, id, n);
  }

  /** At most a hundred subscribers are registered, and an identifier is never used again. */
  lemma CapAndFreshIds(callers: nat, schedule: seq<Event>, more: seq<Event>)
    ensures var s, s' := Run(Init(callers), schedule), Run(Run(Init(callers), schedule), more);
            && |s.hub.registered| <= 100
            && (forall id | 0 <= id < |s.hub.subs| && id !in s.hub.registered :: id !in s'.hub.registered)
            && (forall id | 0 <= id < |s.hub.subs| ::
                  id < |s'.hub.subs| && s.hub.subs[id].Got() <= s'.hub.subs[id].Got())
  {
    RunKeepsInv(Init(callers), schedule);
    RunKeepsInv(Run(Init(callers), schedule), more);
  }

  // ------------------------------------ broadcasts one at a time: gap-free segments

  // The numbers from..upto-1 in order.
  function Range(from: nat, upto: nat): seq<nat>
    requires from <= upto
  {
    seq(upto - from, i requires 0 <= i < upto - from => from + i)
  }

  // The number of the first broadcast the subscriber has not got, if it missed none before.
  function End(sub: Subscriber): nat {
    sub.joined + |sub.Got()|
  }

  predicate Segment(sub: Subscriber) {
    sub.Got() == Range(sub.joined, End(sub))
  }

  // One subscriber, with the single Broadcast call in state c.
  predicate Contiguous(h: Hub, c: Cast, id: nat)
    requires id < |h.subs|
  {
    && Segment(h.subs[id])
    && End(h.subs[id]) <= h.sent
    && (c.Sending? && id in c.rest ==> End(h.subs[id]) == c.n && id !in c.slow)
    && (id in h.registered ==>
          End(h.subs[id]) == if (c.Sending? && id in c.rest) || (!c.Quiet? && id in c.slow) then c.n else h.sent)
  }

  predicate CastValid(h: Hub, c: Cast) {
    && (!c.Quiet? ==> c.n + 1 == h.sent && forall id | id in c.slow :: id < |h.subs|)
    && (c.Sending? ==>
          && (forall i, j | 0 <= i < j < |c.rest| :: c.rest[i] != c.rest[j])
          && (forall id | id in c.rest :: id < |h.subs|))
  }

  predicate OneAtATime(s: State) {
    && s.hub.Valid()
    && |s.casts| == 1
    && CastValid(s.hub, s.casts[0])
    && (forall id: nat | id < |s.hub.subs| :: Contiguous(s.hub, s.casts[0], id))
  }

  lemma AppendSegment(sub: Subscriber, n: nat)
    requires Segment(sub) && End(sub) == n
    ensures Segment(sub.(buffer := sub.buffer + [n]))
    ensures End(sub.(buffer := sub.buffer + [n])) == n + 1
  {
    assert sub.(buffer := sub.buffer + [n]).Got() == sub.Got() + [n];
  }

  lemma StepKeepsCastValid(s: State, e: Event)
    requires OneAtATime(s)
    ensures CastValid(Step(s, e).hub, Step(s, e).casts[0])
  {
    StepExtends(s, e);
    if e.Move? && e.tid == 0 {
      match s.casts[0]
      case Quiet => assert forall id | id in e.order && Lists(e.order, s.hub.registered) :: id in s.hub.registered;
      case Sending(n, rest, slow) => assert rest != [] ==> rest[0] in rest && forall id | id in rest[1..] :: id in rest;
      case Evicting(n, slow) => RemoveAllEffect(s.hub, slow);
    }
  }

  predicate Before(h: Hub, c: Cast, id: nat) {
    h.Valid() && CastValid(h, c) && (id < |h.subs| ==> Contiguous(h, c, id))
  }

  lemma JoinKeeps(h: Hub, c: Cast, id: nat)
    requires Before(h, c, id) && id < |AddSubscriber(h).subs|
    ensures Contiguous(AddSubscriber(h), c, id)
  {
  }

  lemma LeaveKeeps(h: Hub, c: Cast, x: nat, id: nat)
    requires Before(h, c, id) && id < |h.subs|
    ensures Contiguous(Remove(h, x), c, id)
  {
  }

  lemma ReadKeeps(h: Hub, c: Cast, x: nat, id: nat)
    requires Before(h, c, id) && id < |h.subs|
    ensures id < |Receive(h, x).subs| && Contiguous(Receive(h, x), c, id)
  {
    ReceiveExtends(h, x);
  }

  lemma SendKeeps(h: Hub, c: Cast, id: nat)
    requires Before(h, c, id) && id < |h.subs|
    requires c.Sending? && c.rest != []
    ensures var slow' := if HasRoom(h, c.rest[0]) then c.slow else c.slow + [c.rest[0]];
            var h' := Send(h, c.rest[0], c.n);
            id < |h'.subs| && Contiguous(h', Sending(c.n, c.rest[1..], slow'), id)
  {
    assert id in c.rest <==> id == c.rest[0] || id in c.rest[1..];
    if id == c.rest[0] {
      assert id !in c.rest[1..];
      AppendSegment(h.subs[id], c.n);
    }
  }

  lemma EvictKeeps(h: Hub, c: Cast, id: nat)
    requires Before(h, c, id) && id < |h.subs| && c.Evicting?
    ensures var h' := RemoveAll(h, c.slow); id < |h'.subs| && Contiguous(h', Quiet, id)
  {
    RemoveAllEffect(h, c.slow);
  }

  lemma SnapshotKeeps(h: Hub, order: seq<nat>, id: nat)
    requires Before(h, Quiet, id) && id < |h.subs| && Lists(order, h.registered)
    ensures Contiguous(h.(sent := h.sent + 1), Sending(h.sent, order, []), id)
  {
  }

  lemma StepKeepsContiguous(s: State, e: Event, id: nat)
    requires |s.casts| == 1 && Before(s.hub, s.casts[0], id)
    requires id < |Step(s, e).hub.subs|
    ensures Contiguous(Step(s, e).hub, Step(s, e).casts[0], id)
  {
    var h, c := s.hub, s.casts[0];
    if e.Join? {
      JoinKeeps(h, c, id);
    } else {
      StepExtends(s, e);
      match e
      case Leave(x) => LeaveKeeps(h, c, x, id);
      case Read(x) => ReadKeeps(h, c, x, id);
      case Move(tid, order) =>
        if tid == 0 {
          match c
          case Quiet => if Lists(order, h.registered) { SnapshotKeeps(h, order, id); }
          case Sending(n, rest, slow) => if rest != [] { SendKeeps(h, c, id); }
          case Evicting(n, slow) => EvictKeeps(h, c, id);
        }
    }
  }

  lemma {:induction false} RunKeepsOneAtATime(s: State, schedule: seq<Event>)
    requires OneAtATime(s)
    ensures OneAtATime(Run(s, schedule))
    decreases |schedule|
  {
    if schedule != [] {
      StepExtends(s, schedule[0]);
      StepKeepsCastValid(s, schedule[0]);
      forall id: nat | id < |Step(s, schedule[0]).hub.subs|
        ensures Contiguous(Step(s, schedule[0]).hub, Step(s, schedule[0]).casts[0], id)
      {
        if id < |s.hub.subs| {
          assert Contiguous(s.hub, s.casts[0], id);
        }
        StepKeepsContiguous(s, schedule[0], id);
      }
      RunKeepsOneAtATime(Step(s, schedule[0]), schedule[1..]);
    }
  }

  /**
   When Broadcast calls do not overlap, whatever Subscribe, Unsubscribe and the readers do,
   a subscriber has read and buffered a gap-free segment of the broadcasts that starts
   where it joined; between broadcasts a registered subscriber has missed none.
   */
  lemma GapFree(schedule: seq<Event>, id: nat)
    requires id < |Run(Init(1), schedule).hub.subs|
    ensures var s := Run(Init(1), schedule);
            var sub := s.hub.subs[id];
            && sub.read + sub.buffer == Range(sub.joined, End(sub)) && End(sub) <= s.hub.sent
            && (s.casts[0].Quiet? && id in s.hub.registered ==> End(sub) == s.hub.sent)
  {
    RunKeepsOneAtATime(Init(1), schedule);
    var s := Run(Init(1), schedule);
    assert Contiguous(s.hub, s.casts[0], id);
  }

  lemma {:induction false} RunConcat(s: State, a: seq<Event>, b: seq<Event>)
    ensures Run(s, a + b) == Run(Run(s, a), b)
    decreases |a|
  {
    if a == [] {
      assert a + b == b;
    } else {
      assert (a + b)[1..] == a[1..] + b;
      RunConcat(Step(s, a[0]), a[1..], b);
    }
  }

  // ------------------------------------------------------- one Broadcast, undisturbed

  function SendAll(h: Hub, n: nat, ids: seq<nat>): Hub
    decreases |ids|
  {
    if ids == [] then h else SendAll(Send(h, ids[0], n), n, ids[1..])
  }

  function Slow(h: Hub, n: nat, ids: seq<nat>): seq<nat>
    decreases |ids|
  {
    if ids == [] then [] else
      (if HasRoom(h, ids[0]) then [] else [ids[0]]) + Slow(Send(h, ids[0], n), n, ids[1..])
  }

  // What a Broadcast promises: room means delivery, no room means eviction.
  function Delivered(h: Hub): Hub {
    Hub(seq(|h.subs|, id requires 0 <= id < |h.subs| =>
          var sub := h.subs[id];
          if id !in h.registered then sub
          else if HasRoom(h, id) then sub.(buffer := sub.buffer + [h.sent])
          else sub.(done := true)),
        (set id | id in h.registered && HasRoom(h, id)),
        h.sent + 1)
  }

  lemma {:induction false} SendAllEffect(h: Hub, n: nat, ids: seq<nat>)
    requires h.Valid()
    requires forall i, j | 0 <= i < j < |ids| :: ids[i] != ids[j]
    ensures var h' := SendAll(h, n, ids);
            && h'.Valid() && |h'.subs| == |h.subs| && h'.registered == h.registered && h'.sent == h.sent
            && (forall id: nat | id < |h.subs| ::
                  h'.subs[id] == if id in ids && HasRoom(h, id)
                                 then h.subs[id].(buffer := h.subs[id].buffer + [n]) else h.subs[id])
    ensures forall id :: id in Slow(h, n, ids) <==> id in ids && !HasRoom(h, id)
    decreases |ids|
  {
    if ids != [] {
      var h1 := Send(h, ids[0], n);
      SendExtends(h, ids[0], n);
      SendAllEffect(h1, n, ids[1..]);
      assert ids[0] !in ids[1..];
      assert forall id: nat :: id in ids <==> id == ids[0] || id in ids[1..];
      assert forall id: nat | id != ids[0] :: HasRoom(h1, id) == HasRoom(h, id);
    }
  }

  lemma PartsMakeDelivery(h: Hub, order: seq<nat>)
    requires h.Valid() && Lists(order, h.registered)
    ensures var h0 := h.(sent := h.sent + 1);
            RemoveAll(SendAll(h0, h.sent, order), Slow(h0, h.sent, order)) == Delivered(h)
    ensures SendAll(h.(sent := h.sent + 1), h.sent, order).Valid() && Delivered(h).Valid()
  {
    var h0 := h.(sent := h.sent + 1);
    SendAllEffect(h0, h.sent, order);
    RemoveAllEffect(SendAll(h0, h.sent, order), Slow(h0, h.sent, order));
    var h' := RemoveAll(SendAll(h0, h.sent, order), Slow(h0, h.sent, order));
    assert h'.subs == Delivered(h).subs;
    assert h'.registered == Delivered(h).registered;
  }

  // A reader with sixteen payloads unread is evicted by the next broadcast, any other gets it; and
  // the hundredth subscriber is let in, the next one is not.
  lemma BufferAndCapExactly(h: Hub, id: nat)
    requires h.Valid() && id in h.registered
    ensures id < |h.subs| && id < |Delivered(h).subs|
    ensures var before, after := h.subs[id], Delivered(h).subs[id];
      if |before.buffer| < 16
      then id in Delivered(h).registered && after == before.(buffer := before.buffer + [h.sent])
      else id !in Delivered(h).registered && after == before.(done := true)
    ensures |AddSubscriber(h).subs| == |h.subs| + 1 <==> |h.registered| < 100
    ensures |h.registered| < 100 ==>
      var sub := AddSubscriber(h).subs[|h.subs|];
      |h.subs| in AddSubscriber(h).registered && sub == Subscriber([], [], false, h.sent)
  {
  }

  // Only the Broadcast call of goroutine tid moves.
  predicate MovedBy(schedule: seq<Event>, tid: nat) {
    forall i | 0 <= i < |schedule| :: schedule[i].Move? && schedule[i].tid == tid
  }

  lemma SendOne(s: State, tid: nat)
    requires tid < |s.casts| && s.casts[tid].Sending? && s.casts[tid].rest != []
    ensures var Sending(n, rest, slow) := s.casts[tid];
      var slow' := slow + (if HasRoom(s.hub, rest[0]) then [] else [rest[0]]);
      Step(s, Move(tid, [])) == State(Send(s.hub, rest[0], n), s.casts[tid := Sending(n, rest[1..], slow')])
  {
    assert s.casts[tid].slow + [] == s.casts[tid].slow;
  }

  lemma SlowFirst(h: Hub, n: nat, ids: seq<nat>, slow: seq<nat>)
    requires ids != []
    ensures slow + Slow(h, n, ids) ==
      (slow + (if HasRoom(h, ids[0]) then [] else [ids[0]])) + Slow(Send(h, ids[0], n), n, ids[1..])
  {
  }

  lemma SendNext(h: Hub, n: nat, ids: seq<nat>, i: nat, slow: seq<nat>)
    requires i < |ids|
    ensures SendAll(h, n, ids[i..]) == SendAll(Send(h, ids[i], n), n, ids[i + 1..])
    ensures slow + Slow(h, n, ids[i..]) ==
      (if HasRoom(h, ids[i]) then slow else slow + [ids[i]]) + Slow(Send(h, ids[i], n), n, ids[i + 1..])
  {
    assert ids[i..][0] == ids[i] && ids[i..][1..] == ids[i + 1..];
    SlowFirst(h, n, ids[i..], slow);
    assert slow + [] == slow;
  }

  lemma {:induction false} SendPhase(s: State, tid: nat) returns (schedule: seq<Event>)
    requires tid < |s.casts| && s.casts[tid].Sending?
    ensures MovedBy(schedule, tid)
    ensures var Sending(n, rest, slow) := s.casts[tid];
            && Run(s, schedule).hub == SendAll(s.hub, n, rest)
            && Run(s, schedule).casts == s.casts[tid := Sending(n, [], slow + Slow(s.hub, n, rest))]
    decreases |s.casts[tid].rest|
  {
    var Sending(n, rest, slow) := s.casts[tid];
    var allSlow := slow + Slow(s.hub, n, rest);
    if rest == [] {
      schedule := [];
      assert allSlow == slow;
    } else {
      var s1 := Step(s, Move(tid, []));
      SendOne(s, tid);
      SlowFirst(s.hub, n, rest, slow);
      var later := SendPhase(s1, tid);
      schedule := [Move(tid, [])] + later;
      assert schedule[0] == Move(tid, []) && schedule[1..] == later;
      assert s1.casts[tid := Sending(n, [], allSlow)] == s.casts[tid := Sending(n, [], allSlow)];
    }
  }

  // The end of a call: straight away, or by way of eviction.
  lemma FinishPhase(s: State, tid: nat) returns (schedule: seq<Event>)
    requires tid < |s.casts| && s.casts[tid].Sending? && s.casts[tid].rest == []
    ensures MovedBy(schedule, tid)
    ensures Run(s, schedule) == State(RemoveAll(s.hub, s.casts[tid].slow), s.casts[tid := Quiet])
  {
    var e := Move(tid, []);
    if s.casts[tid].slow == [] {
      schedule := [e];
      assert Run(s, [e]) == Run(Step(s, e), []);
    } else {
      schedule := [e, e];
      assert schedule[1..] == [e];
      var s1 := Step(s, e);
      assert Run(s1, [e]) == Run(Step(s1, e), []);
      assert Step(s1, e).casts == s.casts[tid := Quiet];
    }
  }

  lemma AfterSnapshot(s: State, tid: nat) returns (schedule: seq<Event>)
    requires tid < |s.casts| && s.casts[tid].Sending? && s.casts[tid].slow == []
    ensures MovedBy(schedule, tid)
    ensures var Sending(n, rest, _) := s.casts[tid];
            && Run(s, schedule).hub == RemoveAll(SendAll(s.hub, n, rest), Slow(s.hub, n, rest))
            && Run(s, schedule).casts == s.casts[tid := Quiet]
  {
    var sends := SendPhase(s, tid);
    var s2 := Run(s, sends);
    var finish := FinishPhase(s2, tid);
    schedule := sends + finish;
    RunConcat(s, sends, finish);
    var slow := Slow(s.hub, s.casts[tid].n, s.casts[tid].rest);
    assert [] + slow == slow;
    assert s2.casts[tid := Quiet] == s.casts[tid := Quiet];
  }

  /** A Broadcast whose steps nobody interleaves delivers exactly as promised. */
  lemma UndisturbedBroadcast(s: State, tid: nat, order: seq<nat>) returns (schedule: seq<Event>)
    requires s.hub.Valid() && tid < |s.casts| && s.casts[tid].Quiet? && Lists(order, s.hub.registered)
    ensures MovedBy(schedule, tid)
    ensures Run(s, schedule) == State(Delivered(s.hub), s.casts)
  {
    var s1 := Step(s, Move(tid, order));
    var rest := AfterSnapshot(s1, tid);
    schedule := [Move(tid, order)] + rest;
    assert schedule[1..] == rest;
    assert s1.casts[tid := Quiet] == s.casts;
    PartsMakeDelivery(s.hub, order);
  }

  // ------------------------------------------------------------------ the broker

  // The detector fields that make a status event worth sending.
  datatype DetectorStatus = DetectorStatus(
    state: string, enabledChannels: int, matureChannels: int, warmupStartedAt: int, errorReason: string)

  class Broker {
    var subs: seq<Subscriber>
    var subscribers: set<nat>
    var sent: nat
    var detectorState: map<string, DetectorStatus>

    function Abs(): Hub
      reads this
    {
      Hub(subs, subscribers, sent)
    }

    constructor ()
      ensures Abs() == Init(0).hub && Abs().Valid() && detectorState == map[]
    {
      subs, subscribers, sent, detectorState := [], {}, 0, map[];
    }

    method Subscribe() returns (id: Option<nat>)
      requires Abs().Valid()
      modifies this`subs, this`subscribers
      ensures Abs() == AddSubscriber(old(Abs())) && Abs().Valid()
      ensures id == if |old(subscribers)| >= MAX_SUBSCRIBERS then None else Some(|old(subs)|)
      ensures id.Some? ==> id.value in subscribers && id.value !in old(subscribers)
    {
      SubscribeExtends(Abs());
      if |subscribers| >= MAX_SUBSCRIBERS {
        return None;
      }
      id := Some(|subs|);
      subs := subs + [Subscriber([], [], false, sent)];
      subscribers := subscribers + {id.value};
    }

    method Unsubscribe(id: nat)
      requires Abs().Valid()
      modifies this`subs, this`subscribers
      ensures Abs() == Remove(old(Abs()), id) && Abs().Valid()
    {
      RemoveExtends(Abs(), id);
      if id in subscribers {
        subs := subs[id := subs[id].(done := true)];
        subscribers := subscribers - {id};
      }
    }

    // The section under the read lock; the map is enumerated in no particular order.
    method TakeSnapshot() returns (snapshot: seq<nat>)
      ensures Lists(snapshot, subscribers)
    {
      var unseen := subscribers;
      snapshot := [];
      while unseen != {}
        invariant Lists(snapshot, subscribers - unseen) && unseen <= subscribers
      {
        var id :| id in unseen;
        snapshot, unseen := snapshot + [id], unseen - {id};
      }
      assert subscribers - unseen == subscribers;
    }

    // The sends outside the lock.
    method SendToAll(n: nat, snapshot: seq<nat>) returns (evict: seq<nat>)
      requires forall id | id in snapshot :: id < |subs|
      modifies this`subs
      ensures Abs() == SendAll(old(Abs()), n, snapshot)
      ensures evict == Slow(old(Abs()), n, snapshot)
    {
      evict := [];
      for i := 0 to |snapshot|
        invariant SendAll(Abs(), n, snapshot[i..]) == SendAll(old(Abs()), n, snapshot)
        invariant evict + Slow(Abs(), n, snapshot[i..]) == Slow(old(Abs()), n, snapshot)
        invariant |subs| == |old(subs)|
      {
        var id := snapshot[i];
        assert id in snapshot;
        SendNext(Abs(), n, snapshot, i, evict);
        if |subs[id].buffer| < BUFFER_SIZE {
          subs := subs[id := subs[id].(buffer := subs[id].buffer + [n])];
        } else {
          evict := evict + [id];
        }
      }
      assert snapshot[|snapshot|..] == [];
    }

    // The section under the write lock that evicts slow subscribers still in the map.
    method EvictSlow(evict: seq<nat>)
      requires Abs().Valid()
      modifies this`subs, this`subscribers
      ensures Abs() == RemoveAll(old(Abs()), evict)
    {
      for i := 0 to |evict|
        invariant RemoveAll(Abs(), evict[i..]) == RemoveAll(old(Abs()), evict)
        invariant Abs().Valid()
      {
        var id := evict[i];
        assert evict[i..][0] == id && evict[i..][1..] == evict[i + 1..];
        RemoveExtends(Abs(), id);
        if id in subscribers {
          subs := subs[id := subs[id].(done := true)];
          subscribers := subscribers - {id};
        }
      }
      assert evict[|evict|..] == [];
    }

    method Broadcast()
      requires Abs().Valid()
      modifies this`subs, this`subscribers, this`sent
      ensures Abs() == Delivered(old(Abs())) && Abs().Valid()
    {
      ghost var h := Abs();
      var snapshot := TakeSnapshot();
      var n := sent;
      sent := sent + 1;
      ghost var h0 := h.(sent := h.sent + 1);
      assert Abs() == h0;
      assert forall id | id in snapshot :: id in h.registered;
      var evict := SendToAll(n, snapshot);
      assert Abs() == SendAll(h0, n, snapshot) && evict == Slow(h0, n, snapshot);
      PartsMakeDelivery(h, snapshot);
      if |evict| > 0 {
        EvictSlow(evict);
      }
    }

    // True when an event was emitted: exactly when the host's fields changed.
    method PublishDetectorStatus(host: string, status: DetectorStatus) returns (emitted: bool)
      requires Abs().Valid()
      modifies this
      ensures emitted <==> host !in old(detectorState) || old(detectorState)[host] != status
      ensures detectorState == old(detectorState)[host := status]
      ensures Abs() == (if emitted then Delivered(old(Abs())) else old(Abs())) && Abs().Valid()
    {
      if host in detectorState && detectorState[host] == status {
        assert detectorState == detectorState[host := status];
        return false;
      }
      detectorState := detectorState[host := status];
      Broadcast();
      return true;
    }
  }
}
