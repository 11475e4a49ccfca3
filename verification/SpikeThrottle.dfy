/**
 Event-spike stamps: written before the send under a lock, rolled back when the send fails.
 Targets are visited by any number of overlapping calls, and sends run on their own.  Times
 are in seconds.
 */
module SpikeThrottle {
  import opened Wrappers
  import opened Notifications

  // A target's URL and the host and channel of the spike.
  datatype Key = Key(url: Url, spike: string)

  type Stamps = map<Url, map<string, int>>

  // A visit that has read the clock and waits for the lock.
  datatype Visit = Visit(key: Key, repeatMinutes: int, now: int)

  // A send under way, with what its stamp replaced.
  datatype Flight = Flight(key: Key, now: int, prev: Option<int>)

  datatype Outcome = Outcome(key: Key, now: int, ok: bool)

  datatype State = State(stamps: Stamps, visits: map<nat, Visit>, flights: map<nat, Flight>, clock: int,
                         log: seq<Outcome>)

  function StampAt(stamps: Stamps, key: Key): Option<int> {
    if key.url in stamps && key.spike in stamps[key.url] then Some(stamps[key.url][key.spike]) else None
  }

  function WithStamp(stamps: Stamps, key: Key, at: int): Stamps {
    stamps[key.url := (if key.url in stamps then stamps[key.url] else map[])[key.spike := at]]
  }

  function RolledBack(stamps: Stamps, key: Key, prev: Option<int>): Stamps {
    if key.url !in stamps then stamps
    else match prev
         case Some(at) => stamps[key.url := stamps[key.url][key.spike := at]]
         case None => stamps[key.url := stamps[key.url] - {key.spike}]
  }

  lemma StampAfterWrite(stamps: Stamps, key: Key, at: int, k: Key)
    ensures StampAt(WithStamp(stamps, key, at), k) == if k == key then Some(at) else StampAt(stamps, k)
  {
  }

  lemma StampAfterRollback(stamps: Stamps, key: Key, prev: Option<int>, k: Key)
    requires StampAt(stamps, key).Some?
    ensures StampAt(RolledBack(stamps, key, prev), k) == if k == key then prev else StampAt(stamps, k)
  {
  }

  // ---------------------------------------------------------------------- steps

  datatype Event =
    | Tick(seconds: nat)
    | ReadClock(id: nat, key: Key, repeatMinutes: int)
    | Stamp(id: nat)
    | Finish(id: nat, ok: bool)

  function Step(s: State, ev: Event): State {
    match ev
    case Tick(seconds) => s.(clock := s.clock + seconds)
    case ReadClock(id, key, repeatMinutes) =>
      if id in s.visits || id in s.flights then s
      else s.(visits := s.visits[id := Visit(key, repeatMinutes, s.clock)])
    case Stamp(id) =>
      if id !in s.visits then s else
        var v := s.visits[id];
        var last := StampAt(s.stamps, v.key);
        var s1 := s.(visits := s.visits - {id});
        if !Due(last, v.repeatMinutes, v.now) then s1
        else s1.(stamps := WithStamp(s.stamps, v.key, v.now), flights := s.flights[id := Flight(v.key, v.now, last)])
    case Finish(id, ok) =>
      if id !in s.flights then s else
        var f := s.flights[id];
        s.(flights := s.flights - {id},
           stamps := if ok then s.stamps else RolledBack(s.stamps, f.key, f.prev),
           log := s.log + [Outcome(f.key, f.now, ok)])
  }

  function Run(s: State, evs: seq<Event>): State
    decreases |evs|
  {
    if evs == [] then s else Run(Step(s, evs[0]), evs[1..])
  }

  // Every send under way is younger than the limit.
  predicate Timely(s: State, limit: int) {
    forall id :: id in s.flights ==> s.clock < s.flights[id].now + limit
  }

  predicate AlwaysTimely(s: State, evs: seq<Event>, limit: int)
    decreases |evs|
  {
    Timely(s, limit) && (evs == [] || AlwaysTimely(Step(s, evs[0]), evs[1..], limit))
  }

  // The targets send once only, or repeat after `smallest` minutes at the earliest.
  predicate Intervals(evs: seq<Event>, smallest: int) {
    forall ev :: ev in evs && ev.ReadClock? ==> ev.repeatMinutes <= 0 || ev.repeatMinutes >= smallest
  }

  function Start(stamps: Stamps, clock: int): State {
    State(stamps, map[], map[], clock, [])
  }

  // ------------------------------------------------------------------ the meaning

  // The stamp of the latest successful send, or the value from before them all.
  function Settled(initial: Stamps, log: seq<Outcome>, key: Key): Option<int> {
    if log == [] then StampAt(initial, key)
    else
      var last := log[|log| - 1];
      if last.key == key && last.ok then Some(last.now) else Settled(initial, log[..|log| - 1], key)
  }

  lemma SettledSnoc(initial: Stamps, log: seq<Outcome>, o: Outcome, key: Key)
    ensures Settled(initial, log + [o], key) == if o.key == key && o.ok then Some(o.now) else Settled(initial, log, key)
  {
    assert (log + [o])[..|log|] == log;
  }

  ghost predicate KeyRight(s: State, initial: Stamps, key: Key) {
    && (forall id :: id in s.flights && s.flights[id].key == key ==>
          StampAt(s.stamps, key) == Some(s.flights[id].now) && s.flights[id].prev == Settled(initial, s.log, key))
    && ((forall id :: id in s.flights ==> s.flights[id].key != key) ==>
          StampAt(s.stamps, key) == Settled(initial, s.log, key))
    && (forall a, b :: a in s.flights && b in s.flights && s.flights[a].key == key && s.flights[b].key == key
          ==> a == b)
  }

  ghost predicate Inv(s: State, initial: Stamps, smallest: int) {
    && (forall key :: KeyRight(s, initial, key))
    && (forall id :: id in s.visits ==> s.visits[id].now <= s.clock && id !in s.flights)
    && (forall id :: id in s.visits ==> s.visits[id].repeatMinutes <= 0 || s.visits[id].repeatMinutes >= smallest)
  }

  // While a send for a key is under way no other visit to that key is due.
  lemma OneFlightPerKey(s: State, initial: Stamps, smallest: int, id: nat, other: nat)
    requires Inv(s, initial, smallest) && Timely(s, smallest * MINUTE)
    requires id in s.visits && other in s.flights && s.flights[other].key == s.visits[id].key
    ensures !Due(StampAt(s.stamps, s.visits[id].key), s.visits[id].repeatMinutes, s.visits[id].now)
  {
    assert KeyRight(s, initial, s.visits[id].key);
  }

  lemma StampKeeps(s: State, initial: Stamps, smallest: int, id: nat)
    requires Inv(s, initial, smallest) && Timely(s, smallest * MINUTE)
    ensures Inv(Step(s, Stamp(id)), initial, smallest)
  {
    var s' := Step(s, Stamp(id));
    if id in s.visits {
      var v := s.visits[id];
      forall key ensures KeyRight(s', initial, key) {
        assert KeyRight(s, initial, key);
        if Due(StampAt(s.stamps, v.key), v.repeatMinutes, v.now) {
          StampAfterWrite(s.stamps, v.key, v.now, key);
          forall other | other in s.flights ensures s.flights[other].key != v.key {
            if s.flights[other].key == v.key {
              OneFlightPerKey(s, initial, smallest, id, other);
            }
          }
          if key == v.key {
            assert s'.flights[id].key == key;
          } else {
            SameFlights(s, s', initial, key, id);
          }
        }
      }
    }
  }

  // A step that touches only another key's flight and stamp.
  lemma SameFlights(s: State, s': State, initial: Stamps, key: Key, id: nat)
    requires KeyRight(s, initial, key)
    requires StampAt(s'.stamps, key) == StampAt(s.stamps, key)
    requires Settled(initial, s'.log, key) == Settled(initial, s.log, key)
    requires id in s.flights ==> s.flights[id].key != key
    requires id in s'.flights ==> s'.flights[id].key != key
    requires forall other :: other != id ==>
      (other in s'.flights <==> other in s.flights) && (other in s.flights ==> s'.flights[other] == s.flights[other])
    ensures KeyRight(s', initial, key)
  {
  }

  lemma FinishKeeps(s: State, initial: Stamps, smallest: int, id: nat, ok: bool)
    requires Inv(s, initial, smallest)
    ensures Inv(Step(s, Finish(id, ok)), initial, smallest)
  {
    var s' := Step(s, Finish(id, ok));
    if id in s.flights {
      var f := s.flights[id];
      assert KeyRight(s, initial, f.key);
      forall key ensures KeyRight(s', initial, key) {
        assert KeyRight(s, initial, key);
        SettledSnoc(initial, s.log, Outcome(f.key, f.now, ok), key);
        if !ok {
          StampAfterRollback(s.stamps, f.key, f.prev, key);
        }
        if key != f.key {
          SameFlights(s, s', initial, key, id);
        }
      }
    }
  }

  lemma OtherKeeps(s: State, initial: Stamps, smallest: int, ev: Event)
    requires Inv(s, initial, smallest) && Intervals([ev], smallest) && (ev.Tick? || ev.ReadClock?)
    ensures Inv(Step(s, ev), initial, smallest)
  {
    var s' := Step(s, ev);
    assert ev in [ev];
    forall key ensures KeyRight(s', initial, key) {
      assert KeyRight(s, initial, key);
    }
  }

  lemma {:induction false} RunKeeps(s: State, initial: Stamps, smallest: int, evs: seq<Event>)
    requires Inv(s, initial, smallest) && Intervals(evs, smallest) && AlwaysTimely(s, evs, smallest * MINUTE)
    ensures Inv(Run(s, evs), initial, smallest) && Timely(Run(s, evs), smallest * MINUTE)
    decreases |evs|
  {
    if evs != [] {
      assert evs[0] in evs;
      match evs[0] {
        case Stamp(id) => StampKeeps(s, initial, smallest, id);
        case Finish(id, ok) => FinishKeeps(s, initial, smallest, id, ok);
        case _ => OtherKeeps(s, initial, smallest, evs[0]);
      }
      RunKeeps(Step(s, evs[0]), initial, smallest, evs[1..]);
    }
  }

  // A stamp whose sends have ended is that of the latest one to succeed, or what it was before
  // any did; while a send runs, the stamp is that send's.
  ghost predicate Settles(s: State, initial: Stamps, key: Key) {
    && ((forall id :: id in s.flights ==> s.flights[id].key != key) ==>
          StampAt(s.stamps, key) == Settled(initial, s.log, key))
    && (forall id :: id in s.flights && s.flights[id].key == key ==> StampAt(s.stamps, key) == Some(s.flights[id].now))
  }

  // When sends end within the smallest repeat interval, every interleaving of visits, sends
  // and rollbacks settles every stamp.
  lemma FailedSendsLeaveNoTrace(initial: Stamps, clock: int, smallest: int, evs: seq<Event>, key: Key)
    requires Intervals(evs, smallest) && AlwaysTimely(Start(initial, clock), evs, smallest * MINUTE)
    ensures Settles(Run(Start(initial, clock), evs), initial, key)
  {
    var s0 := Start(initial, clock);
    assert forall k :: KeyRight(s0, initial, k);
    RunKeeps(s0, initial, smallest, evs);
    assert KeyRight(Run(s0, evs), initial, key);
  }

  // A visit whose turn has come starts a send exactly when no send for its key is under way and
  // either none has ever succeeded, or the latest success is an interval of minutes back; without
  // an interval a spike is sent once.
  lemma LetThroughExactly(initial: Stamps, clock: int, smallest: int, evs: seq<Event>, id: nat)
    requires Intervals(evs, smallest) && AlwaysTimely(Start(initial, clock), evs, smallest * MINUTE)
    requires id in Run(Start(initial, clock), evs).visits
    ensures var s := Run(Start(initial, clock), evs);
      var v := s.visits[id];
      var last := Settled(initial, s.log, v.key);
      id in Step(s, Stamp(id)).flights <==>
        && (forall other :: other in s.flights ==> s.flights[other].key != v.key)
        && (last == None || (v.repeatMinutes > 0 && v.now - last.value >= 60 * v.repeatMinutes))
  {
    var s0 := Start(initial, clock);
    assert forall k :: KeyRight(s0, initial, k);
    RunKeeps(s0, initial, smallest, evs);
    var s := Run(s0, evs);
    var v := s.visits[id];
    assert KeyRight(s, initial, v.key);
    if other :| other in s.flights && s.flights[other].key == v.key {
      OneFlightPerKey(s, initial, smallest, id, other);
    }
  }

  lemma {:induction false} TimelyLonger(s: State, evs: seq<Event>, limit: int, longer: int)
    requires AlwaysTimely(s, evs, limit) && limit <= longer
    ensures AlwaysTimely(s, evs, longer)
    decreases |evs|
  {
    if evs != [] {
      TimelyLonger(Step(s, evs[0]), evs[1..], limit, longer);
    }
  }

  // ------------------------------------------------- how timely sends have to be

  // The shortest bound on the sends that settles every run is the smallest interval itself.
  lemma SmallestIntervalIsTheBound(smallest: nat, limit: int)
    requires smallest > 0
    ensures (forall initial: Stamps, clock: int, evs: seq<Event>, key: Key ::
               Intervals(evs, smallest) && AlwaysTimely(Start(initial, clock), evs, limit) ==>
                 Settles(Run(Start(initial, clock), evs), initial, key))
        <==> limit <= smallest * 60
  {
    if limit <= smallest * MINUTE {
      forall initial: Stamps, clock: int, evs: seq<Event>, key: Key
        | Intervals(evs, smallest) && AlwaysTimely(Start(initial, clock), evs, limit)
        ensures Settles(Run(Start(initial, clock), evs), initial, key)
      {
        TimelyLonger(Start(initial, clock), evs, limit, smallest * MINUTE);
        FailedSendsLeaveNoTrace(initial, clock, smallest, evs, key);
      }
    } else {
      var key := Key("", "");
      SlowSendIsTimely(key, smallest, limit);
      SlowFailureErasesASuccess(key, smallest);
      assert !Settles(Run(Start(map[], 0), SlowSend(key, smallest)), map[], key);
    }
  }

  function Ticks(evs: seq<Event>): nat {
    if evs == [] then 0 else (if evs[0].Tick? then evs[0].seconds else 0) + Ticks(evs[1..])
  }

  // A run that is over before the limit has no send that old.
  lemma {:induction false} ShortRunsAreTimely(s: State, evs: seq<Event>, limit: int)
    requires s.clock >= 0 && s.clock + Ticks(evs) < limit
    requires forall id :: id in s.flights ==> s.flights[id].now >= 0
    requires forall id :: id in s.visits ==> s.visits[id].now >= 0
    ensures AlwaysTimely(s, evs, limit)
    decreases |evs|
  {
    if evs != [] {
      ShortRunsAreTimely(Step(s, evs[0]), evs[1..], limit);
    }
  }

  lemma TicksCons(ev: Event, evs: seq<Event>)
    ensures Ticks([ev] + evs) == (if ev.Tick? then ev.seconds else 0) + Ticks(evs)
  {
    assert ([ev] + evs)[1..] == evs;
  }

  lemma SlowSendIsTimely(key: Key, repeatMinutes: nat, limit: int)
    requires repeatMinutes * MINUTE < limit
    ensures Intervals(SlowSend(key, repeatMinutes), repeatMinutes)
    ensures AlwaysTimely(Start(map[], 0), SlowSend(key, repeatMinutes), limit)
  {
    var read, wait := ReadClock(0, key, repeatMinutes), Tick(repeatMinutes * MINUTE);
    var second := ReadClock(1, key, repeatMinutes);
    var ending := [Stamp(1), Finish(1, true), Finish(0, false)];
    assert ending == [Stamp(1)] + ([Finish(1, true)] + ([Finish(0, false)] + []));
    TicksCons(Finish(0, false), []);
    TicksCons(Finish(1, true), [Finish(0, false)] + []);
    TicksCons(Stamp(1), [Finish(1, true)] + ([Finish(0, false)] + []));
    TicksCons(second, ending);
    TicksCons(wait, [second] + ending);
    TicksCons(Stamp(0), [wait] + ([second] + ending));
    TicksCons(read, [Stamp(0)] + ([wait] + ([second] + ending)));
    assert SlowSend(key, repeatMinutes) == [read] + ([Stamp(0)] + ([wait] + ([second] + ending)));
    ShortRunsAreTimely(Start(map[], 0), SlowSend(key, repeatMinutes), limit);
  }

  function SlowSend(key: Key, repeatMinutes: nat): seq<Event> {
    [ReadClock(0, key, repeatMinutes), Stamp(0), Tick(repeatMinutes * MINUTE),
     ReadClock(1, key, repeatMinutes), Stamp(1), Finish(1, true), Finish(0, false)]
  }

  lemma RunCons(s: State, ev: Event, evs: seq<Event>)
    ensures Run(s, [ev] + evs) == Run(Step(s, ev), evs)
  {
    assert ([ev] + evs)[1..] == evs;
  }

  lemma RunFour(s: State, a: Event, b: Event, c: Event, d: Event, evs: seq<Event>)
    ensures Run(s, [a, b, c, d] + evs) == Run(Step(Step(Step(Step(s, a), b), c), d), evs)
  {
    RunCons(s, a, [b, c, d] + evs);
    RunCons(Step(s, a), b, [c, d] + evs);
    RunCons(Step(Step(s, a), b), c, [d] + evs);
    RunCons(Step(Step(Step(s, a), b), c), d, evs);
    assert [a, b, c, d] + evs == [a] + ([b, c, d] + evs);
    assert [b, c, d] + evs == [b] + ([c, d] + evs);
    assert [c, d] + evs == [c] + ([d] + evs);
  }

  // A send that lasts its whole interval lets a second one pass; when it then fails, its
  // rollback erases the stamp of the second, which had succeeded.
  lemma SlowFailureErasesASuccess(key: Key, repeatMinutes: nat)
    requires repeatMinutes > 0
    ensures var s := Run(Start(map[], 0), SlowSend(key, repeatMinutes));
      && s.flights == map[] && StampAt(s.stamps, key) == None
      && Settled(map[], s.log, key) == Some(repeatMinutes * MINUTE)
  {
    var t := repeatMinutes * MINUTE;
    var s0 := Start(map[], 0);
    var rest := [Stamp(1), Finish(1, true), Finish(0, false)];
    RunFour(s0, ReadClock(0, key, repeatMinutes), Stamp(0), Tick(t), ReadClock(1, key, repeatMinutes), rest);
    assert SlowSend(key, repeatMinutes) ==
      [ReadClock(0, key, repeatMinutes), Stamp(0), Tick(t), ReadClock(1, key, repeatMinutes)] + rest;
    SlowStart(key, repeatMinutes);
    SlowEnding(SlowMiddle(key, repeatMinutes), key, t, rest);
  }

  function SlowMiddle(key: Key, repeatMinutes: nat): State {
    var s1 := Step(Step(Start(map[], 0), ReadClock(0, key, repeatMinutes)), Stamp(0));
    Step(Step(s1, Tick(repeatMinutes * MINUTE)), ReadClock(1, key, repeatMinutes))
  }

  lemma SlowStart(key: Key, repeatMinutes: nat)
    ensures var s := SlowMiddle(key, repeatMinutes);
      && s.visits == map[1 := Visit(key, repeatMinutes, repeatMinutes * MINUTE)]
      && s.flights == map[0 := Flight(key, 0, None)] && StampAt(s.stamps, key) == Some(0) && s.log == []
  {
    StampAfterWrite(map[], key, 0, key);
  }

  lemma SlowEnding(s4: State, key: Key, t: int, rest: seq<Event>)
    requires 1 in s4.visits && s4.visits[1].key == key && s4.visits[1].now == t
    requires s4.visits[1].repeatMinutes > 0 && t == s4.visits[1].repeatMinutes * MINUTE
    requires s4.flights == map[0 := Flight(key, 0, None)] && StampAt(s4.stamps, key) == Some(0) && s4.log == []
    requires rest == [Stamp(1), Finish(1, true), Finish(0, false)]
    ensures var s := Run(s4, rest);
      s.flights == map[] && StampAt(s.stamps, key) == None && Settled(map[], s.log, key) == Some(t)
  {
    var s5 := Step(s4, Stamp(1));
    var s6 := Step(s5, Finish(1, true));
    var s7 := Step(s6, Finish(0, false));
    StampAfterWrite(s4.stamps, key, t, key);
    StampAfterRollback(s6.stamps, key, None, key);
    RunCons(s4, Stamp(1), [Finish(1, true), Finish(0, false)]);
    RunCons(s5, Finish(1, true), [Finish(0, false)]);
    RunCons(s6, Finish(0, false), []);
    assert rest == [Stamp(1)] + [Finish(1, true), Finish(0, false)];
    assert [Finish(1, true), Finish(0, false)] == [Finish(1, true)] + [Finish(0, false)];
    assert [Finish(0, false)] == [Finish(0, false)] + [];
    SettledSnoc(map[], [], Outcome(key, t, true), key);
    SettledSnoc(map[], [Outcome(key, t, true)], Outcome(key, 0, false), key);
    assert s7.log == [Outcome(key, t, true)] + [Outcome(key, 0, false)];
  }

  // ------------------------------------------------------ the two locked sections

  class SpikeStamps {
    var lastSpike: map<Url, map<string, int>>

    constructor ()
      ensures lastSpike == map[]
    {
      lastSpike := map[];
    }

    // Checks the repeat interval and stamps; returns what a failed send has to restore.
    method TryStamp(key: Key, repeatMinutes: int, now: int) returns (flight: Option<Flight>)
      modifies this
      ensures flight == if Due(StampAt(old(lastSpike), key), repeatMinutes, now)
                        then Some(Flight(key, now, StampAt(old(lastSpike), key))) else None
      ensures lastSpike == if flight.Some? then WithStamp(old(lastSpike), key, now) else old(lastSpike)
    {
      var prev: Option<int> := None;
      if key.url in lastSpike && key.spike in lastSpike[key.url] {
        prev := Some(lastSpike[key.url][key.spike]);
      }
      if repeatMinutes > 0 {
        if prev.Some? && now - prev.value < repeatMinutes * MINUTE {
          return None;
        }
      } else if prev.Some? {
        return None;
      }
      var sent := if key.url in lastSpike then lastSpike[key.url] else map[];
      lastSpike := lastSpike[key.url := sent[key.spike := now]];
      return Some(Flight(key, now, prev));
    }

    method Rollback(flight: Flight)
      modifies this
      ensures lastSpike == RolledBack(old(lastSpike), flight.key, flight.prev)
    {
      if flight.key.url !in lastSpike {
        return;
      }
      var sent := lastSpike[flight.key.url];
      match flight.prev {
        case Some(at) => lastSpike := lastSpike[flight.key.url := sent[flight.key.spike := at]];
        case None => lastSpike := lastSpike[flight.key.url := sent - {flight.key.spike}];
      }
    }
  }
}
