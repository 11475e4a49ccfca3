/**
 The force-update delivery registry: an in-memory queue per host in front of a durable
 outbox.  Times are nanoseconds; the outbox stores milliseconds.
 */
module ForceUpdate {
  import opened Wrappers
  import Text

  type Host = string
  type Id = string

  const MILLI := 1_000_000
  const WINDOW := 24 * 60 * 60 * 1000 * MILLI
  const CAPACITY := 1024

  datatype Command = Command(id: Id, host: Host, reason: string, acceptedAt: int, version: string, acked: bool)

  datatype Row = Row(reason: string, acceptedMs: int, version: string)

  datatype Key = Key(host: Host, id: Id)

  datatype State = State(commands: map<Host, seq<Command>>, outbox: map<Key, Row>)

  datatype Outcome = Accepted | Duplicate | Failed

  // ------------------------------------------------------------------ the queue

  predicate Unexpired(acceptedAt: int, now: int) {
    acceptedAt > now - WINDOW
  }

  // The unexpired commands in order: what gcLocked keeps.
  function Fresh(cmds: seq<Command>, now: int): seq<Command> {
    if cmds == [] then []
    else if Unexpired(cmds[0].acceptedAt, now) then [cmds[0]] + Fresh(cmds[1..], now)
    else Fresh(cmds[1..], now)
  }

  function Unacked(cmds: seq<Command>): seq<Command> {
    if cmds == [] then [] else if cmds[0].acked then Unacked(cmds[1..]) else [cmds[0]] + Unacked(cmds[1..])
  }

  function Queue(s: State, host: Host): seq<Command> {
    if host in s.commands then s.commands[host] else []
  }

  function WithQueue(commands: map<Host, seq<Command>>, host: Host, cmds: seq<Command>): map<Host, seq<Command>> {
    if cmds == [] then commands - {host} else commands[host := cmds]
  }

  function Collected(s: State, host: Host, now: int): State {
    s.(commands := WithQueue(s.commands, host, Fresh(Queue(s, host), now)))
  }

  // The unacknowledged, unexpired commands of a host, oldest first.
  function PendingOf(s: State, host: Host, now: int): seq<Command> {
    Unacked(Fresh(Queue(s, host), now))
  }

  // The first command with this ID.
  function Find(cmds: seq<Command>, id: Id): Option<Command> {
    if cmds == [] then None else if cmds[0].id == id then Some(cmds[0]) else Find(cmds[1..], id)
  }

  function Without(cmds: seq<Command>, id: Id): seq<Command> {
    if cmds == [] then []
    else if cmds[0].id == id then Without(cmds[1..], id)
    else [cmds[0]] + Without(cmds[1..], id)
  }

  // Marks the first command with this ID.
  function MarkAcked(cmds: seq<Command>, id: Id): seq<Command> {
    if cmds == [] then []
    else if cmds[0].id == id then [cmds[0].(acked := true)] + cmds[1..]
    else [cmds[0]] + MarkAcked(cmds[1..], id)
  }

  // In acceptance order, with distinct IDs.
  predicate Ordered(cmds: seq<Command>) {
    forall i, j :: 0 <= i < j < |cmds| ==> cmds[i].acceptedAt <= cmds[j].acceptedAt && cmds[i].id != cmds[j].id
  }

  // ----------------------------------------------------------------- the outbox

  function RowOf(c: Command): Row {
    Row(c.reason, c.acceptedAt / MILLI, c.version)
  }

  predicate RowUnexpired(row: Row, now: int) {
    Unexpired(row.acceptedMs * MILLI, now)
  }

  function RowAt(outbox: map<Key, Row>, host: Host, id: Id): Option<Row> {
    if Key(host, id) in outbox then Some(outbox[Key(host, id)]) else None
  }

  // Rows older than the cutoff, in whole milliseconds, are deleted.
  function Purged(outbox: map<Key, Row>, cutoff: int): map<Key, Row> {
    map k | k in outbox && outbox[k].acceptedMs >= cutoff / MILLI :: outbox[k]
  }

  // The insert transaction; `works` is what the storage itself does.  A full outbox or a key
  // that is already there fails and leaves the table as it was.
  function OutboxInsert(outbox: map<Key, Row>, c: Command, now: int, works: bool): Option<map<Key, Row>> {
    var kept := Purged(outbox, now - WINDOW);
    if works && |kept| < CAPACITY && Key(c.host, c.id) !in kept
    then Some(kept[Key(c.host, c.id) := RowOf(c)]) else None
  }

  datatype Entry = Entry(key: Key, row: Row)

  // The order of the load query: host, then millisecond, then command ID.
  predicate Listed(a: Entry, b: Entry) {
    Text.Less(a.key.host, b.key.host) ||
    (a.key.host == b.key.host &&
     (a.row.acceptedMs < b.row.acceptedMs ||
      (a.row.acceptedMs == b.row.acceptedMs && Text.Less(a.key.id, b.key.id))))
  }

  // What the load query may return for a table: each row once, in that order.
  ghost predicate IsListing(outbox: map<Key, Row>, listing: seq<Entry>) {
    && (forall i, j :: 0 <= i < j < |listing| ==> Listed(listing[i], listing[j]) && listing[i].key != listing[j].key)
    && (forall e :: e in listing <==> e.key in outbox && outbox[e.key] == e.row)
  }

  function FromEntry(e: Entry): Command {
    Command(e.key.id, e.key.host, e.row.reason, e.row.acceptedMs * MILLI, e.row.version, false)
  }

  // The queue a starting process builds for a host.
  function Restored(listing: seq<Entry>, host: Host): seq<Command> {
    if listing == [] then []
    else if listing[0].key.host == host then [FromEntry(listing[0])] + Restored(listing[1..], host)
    else Restored(listing[1..], host)
  }

  function Hosts(listing: seq<Entry>): (hosts: set<Host>)
    ensures forall e :: e in listing ==> e.key.host in hosts
  {
    set i | 0 <= i < |listing| :: listing[i].key.host
  }

  // ---------------------------------------------------------------- operations

  datatype Op =
    | Enqueue(host: Host, id: Id, reason: string, version: string, works: bool)
    | Consume(host: Host)
    | Acknowledge(host: Host, id: Id, works: bool)
    | Restart(listing: seq<Entry>)

  datatype Event = Event(now: int, op: Op)

  function EnqueueState(s: State, host: Host, id: Id, reason: string, version: string, now: int, works: bool): State {
    var s1 := Collected(s, host, now);
    var cmd := Command(id, host, reason, now, version, false);
    var inserted := OutboxInsert(s.outbox, cmd, now, works);
    if Find(Queue(s1, host), id).Some? || inserted.None? then s1
    else State(s1.commands[host := Queue(s1, host) + [cmd]], inserted.value)
  }

  function EnqueueOutcome(s: State, host: Host, id: Id, reason: string, version: string, now: int,
                          works: bool): Outcome {
    if Find(Fresh(Queue(s, host), now), id).Some? then Duplicate
    else if OutboxInsert(s.outbox, Command(id, host, reason, now, version, false), now, works).None? then Failed
    else Accepted
  }

  function AcknowledgeState(s: State, host: Host, id: Id, works: bool): State {
    if !works then s else
      State(if host in s.commands then s.commands[host := MarkAcked(s.commands[host], id)] else s.commands,
            s.outbox - {Key(host, id)})
  }

  function RestartState(s: State, listing: seq<Entry>, now: int): State {
    State(map h | h in Hosts(listing) :: Restored(listing, h), Purged(s.outbox, now - WINDOW))
  }

  function Apply(s: State, ev: Event): State {
    match ev.op
    case Enqueue(host, id, reason, version, works) => EnqueueState(s, host, id, reason, version, ev.now, works)
    case Consume(host) => Collected(s, host, ev.now)
    case Acknowledge(host, id, works) => AcknowledgeState(s, host, id, works)
    case Restart(listing) => RestartState(s, listing, ev.now)
  }

  function Run(s: State, evs: seq<Event>): State
    decreases |evs|
  {
    if evs == [] then s else Run(Apply(s, evs[0]), evs[1..])
  }

  // A run: the clock does not go back, and a restart loads the rows that are there.
  ghost predicate Legal(s: State, start: int, evs: seq<Event>, end: int)
    decreases |evs|
  {
    if evs == [] then start <= end else
      && start <= evs[0].now
      && (evs[0].op.Restart? ==> IsListing(Purged(s.outbox, evs[0].now - WINDOW), evs[0].op.listing))
      && Legal(Apply(s, evs[0]), evs[0].now, evs[1..], end)
  }

  // -------------------------------------------------------------- queue algebra

  lemma {:induction false} FreshAgain(cmds: seq<Command>, t: int, u: int)
    requires t <= u
    ensures Fresh(Fresh(cmds, t), u) == Fresh(cmds, u)
  {
    if cmds != [] {
      FreshAgain(cmds[1..], t, u);
      if Unexpired(cmds[0].acceptedAt, t) {
        FreshAppend([cmds[0]], Fresh(cmds[1..], t), u);
      } else {
        assert Fresh(cmds, t) == Fresh(cmds[1..], t);
      }
    }
  }

  lemma {:induction false} FreshAppend(a: seq<Command>, b: seq<Command>, t: int)
    ensures Fresh(a + b, t) == Fresh(a, t) + Fresh(b, t)
  {
    if a == [] {
      assert a + b == b;
    } else {
      var rest := a[1..];
      assert (a + b)[0] == a[0] && (a + b)[1..] == rest + b;
      FreshAppend(rest, b, t);
      assert [a[0]] + (Fresh(rest, t) + Fresh(b, t)) == ([a[0]] + Fresh(rest, t)) + Fresh(b, t);
    }
  }

  lemma {:induction false} UnackedAppend(a: seq<Command>, b: seq<Command>)
    ensures Unacked(a + b) == Unacked(a) + Unacked(b)
  {
    if a == [] {
      assert a + b == b;
    } else {
      var rest := a[1..];
      assert (a + b)[0] == a[0] && (a + b)[1..] == rest + b;
      UnackedAppend(rest, b);
      assert [a[0]] + (Unacked(rest) + Unacked(b)) == ([a[0]] + Unacked(rest)) + Unacked(b);
    }
  }

  lemma FreshCons(c: Command, rest: seq<Command>, t: int)
    ensures Fresh([c] + rest, t) == if Unexpired(c.acceptedAt, t) then [c] + Fresh(rest, t) else Fresh(rest, t)
  {
    assert ([c] + rest)[1..] == rest;
  }

  lemma UnackedCons(c: Command, rest: seq<Command>)
    ensures Unacked([c] + rest) == if c.acked then Unacked(rest) else [c] + Unacked(rest)
  {
    assert ([c] + rest)[1..] == rest;
  }

  lemma {:induction false} UnackedFresh(cmds: seq<Command>, t: int)
    ensures Unacked(Fresh(cmds, t)) == Fresh(Unacked(cmds), t)
  {
    if cmds != [] {
      var c, rest := cmds[0], cmds[1..];
      assert cmds == [c] + rest;
      UnackedFresh(rest, t);
      FreshCons(c, rest, t);
      UnackedCons(c, rest);
      FreshCons(c, Unacked(rest), t);
      UnackedCons(c, Fresh(rest, t));
    }
  }

  lemma {:induction false} FreshElements(cmds: seq<Command>, t: int)
    ensures forall c :: c in Fresh(cmds, t) <==> c in cmds && Unexpired(c.acceptedAt, t)
  {
    if cmds != [] {
      FreshElements(cmds[1..], t);
      assert cmds == [cmds[0]] + cmds[1..];
    }
  }

  lemma {:induction false} UnackedElements(cmds: seq<Command>)
    ensures forall c :: c in Unacked(cmds) <==> c in cmds && !c.acked
  {
    if cmds != [] {
      UnackedElements(cmds[1..]);
      assert cmds == [cmds[0]] + cmds[1..];
    }
  }

  lemma OrderedTail(cmds: seq<Command>)
    requires Ordered(cmds) && cmds != []
    ensures Ordered(cmds[1..])
    ensures forall c :: c in cmds[1..] ==> cmds[0].acceptedAt <= c.acceptedAt && cmds[0].id != c.id
  {
  }

  lemma OrderedCons(c: Command, rest: seq<Command>)
    requires Ordered(rest)
    requires forall d :: d in rest ==> c.acceptedAt <= d.acceptedAt && c.id != d.id
    ensures Ordered([c] + rest)
  {
  }

  lemma {:induction false} FreshOrdered(cmds: seq<Command>, t: int)
    requires Ordered(cmds)
    ensures Ordered(Fresh(cmds, t))
  {
    if cmds != [] {
      OrderedTail(cmds);
      FreshOrdered(cmds[1..], t);
      FreshElements(cmds[1..], t);
      OrderedCons(cmds[0], Fresh(cmds[1..], t));
    }
  }

  lemma {:induction false} FindFound(cmds: seq<Command>, id: Id)
    ensures Find(cmds, id).Some? ==> Find(cmds, id).value in cmds && Find(cmds, id).value.id == id
    ensures Find(cmds, id).None? ==> forall c :: c in cmds ==> c.id != id
  {
    if cmds != [] {
      FindFound(cmds[1..], id);
      assert cmds == [cmds[0]] + cmds[1..];
    }
  }

  lemma {:induction false} FindElement(cmds: seq<Command>, c: Command)
    requires Ordered(cmds) && c in cmds
    ensures Find(cmds, c.id) == Some(c)
  {
    OrderedTail(cmds);
    if c != cmds[0] {
      assert cmds == [cmds[0]] + cmds[1..];
      FindElement(cmds[1..], c);
    }
  }

  lemma {:induction false} FindFresh(cmds: seq<Command>, id: Id, t: int)
    requires Ordered(cmds)
    ensures Find(Fresh(cmds, t), id) ==
      (var f := Find(cmds, id); if f.Some? && Unexpired(f.value.acceptedAt, t) then f else None)
  {
    if cmds != [] {
      OrderedTail(cmds);
      FindFresh(cmds[1..], id, t);
      FindFound(cmds[1..], id);
    }
  }

  lemma {:induction false} FindAppend(cmds: seq<Command>, c: Command, id: Id)
    ensures Find(cmds + [c], id) ==
      if Find(cmds, id).Some? then Find(cmds, id) else if c.id == id then Some(c) else None
  {
    if cmds != [] {
      FindAppend(cmds[1..], c, id);
      assert (cmds + [c])[1..] == cmds[1..] + [c];
    }
  }

  lemma {:induction false} FindMarked(cmds: seq<Command>, marked: Id, id: Id)
    ensures Find(MarkAcked(cmds, marked), id) ==
      (var f := Find(cmds, id); if f.Some? && id == marked then Some(f.value.(acked := true)) else f)
  {
    if cmds != [] {
      FindMarked(cmds[1..], marked, id);
      assert ([cmds[0].(acked := true)] + cmds[1..])[1..] == cmds[1..];
      assert ([cmds[0]] + MarkAcked(cmds[1..], marked))[1..] == MarkAcked(cmds[1..], marked);
    }
  }

  lemma {:induction false} MarkedShape(cmds: seq<Command>, id: Id)
    ensures |MarkAcked(cmds, id)| == |cmds|
    ensures forall i :: 0 <= i < |cmds| ==>
      MarkAcked(cmds, id)[i] == cmds[i] || MarkAcked(cmds, id)[i] == cmds[i].(acked := true)
  {
    if cmds != [] {
      MarkedShape(cmds[1..], id);
    }
  }

  lemma WithoutCons(c: Command, rest: seq<Command>, id: Id)
    ensures Without([c] + rest, id) == if c.id == id then Without(rest, id) else [c] + Without(rest, id)
  {
    assert ([c] + rest)[1..] == rest;
  }

  // Acknowledging removes exactly that ID from what is pending.
  lemma {:induction false} MarkedUnacked(cmds: seq<Command>, id: Id)
    requires Ordered(cmds)
    ensures Unacked(MarkAcked(cmds, id)) == Without(Unacked(cmds), id)
  {
    if cmds != [] {
      var c, rest := cmds[0], cmds[1..];
      assert cmds == [c] + rest;
      OrderedTail(cmds);
      UnackedCons(c, rest);
      WithoutCons(c, Unacked(rest), id);
      if c.id == id {
        UnackedElements(rest);
        WithoutAbsent(Unacked(rest), id);
        UnackedCons(c.(acked := true), rest);
      } else {
        MarkedUnacked(rest, id);
        UnackedCons(c, MarkAcked(rest, id));
      }
    }
  }

  lemma {:induction false} WithoutAppend(a: seq<Command>, b: seq<Command>, id: Id)
    ensures Without(a + b, id) == Without(a, id) + Without(b, id)
  {
    if a == [] {
      assert a + b == b;
    } else {
      var rest := a[1..];
      assert (a + b)[0] == a[0] && (a + b)[1..] == rest + b;
      WithoutAppend(rest, b, id);
      assert [a[0]] + (Without(rest, id) + Without(b, id)) == ([a[0]] + Without(rest, id)) + Without(b, id);
    }
  }

  lemma {:induction false} WithoutAbsent(cmds: seq<Command>, id: Id)
    requires forall c :: c in cmds ==> c.id != id
    ensures Without(cmds, id) == cmds
  {
    if cmds != [] {
      assert cmds == [cmds[0]] + cmds[1..];
      WithoutAbsent(cmds[1..], id);
    }
  }

  lemma {:induction false} WithoutFresh(cmds: seq<Command>, id: Id, t: int)
    ensures Fresh(Without(cmds, id), t) == Without(Fresh(cmds, t), id)
  {
    if cmds != [] {
      var c, rest := cmds[0], cmds[1..];
      WithoutFresh(rest, id, t);
      FreshAppend(Without([c], id), Without(rest, id), t);
      WithoutAppend(Fresh([c], t), Fresh(rest, t), id);
      assert Without(cmds, id) == Without([c], id) + Without(rest, id);
      assert Fresh(cmds, t) == Fresh([c], t) + Fresh(rest, t);
      assert Fresh(Without([c], id), t) == Without(Fresh([c], t), id);
    }
  }

  lemma {:induction false} WithoutElements(cmds: seq<Command>, id: Id)
    ensures forall c :: c in Without(cmds, id) <==> c in cmds && c.id != id
  {
    if cmds != [] {
      WithoutElements(cmds[1..], id);
      assert cmds == [cmds[0]] + cmds[1..];
    }
  }

  // --------------------------------------------- memory and outbox stay in step

  // The command found under an ID and the row stored under it.  The outbox keeps whole
  // milliseconds, so a row can expire up to a millisecond before its command.
  predicate Agree(f: Option<Command>, r: Option<Row>, now: int) {
    && (f.Some? && !f.value.acked && Unexpired(f.value.acceptedAt, now) ==> r == Some(RowOf(f.value)))
    && (r.Some? && RowUnexpired(r.value, now) ==> f.Some? && !f.value.acked && r.value == RowOf(f.value))
  }

  predicate WellQueued(cmds: seq<Command>, host: Host, now: int) {
    Ordered(cmds) && forall c :: c in cmds ==> c.host == host && c.acceptedAt <= now
  }

  ghost predicate Sync(s: State, now: int) {
    && (forall h :: WellQueued(Queue(s, h), h, now))
    && (forall h, id :: Agree(Find(Queue(s, h), id), RowAt(s.outbox, h, id), now))
  }

  lemma CollectedKeeps(s: State, host: Host, start: int, now: int)
    requires Sync(s, start) && start <= now
    ensures Sync(Collected(s, host, now), now)
  {
    var s' := Collected(s, host, now);
    FreshOrdered(Queue(s, host), now);
    FreshElements(Queue(s, host), now);
    forall h ensures WellQueued(Queue(s', h), h, now) {
      assert WellQueued(Queue(s, h), h, start);
    }
    forall h, id ensures Agree(Find(Queue(s', h), id), RowAt(s'.outbox, h, id), now) {
      assert Agree(Find(Queue(s, h), id), RowAt(s.outbox, h, id), start);
      if h == host {
        assert WellQueued(Queue(s, h), h, start);
        FindFresh(Queue(s, h), id, now);
      }
    }
  }

  // The queue and the row an accepted command leaves under each ID of its host.
  lemma InsertAgrees(q: seq<Command>, outbox: map<Key, Row>, cmd: Command, host: Host, id: Id, now: int)
    requires Agree(Find(q, id), RowAt(outbox, host, id), now)
    requires cmd.acceptedAt == now && !cmd.acked
    requires host == cmd.host ==> Find(q, cmd.id).None?
    ensures var stored := Purged(outbox, now - WINDOW)[Key(cmd.host, cmd.id) := RowOf(cmd)];
      Agree(if host == cmd.host then Find(q + [cmd], id) else Find(q, id), RowAt(stored, host, id), now)
  {
    FindAppend(q, cmd, id);
  }

  lemma AppendQueued(q: seq<Command>, cmd: Command, host: Host, now: int)
    requires WellQueued(q, host, now)
    requires cmd.acceptedAt == now && cmd.host == host && Find(q, cmd.id).None?
    ensures WellQueued(q + [cmd], host, now)
  {
    FindFound(q, cmd.id);
  }

  lemma EnqueueKeeps(s: State, host: Host, id: Id, reason: string, version: string, start: int, now: int, works: bool)
    requires Sync(s, start) && start <= now
    ensures Sync(EnqueueState(s, host, id, reason, version, now, works), now)
  {
    var s1 := Collected(s, host, now);
    CollectedKeeps(s, host, start, now);
    if EnqueueOutcome(s, host, id, reason, version, now, works) == Accepted {
      var cmd := Command(id, host, reason, now, version, false);
      AcceptKeeps(s1, cmd, now);
      assert EnqueueState(s, host, id, reason, version, now, works) ==
        State(s1.commands[host := Queue(s1, host) + [cmd]],
            Purged(s.outbox, now - WINDOW)[Key(host, id) := RowOf(cmd)]);
    }
  }

  lemma AcceptKeeps(s: State, cmd: Command, now: int)
    requires Sync(s, now)
    requires cmd.acceptedAt == now && !cmd.acked && Find(Queue(s, cmd.host), cmd.id).None?
    ensures Sync(State(s.commands[cmd.host := Queue(s, cmd.host) + [cmd]],
                       Purged(s.outbox, now - WINDOW)[Key(cmd.host, cmd.id) := RowOf(cmd)]), now)
  {
    var s' := State(s.commands[cmd.host := Queue(s, cmd.host) + [cmd]],
                    Purged(s.outbox, now - WINDOW)[Key(cmd.host, cmd.id) := RowOf(cmd)]);
    forall h ensures WellQueued(Queue(s', h), h, now) {
      assert WellQueued(Queue(s, h), h, now);
      if h == cmd.host {
        AppendQueued(Queue(s, h), cmd, h, now);
      }
    }
    forall h, x ensures Agree(Find(Queue(s', h), x), RowAt(s'.outbox, h, x), now) {
      assert Agree(Find(Queue(s, h), x), RowAt(s.outbox, h, x), now);
      InsertAgrees(Queue(s, h), s.outbox, cmd, h, x, now);
    }
  }

  lemma MarkQueued(q: seq<Command>, id: Id, host: Host, now: int)
    requires WellQueued(q, host, now)
    ensures WellQueued(MarkAcked(q, id), host, now)
  {
    MarkedShape(q, id);
  }

  lemma MarkAgrees(q: seq<Command>, outbox: map<Key, Row>, marked: Key, host: Host, id: Id, now: int)
    requires Agree(Find(q, id), RowAt(outbox, host, id), now)
    ensures Agree(if host == marked.host then Find(MarkAcked(q, marked.id), id) else Find(q, id),
                  RowAt(outbox - {marked}, host, id), now)
  {
    FindMarked(q, marked.id, id);
  }

  lemma AcknowledgeKeeps(s: State, host: Host, id: Id, now: int)
    requires Sync(s, now)
    ensures Sync(AcknowledgeState(s, host, id, true), now)
  {
    var s' := AcknowledgeState(s, host, id, true);
    assert Queue(s', host) == MarkAcked(Queue(s, host), id);
    forall h ensures WellQueued(Queue(s', h), h, now) {
      assert WellQueued(Queue(s, h), h, now);
      if h == host {
        MarkQueued(Queue(s, h), id, h, now);
      }
    }
    forall h, x ensures Agree(Find(Queue(s', h), x), RowAt(s'.outbox, h, x), now) {
      assert Agree(Find(Queue(s, h), x), RowAt(s.outbox, h, x), now);
      MarkAgrees(Queue(s, h), s.outbox, Key(host, id), h, x, now);
    }
  }

  // ------------------------------------------------------------------- restarts

  lemma {:induction false} RestoredElements(listing: seq<Entry>, host: Host)
    ensures forall e :: e in listing && e.key.host == host ==> FromEntry(e) in Restored(listing, host)
    ensures forall c :: c in Restored(listing, host) ==>
      exists e :: e in listing && e.key == Key(host, c.id) && c == FromEntry(e)
  {
    if listing != [] {
      RestoredElements(listing[1..], host);
      assert listing == [listing[0]] + listing[1..];
      assert listing[0] in listing;
      forall c | c in Restored(listing, host)
        ensures exists e :: e in listing && e.key == Key(host, c.id) && c == FromEntry(e)
      {
        if c !in Restored(listing[1..], host) {
          assert c == FromEntry(listing[0]);
        }
      }
    }
  }

  // The order restored commands come in: by millisecond, then by ID.
  predicate Precedes(a: Command, b: Command) {
    a.acceptedAt < b.acceptedAt || (a.acceptedAt == b.acceptedAt && Text.Less(a.id, b.id))
  }

  predicate StrictlySorted(cmds: seq<Command>) {
    forall i, j :: 0 <= i < j < |cmds| ==> Precedes(cmds[i], cmds[j])
  }

  ghost predicate ListedOnce(listing: seq<Entry>) {
    forall i, j :: 0 <= i < j < |listing| ==> Listed(listing[i], listing[j]) && listing[i].key != listing[j].key
  }

  lemma {:induction false} RestoredSorted(listing: seq<Entry>, host: Host)
    requires ListedOnce(listing)
    ensures Ordered(Restored(listing, host)) && StrictlySorted(Restored(listing, host))
  {
    if listing != [] {
      var rest := listing[1..];
      RestoredSorted(rest, host);
      if listing[0].key.host == host {
        var c := FromEntry(listing[0]);
        forall d | d in Restored(rest, host) ensures Precedes(c, d) && c.id != d.id {
          RestoredElements(rest, host);
          var e :| e in rest && e.key == Key(host, d.id) && d == FromEntry(e);
          var k :| 0 <= k < |rest| && rest[k] == e;
          assert rest[k] == listing[k + 1];
          if Text.Less(host, host) {
            Text.LessAsymmetric(host, host);
          }
        }
        OrderedCons(c, Restored(rest, host));
      }
    }
  }

  lemma RestoredQueue(s: State, listing: seq<Entry>, now: int, host: Host)
    ensures Queue(RestartState(s, listing, now), host) == Restored(listing, host)
  {
    RestoredElements(listing, host);
    if Restored(listing, host) != [] {
      assert Restored(listing, host)[0] in Restored(listing, host);
    }
  }

  lemma RestoredQueued(outbox: map<Key, Row>, listing: seq<Entry>, host: Host, now: int)
    requires IsListing(outbox, listing)
    requires forall k :: k in outbox ==> outbox[k].acceptedMs * MILLI <= now
    ensures WellQueued(Restored(listing, host), host, now)
  {
    RestoredSorted(listing, host);
    forall c | c in Restored(listing, host) ensures c.host == host && c.acceptedAt <= now {
      RestoredElements(listing, host);
      var e :| e in listing && e.key == Key(host, c.id) && c == FromEntry(e);
    }
  }

  lemma RestoredFind(outbox: map<Key, Row>, listing: seq<Entry>, host: Host, id: Id)
    requires IsListing(outbox, listing)
    ensures Find(Restored(listing, host), id) ==
      match RowAt(outbox, host, id)
      case Some(row) => Some(FromEntry(Entry(Key(host, id), row)))
      case None => None
  {
    RestoredElements(listing, host);
    RestoredSorted(listing, host);
    FindFound(Restored(listing, host), id);
    if RowAt(outbox, host, id).Some? {
      var e := Entry(Key(host, id), outbox[Key(host, id)]);
      assert e in listing;
      FindElement(Restored(listing, host), FromEntry(e));
    }
  }

  // Whatever a process left in the outbox, committed or half way through a call, the next
  // process starts in step with it.
  lemma RestartSyncs(s: State, listing: seq<Entry>, now: int)
    requires IsListing(Purged(s.outbox, now - WINDOW), listing)
    requires forall k :: k in s.outbox ==> s.outbox[k].acceptedMs * MILLI <= now
    ensures Sync(RestartState(s, listing, now), now)
  {
    var s' := RestartState(s, listing, now);
    forall h ensures WellQueued(Queue(s', h), h, now) {
      RestoredQueue(s, listing, now, h);
      RestoredQueued(s'.outbox, listing, h, now);
    }
    forall h, id ensures Agree(Find(Queue(s', h), id), RowAt(s'.outbox, h, id), now) {
      RestoredQueue(s, listing, now, h);
      RestoredFind(s'.outbox, listing, h, id);
    }
  }

  lemma RowsAcceptedByNow(s: State, now: int)
    requires Sync(s, now)
    ensures forall k :: k in s.outbox ==> s.outbox[k].acceptedMs * MILLI <= now
  {
    forall k | k in s.outbox ensures s.outbox[k].acceptedMs * MILLI <= now {
      if RowUnexpired(s.outbox[k], now) {
        assert Agree(Find(Queue(s, k.host), k.id), RowAt(s.outbox, k.host, k.id), now);
        FindFound(Queue(s, k.host), k.id);
        assert WellQueued(Queue(s, k.host), k.host, now);
      }
    }
  }

  lemma SyncLater(s: State, start: int, now: int)
    requires Sync(s, start) && start <= now
    ensures Sync(s, now)
  {
    forall h ensures WellQueued(Queue(s, h), h, now) {
      assert WellQueued(Queue(s, h), h, start);
    }
    forall h, id ensures Agree(Find(Queue(s, h), id), RowAt(s.outbox, h, id), now) {
      assert Agree(Find(Queue(s, h), id), RowAt(s.outbox, h, id), start);
    }
  }

  lemma StepKeepsSync(s: State, start: int, ev: Event)
    requires Sync(s, start) && Legal(s, start, [ev], ev.now)
    ensures Sync(Apply(s, ev), ev.now)
  {
    match ev.op
    case Enqueue(host, id, reason, version, works) =>
      EnqueueKeeps(s, host, id, reason, version, start, ev.now, works);
    case Consume(host) =>
      CollectedKeeps(s, host, start, ev.now);
    case Acknowledge(host, id, works) =>
      SyncLater(s, start, ev.now);
      AcknowledgeKeeps(s, host, id, ev.now);
    case Restart(listing) =>
      SyncLater(s, start, ev.now);
      RowsAcceptedByNow(s, ev.now);
      RestartSyncs(s, listing, ev.now);
  }

  // Over every run, failed inserts, failed deletes and restarts included, memory and outbox
  // stay in step.
  lemma {:induction false} AlwaysInSync(s: State, start: int, evs: seq<Event>, end: int)
    requires Sync(s, start) && Legal(s, start, evs, end)
    ensures Sync(Run(s, evs), end)
    decreases |evs|
  {
    if evs == [] {
      SyncLater(s, start, end);
    } else {
      StepKeepsSync(s, start, evs[0]);
      AlwaysInSync(Apply(s, evs[0]), evs[0].now, evs[1..], end);
    }
  }

  lemma PendingElements(s: State, host: Host, now: int)
    ensures forall c :: c in PendingOf(s, host, now) <==>
      c in Queue(s, host) && Unexpired(c.acceptedAt, now) && !c.acked
  {
    FreshElements(Queue(s, host), now);
    UnackedElements(Fresh(Queue(s, host), now));
  }

  // The unexpired rows are the pending commands, one for one.
  lemma PendingMirrorsOutbox(s: State, start: int, evs: seq<Event>, end: int, host: Host, id: Id, row: Row)
    requires Sync(s, start) && Legal(s, start, evs, end)
    requires RowUnexpired(row, end)
    ensures (exists c :: c in PendingOf(Run(s, evs), host, end) && c.id == id && RowOf(c) == row) <==>
      RowAt(Run(s, evs).outbox, host, id) == Some(row)
  {
    var s' := Run(s, evs);
    AlwaysInSync(s, start, evs, end);
    PendingElements(s', host, end);
    assert WellQueued(Queue(s', host), host, end);
    assert Agree(Find(Queue(s', host), id), RowAt(s'.outbox, host, id), end);
    if RowAt(s'.outbox, host, id) == Some(row) {
      FindFound(Queue(s', host), id);
    }
    forall c | c in PendingOf(s', host, end) && c.id == id && RowOf(c) == row
      ensures RowAt(s'.outbox, host, id) == Some(row)
    {
      FindElement(Queue(s', host), c);
    }
  }

  // ----------------------------------------------- what a restart does to pending

  function Truncated(c: Command): Command {
    c.(acceptedAt := c.acceptedAt / MILLI * MILLI)
  }

  function AllTruncated(cmds: seq<Command>): (r: seq<Command>)
    ensures |r| == |cmds|
    ensures forall i :: 0 <= i < |cmds| ==> r[i] == Truncated(cmds[i])
  {
    seq(|cmds|, i requires 0 <= i < |cmds| => Truncated(cmds[i]))
  }

  lemma {:induction false} SortedFresh(cmds: seq<Command>, t: int)
    requires StrictlySorted(cmds)
    ensures StrictlySorted(Fresh(cmds, t))
  {
    if cmds != [] {
      SortedFresh(cmds[1..], t);
      FreshElements(cmds[1..], t);
    }
  }

  lemma {:induction false} AllUnacked(cmds: seq<Command>)
    requires forall c :: c in cmds ==> !c.acked
    ensures Unacked(cmds) == cmds
  {
    if cmds != [] {
      assert cmds == [cmds[0]] + cmds[1..];
      AllUnacked(cmds[1..]);
    }
  }

  // A restarted process's pending commands are sorted and unexpired.
  lemma RestartPendingShape(s: State, listing: seq<Entry>, now: int, host: Host)
    requires IsListing(Purged(s.outbox, now - WINDOW), listing)
    ensures StrictlySorted(PendingOf(RestartState(s, listing, now), host, now))
    ensures PendingOf(RestartState(s, listing, now), host, now) == Fresh(Restored(listing, host), now)
  {
    RestoredQueue(s, listing, now, host);
    RestoredSorted(listing, host);
    SortedFresh(Restored(listing, host), now);
    RestoredElements(listing, host);
    FreshElements(Restored(listing, host), now);
    AllUnacked(Fresh(Restored(listing, host), now));
  }

  lemma KeptByRestart(s: State, listing: seq<Entry>, now: int, host: Host, p: Command)
    requires Sync(s, now)
    requires IsListing(Purged(s.outbox, now - WINDOW), listing)
    requires p in PendingOf(s, host, now) && Unexpired(Truncated(p).acceptedAt, now)
    ensures Truncated(p) in Restored(listing, host)
  {
    PendingElements(s, host, now);
    assert WellQueued(Queue(s, host), host, now);
    FindElement(Queue(s, host), p);
    assert Agree(Find(Queue(s, host), p.id), RowAt(s.outbox, host, p.id), now);
    assert RowAt(Purged(s.outbox, now - WINDOW), host, p.id) == Some(RowOf(p));
    RestoredFind(Purged(s.outbox, now - WINDOW), listing, host, p.id);
    FindFound(Restored(listing, host), p.id);
  }

  lemma AddedByRestart(s: State, listing: seq<Entry>, now: int, host: Host, c: Command)
    requires Sync(s, now)
    requires IsListing(Purged(s.outbox, now - WINDOW), listing)
    requires c in Restored(listing, host) && Unexpired(c.acceptedAt, now)
    ensures c in AllTruncated(PendingOf(s, host, now))
  {
    RestoredSorted(listing, host);
    FindElement(Restored(listing, host), c);
    RestoredFind(Purged(s.outbox, now - WINDOW), listing, host, c.id);
    assert Agree(Find(Queue(s, host), c.id), RowAt(s.outbox, host, c.id), now);
    FindFound(Queue(s, host), c.id);
    var p := Find(Queue(s, host), c.id).value;
    assert WellQueued(Queue(s, host), host, now);
    assert Truncated(p) == c;
    PendingElements(s, host, now);
    TruncatedIn(PendingOf(s, host, now), p);
  }

  // A restart keeps every pending command, with its acceptance time cut to the millisecond,
  // except one whose 24 hours end within the millisecond; and it adds none.
  lemma RestartKeepsPending(s: State, listing: seq<Entry>, now: int, host: Host, c: Command)
    requires Sync(s, now)
    requires IsListing(Purged(s.outbox, now - WINDOW), listing)
    ensures c in PendingOf(RestartState(s, listing, now), host, now) <==>
      c in AllTruncated(PendingOf(s, host, now)) && Unexpired(c.acceptedAt, now)
  {
    var before := PendingOf(s, host, now);
    RestartPendingShape(s, listing, now, host);
    FreshElements(Restored(listing, host), now);
    if c in Restored(listing, host) && Unexpired(c.acceptedAt, now) {
      AddedByRestart(s, listing, now, host, c);
    }
    if c in AllTruncated(before) && Unexpired(c.acceptedAt, now) {
      var i :| 0 <= i < |before| && AllTruncated(before)[i] == c;
      KeptByRestart(s, listing, now, host, before[i]);
    }
  }

  lemma TruncatedIn(cmds: seq<Command>, c: Command)
    requires c in cmds
    ensures Truncated(c) in AllTruncated(cmds)
  {
    var i :| 0 <= i < |cmds| && cmds[i] == c;
    assert AllTruncated(cmds)[i] == Truncated(c);
  }

  lemma PrecedesAsymmetric(a: Command, b: Command)
    requires Precedes(a, b)
    ensures !Precedes(b, a) && a != b
  {
    if a.acceptedAt == b.acceptedAt {
      Text.LessAsymmetric(a.id, b.id);
    }
  }

  lemma SortedTail(cmds: seq<Command>)
    requires StrictlySorted(cmds) && cmds != []
    ensures StrictlySorted(cmds[1..])
    ensures forall c :: c in cmds[1..] ==> Precedes(cmds[0], c) && c != cmds[0]
  {
    forall c | c in cmds[1..] ensures Precedes(cmds[0], c) && c != cmds[0] {
      PrecedesAsymmetric(cmds[0], c);
    }
  }

  // A sorted queue is determined by the commands in it.
  lemma {:induction false} SortedUnique(a: seq<Command>, b: seq<Command>)
    requires StrictlySorted(a) && StrictlySorted(b)
    requires forall c :: c in a <==> c in b
    ensures a == b
  {
    if a == [] {
      assert forall c :: c in b ==> c in a;
      assert forall i :: 0 <= i < |b| ==> b[i] in b;
    } else {
      assert a[0] in a && a[0] in b && b[0] in b && b[0] in a;
      assert a == [a[0]] + a[1..] && b == [b[0]] + b[1..];
      SortedTail(a);
      SortedTail(b);
      if a[0] != b[0] {
        PrecedesAsymmetric(a[0], b[0]);
      }
      assert forall c :: c in a[1..] <==> c in a && c != a[0];
      assert forall c :: c in b[1..] <==> c in b && c != b[0];
      SortedUnique(a[1..], b[1..]);
    }
  }

  // A restart leaves Pending as it was, up to the millisecond, exactly when commands of one
  // millisecond were accepted in ID order and none is in the last millisecond of its window.
  lemma RestartExact(s: State, listing: seq<Entry>, now: int, host: Host)
    requires Sync(s, now)
    requires IsListing(Purged(s.outbox, now - WINDOW), listing)
    ensures PendingOf(RestartState(s, listing, now), host, now) == AllTruncated(PendingOf(s, host, now)) <==>
      (var p := PendingOf(s, host, now);
       && InIdOrder(p)
       && (forall i :: 0 <= i < |p| ==> Unexpired(p[i].acceptedAt / MILLI * MILLI, now)))
  {
    var p, q := PendingOf(s, host, now), PendingOf(RestartState(s, listing, now), host, now);
    RestartPendingShape(s, listing, now, host);
    FreshElements(Restored(listing, host), now);
    PendingOrdered(s, host, now);
    if InIdOrder(p) {
      TruncatedSorted(p);
      if forall i :: 0 <= i < |p| ==> Unexpired(p[i].acceptedAt / MILLI * MILLI, now) {
        forall c ensures c in q <==> c in AllTruncated(p) {
          RestartKeepsPending(s, listing, now, host, c);
        }
        SortedUnique(q, AllTruncated(p));
      }
    }
    if q == AllTruncated(p) {
      SortedTruncated(p);
      forall i | 0 <= i < |p| ensures Unexpired(p[i].acceptedAt / MILLI * MILLI, now) {
        assert AllTruncated(p)[i] in q;
      }
    }
  }

  // Commands of one millisecond come in the order of their IDs.
  predicate InIdOrder(p: seq<Command>) {
    forall i, j :: 0 <= i < j < |p| && p[i].acceptedAt / MILLI == p[j].acceptedAt / MILLI ==>
        Text.Less(p[i].id, p[j].id)
  }

  lemma TruncatedSorted(p: seq<Command>)
    requires Ordered(p) && InIdOrder(p)
    ensures StrictlySorted(AllTruncated(p))
  {
    forall i, j | 0 <= i < j < |p| ensures Precedes(AllTruncated(p)[i], AllTruncated(p)[j]) {
      assert p[i].acceptedAt <= p[j].acceptedAt;
    }
  }

  lemma SortedTruncated(p: seq<Command>)
    requires StrictlySorted(AllTruncated(p))
    ensures InIdOrder(p)
  {
    forall i, j | 0 <= i < j < |p| && p[i].acceptedAt / MILLI == p[j].acceptedAt / MILLI
      ensures Text.Less(p[i].id, p[j].id)
    {
      assert Precedes(AllTruncated(p)[i], AllTruncated(p)[j]);
    }
  }

  lemma {:induction false} UnackedOrdered(cmds: seq<Command>)
    requires Ordered(cmds)
    ensures Ordered(Unacked(cmds))
  {
    if cmds != [] {
      OrderedTail(cmds);
      UnackedOrdered(cmds[1..]);
      UnackedElements(cmds[1..]);
      OrderedCons(cmds[0], Unacked(cmds[1..]));
    }
  }

  lemma PendingOrdered(s: State, host: Host, now: int)
    requires Sync(s, now)
    ensures Ordered(PendingOf(s, host, now))
  {
    assert WellQueued(Queue(s, host), host, now);
    FreshOrdered(Queue(s, host), now);
    UnackedOrdered(Fresh(Queue(s, host), now));
  }

  // ------------------------------------------------------------ within a process

  // What one operation does to what is pending at a later moment: an accepted command joins
  // at the end, an acknowledged one leaves, and nothing else changes for any host.
  function PendingAfter(p: seq<Command>, s: State, ev: Event, host: Host): seq<Command> {
    match ev.op
    case Enqueue(h, id, reason, version, works) =>
      if h == host && EnqueueOutcome(s, h, id, reason, version, ev.now, works) == Accepted
      then p + [Command(id, h, reason, ev.now, version, false)] else p
    case Acknowledge(h, id, works) => if h == host && works then Without(p, id) else p
    case _ => p
  }

  lemma EnqueuePending(q: seq<Command>, cmd: Command, now: int, t: int)
    requires now <= t
    ensures Unacked(Fresh(Fresh(q, now) + [cmd], t)) == Fresh(Unacked(q) + Unacked([cmd]), t)
  {
    FreshAgain(q, now, t);
    FreshAppend(Fresh(q, now), [cmd], t);
    UnackedAppend(Fresh(q, t), Fresh([cmd], t));
    UnackedFresh(q, t);
    UnackedFresh([cmd], t);
    FreshAppend(Unacked(q), Unacked([cmd]), t);
  }

  function QueueAfter(q: seq<Command>, s: State, ev: Event, host: Host): seq<Command> {
    match ev.op
    case Enqueue(h, id, reason, version, works) =>
      if h != host then q
      else if EnqueueOutcome(s, h, id, reason, version, ev.now, works) == Accepted
      then Fresh(q, ev.now) + [Command(id, h, reason, ev.now, version, false)] else Fresh(q, ev.now)
    case Acknowledge(h, id, works) => if h == host && works then MarkAcked(q, id) else q
    case Consume(h) => if h == host then Fresh(q, ev.now) else q
    case Restart(listing) => Restored(listing, host)
  }

  lemma StepQueue(s: State, ev: Event, host: Host)
    ensures Queue(Apply(s, ev), host) == QueueAfter(Queue(s, host), s, ev, host)
  {
    match ev.op
    case Restart(listing) => RestoredQueue(s, listing, ev.now, host);
    case _ =>
  }

  lemma StepPending(s: State, start: int, ev: Event, host: Host, t: int)
    requires Sync(s, start) && start <= ev.now <= t && !ev.op.Restart?
    ensures PendingOf(Apply(s, ev), host, t) == Fresh(PendingAfter(Unacked(Queue(s, host)), s, ev, host), t)
  {
    var q := Queue(s, host);
    StepQueue(s, ev, host);
    assert WellQueued(q, host, start);
    QueueAfterPending(q, s, ev, host, t);
  }

  lemma QueueAfterPending(q: seq<Command>, s: State, ev: Event, host: Host, t: int)
    requires Ordered(q) && ev.now <= t && !ev.op.Restart?
    ensures Unacked(Fresh(QueueAfter(q, s, ev, host), t)) == Fresh(PendingAfter(Unacked(q), s, ev, host), t)
  {
    UnackedFresh(q, t);
    match ev.op
    case Enqueue(h, id, reason, version, works) =>
      var cmd := Command(id, h, reason, ev.now, version, false);
      assert Unacked([cmd]) == [cmd];
      EnqueuePending(q, cmd, ev.now, t);
      FreshAgain(q, ev.now, t);
    case Acknowledge(h, id, works) =>
      UnackedFresh(MarkAcked(q, id), t);
      MarkedUnacked(q, id);
    case Consume(h) =>
      FreshAgain(q, ev.now, t);
  }

  // A queue that is never collected: what has been accepted and not acknowledged, in order.
  function Outstanding(p: seq<Command>, s: State, evs: seq<Event>, host: Host): seq<Command>
    decreases |evs|
  {
    if evs == [] then p else Outstanding(PendingAfter(p, s, evs[0], host), Apply(s, evs[0]), evs[1..], host)
  }

  predicate OneProcess(evs: seq<Event>) {
    forall ev :: ev in evs ==> !ev.op.Restart?
  }

  lemma {:induction false} LegalEnds(s: State, start: int, evs: seq<Event>, end: int)
    requires Legal(s, start, evs, end)
    ensures start <= end
    decreases |evs|
  {
    if evs != [] {
      LegalEnds(Apply(s, evs[0]), evs[0].now, evs[1..], end);
    }
  }

  lemma PendingAfterFresh(p: seq<Command>, q: seq<Command>, s: State, ev: Event, host: Host, t: int)
    requires Fresh(p, t) == Fresh(q, t)
    ensures Fresh(PendingAfter(p, s, ev, host), t) == Fresh(PendingAfter(q, s, ev, host), t)
  {
    match ev.op
    case Enqueue(h, id, reason, version, works) =>
      FreshAppend(p, [Command(id, h, reason, ev.now, version, false)], t);
      FreshAppend(q, [Command(id, h, reason, ev.now, version, false)], t);
    case Acknowledge(h, id, works) =>
      WithoutFresh(p, id, t);
      WithoutFresh(q, id, t);
    case _ =>
  }

  lemma {:induction false} OutstandingFresh(p: seq<Command>, q: seq<Command>, s: State, evs: seq<Event>, host: Host,
                                            t: int)
    requires Fresh(p, t) == Fresh(q, t)
    ensures Fresh(Outstanding(p, s, evs, host), t) == Fresh(Outstanding(q, s, evs, host), t)
    decreases |evs|
  {
    if evs != [] {
      PendingAfterFresh(p, q, s, evs[0], host, t);
      OutstandingFresh(PendingAfter(p, s, evs[0], host), PendingAfter(q, s, evs[0], host),
                       Apply(s, evs[0]), evs[1..], host, t);
    }
  }

  // Collecting lazily, one host at a time, is unobservable: what is pending is the unexpired
  // part of everything accepted and not acknowledged.
  lemma {:induction false} PendingIsOutstanding(s: State, start: int, evs: seq<Event>, end: int, host: Host)
    requires Sync(s, start) && Legal(s, start, evs, end) && OneProcess(evs)
    ensures PendingOf(Run(s, evs), host, end) == Fresh(Outstanding(Unacked(Queue(s, host)), s, evs, host), end)
    decreases |evs|
  {
    var q := Unacked(Queue(s, host));
    if evs == [] {
      UnackedFresh(Queue(s, host), end);
    } else {
      var s', ev := Apply(s, evs[0]), evs[0];
      LegalEnds(s', ev.now, evs[1..], end);
      assert ev in evs;
      StepKeepsSync(s, start, ev);
      PendingIsOutstanding(s', ev.now, evs[1..], end, host);
      StepPending(s, start, ev, host, end);
      UnackedFresh(Queue(s', host), end);
      OutstandingFresh(Unacked(Queue(s', host)), PendingAfter(q, s, ev, host), s', evs[1..], host, end);
    }
  }

  predicate Acknowledges(ev: Event, host: Host, id: Id) {
    ev.op.Acknowledge? && ev.op.host == host && ev.op.id == id && ev.op.works
  }

  // The command Consume returns, if any.
  function Oldest(s: State, host: Host, now: int): Option<Command> {
    var p := PendingOf(s, host, now);
    if p == [] then None else Some(p[0])
  }

  lemma {:induction false} HeadStays(p: seq<Command>, s: State, evs: seq<Event>, host: Host)
    requires p != []
    requires forall ev :: ev in evs ==> !Acknowledges(ev, host, p[0].id)
    ensures var out := Outstanding(p, s, evs, host); out != [] && out[0] == p[0]
    decreases |evs|
  {
    if evs != [] {
      assert evs[0] in evs;
      HeadStays(PendingAfter(p, s, evs[0], host), Apply(s, evs[0]), evs[1..], host);
    }
  }

  // Delivery is retried: the command Consume returned stays the one it returns until it is
  // acknowledged or 24 hours old.
  lemma RetriedUntilAcknowledged(s: State, start: int, evs: seq<Event>, end: int, host: Host)
    requires Sync(s, start) && Legal(s, start, evs, end) && OneProcess(evs)
    requires Oldest(s, host, start).Some?
    requires forall ev :: ev in evs ==> !Acknowledges(ev, host, Oldest(s, host, start).value.id)
    ensures end - Oldest(s, host, start).value.acceptedAt < 24 * 60 * 60 * 1_000_000_000 ==>
      Oldest(Run(s, evs), host, end) == Oldest(s, host, start)
  {
    var p := PendingOf(s, host, start);
    LegalEnds(s, start, evs, end);
    PendingIsOutstanding(s, start, evs, end, host);
    UnackedFresh(Queue(s, host), start);
    FreshAgain(Unacked(Queue(s, host)), start, end);
    OutstandingFresh(Unacked(Queue(s, host)), p, s, evs, host, end);
    HeadStays(p, s, evs, host);
  }

  // A report that carries a completion is acknowledged before the next command is taken, so
  // it is answered with the command it completes exactly when the outbox delete failed and
  // that command is still the oldest one.
  lemma CompletionRepeatedExactly(s: State, start: int, host: Host, id: Id, now: int, works: bool)
    requires Sync(s, start) && start <= now
    ensures var next := Oldest(AcknowledgeState(s, host, id, works), host, now);
      next.Some? && next.value.id == id <==>
        !works && Oldest(s, host, now).Some? && Oldest(s, host, now).value.id == id
  {
    if works {
      StepPending(s, start, Event(now, Acknowledge(host, id, true)), host, now);
      FreshElements(Without(Unacked(Queue(s, host)), id), now);
      WithoutElements(Unacked(Queue(s, host)), id);
    }
  }

  // Once accepted, an ID is known to this process for 24 hours, acknowledged or not.
  lemma StepRemembers(s: State, start: int, ev: Event, host: Host, c: Command, t: int)
    requires Sync(s, start) && Legal(s, start, [ev], ev.now) && !ev.op.Restart?
    requires ev.now <= t && Unexpired(c.acceptedAt, t)
    requires Find(Queue(s, host), c.id).Some? && Find(Queue(s, host), c.id).value.acceptedAt == c.acceptedAt
    ensures var f := Find(Queue(Apply(s, ev), host), c.id); f.Some? && f.value.acceptedAt == c.acceptedAt
  {
    assert WellQueued(Queue(s, host), host, start);
    FindFresh(Queue(s, host), c.id, ev.now);
    match ev.op
    case Enqueue(h, id, reason, version, works) =>
      FindAppend(Fresh(Queue(s, host), ev.now), Command(id, h, reason, ev.now, version, false), c.id);
    case Acknowledge(h, id, works) =>
      FindMarked(Queue(s, host), id, c.id);
    case Consume(h) =>
  }

  lemma {:induction false} RunRemembers(s: State, start: int, evs: seq<Event>, end: int, host: Host, c: Command)
    requires Sync(s, start) && Legal(s, start, evs, end) && OneProcess(evs)
    requires Unexpired(c.acceptedAt, end)
    requires Find(Queue(s, host), c.id).Some? && Find(Queue(s, host), c.id).value.acceptedAt == c.acceptedAt
    ensures var f := Find(Queue(Run(s, evs), host), c.id); f.Some? && f.value.acceptedAt == c.acceptedAt
    decreases |evs|
  {
    if evs != [] {
      assert evs[0] in evs;
      LegalEnds(Apply(s, evs[0]), evs[0].now, evs[1..], end);
      StepRemembers(s, start, evs[0], host, c, end);
      StepKeepsSync(s, start, evs[0]);
      RunRemembers(Apply(s, evs[0]), evs[0].now, evs[1..], end, host, c);
    }
  }

  // So a process accepts one ID at most once in any 24 hours: a repeat is a duplicate, whether
  // or not the first was acknowledged in between.
  lemma RepeatIsDuplicate(s: State, start: int, first: Event, evs: seq<Event>, end: int,
                          reason: string, version: string, works: bool)
    requires Sync(s, start) && Legal(s, start, [first] + evs, end) && OneProcess([first] + evs)
    requires first.op.Enqueue?
    requires EnqueueOutcome(s, first.op.host, first.op.id, first.op.reason, first.op.version, first.now,
        first.op.works) == Accepted
    requires end - first.now < 24 * 60 * 60 * 1_000_000_000
    ensures EnqueueOutcome(Run(s, [first] + evs), first.op.host, first.op.id, reason, version, end, works) == Duplicate
  {
    var host, id := first.op.host, first.op.id;
    var s1 := Apply(s, first);
    var cmd := Command(id, host, first.op.reason, first.now, first.op.version, false);
    assert ([first] + evs)[1..] == evs;
    assert forall ev :: ev in evs ==> ev in [first] + evs;
    StepKeepsSync(s, start, first);
    FindAppend(Fresh(Queue(s, host), first.now), cmd, id);
    RunRemembers(s1, first.now, evs, end, host, cmd);
    var s2 := Run(s1, evs);
    AlwaysInSync(s1, first.now, evs, end);
    assert WellQueued(Queue(s2, host), host, end);
    FindFresh(Queue(s2, host), id, end);
  }

  // Whether a command is taken: an ID is a duplicate while a command of the last 24 hours is
  // remembered under it; any other is accepted if the storage works, fewer than 1024 rows are
  // left once those older than 24 hours are purged, and none of them has its key.
  lemma EnqueueExactly(s: State, start: int, host: Host, id: Id, reason: string, version: string, now: int,
                       works: bool)
    requires Sync(s, start) && start <= now
    ensures var outcome := EnqueueOutcome(s, host, id, reason, version, now, works);
      var known := exists c :: c in Queue(s, host) && c.id == id && now - c.acceptedAt < 24 * 60 * 60 * 1_000_000_000;
      var oldest := (now - 24 * 60 * 60 * 1_000_000_000) / 1_000_000;
      var rows := set k | k in s.outbox && s.outbox[k].acceptedMs >= oldest;
      && (outcome == Duplicate <==> known)
      && (outcome == Accepted <==> !known && works && |rows| < 1024 && Key(host, id) !in rows)
  {
    var q := Queue(s, host);
    FreshElements(q, now);
    FindFound(Fresh(q, now), id);
    var kept := Purged(s.outbox, now - WINDOW);
    assert kept.Keys == set k | k in s.outbox && s.outbox[k].acceptedMs >= (now - WINDOW) / MILLI;
    assert |kept| == |kept.Keys|;
  }

  // What is pending after an accepted command is what was, and that command with its data last.
  lemma AcceptedIsPending(s: State, start: int, host: Host, id: Id, reason: string, version: string, now: int)
    requires Sync(s, start) && start <= now
    requires EnqueueOutcome(s, host, id, reason, version, now, true) == Accepted
    ensures PendingOf(EnqueueState(s, host, id, reason, version, now, true), host, now) ==
      PendingOf(s, host, now) + [Command(id, host, reason, now, version, false)]
  {
    var ev := Event(now, Enqueue(host, id, reason, version, true));
    var c := Command(id, host, reason, now, version, false);
    StepPending(s, start, ev, host, now);
    FreshAppend(Unacked(Queue(s, host)), [c], now);
    UnackedFresh(Queue(s, host), now);
    FreshCons(c, [], now);
    assert [c] + [] == [c];
  }

  // ------------------------------------------------------------- the registry

  // The in-place compaction of a queue: what is kept moves to the front in order and the
  // slots behind it are cleared.
  method CompactInPlace(cmds: array<Option<Command>>, now: int) returns (kept: nat)
    requires forall i :: 0 <= i < cmds.Length ==> cmds[i].Some?
    modifies cmds
    ensures kept <= cmds.Length
    ensures cmds[..kept] == Present(Fresh(Values(old(cmds[..])), now))
    ensures forall i :: kept <= i < cmds.Length ==> cmds[i] == None
  {
    kept := MoveUp(cmds, now);
    ghost var front := cmds[..kept];
    var j := kept;
    while j < cmds.Length
      invariant kept <= j <= cmds.Length
      invariant cmds[..kept] == front
      invariant forall k :: kept <= k < j ==> cmds[k] == None
    {
      cmds[j] := None;
      j := j + 1;
    }
  }

  method MoveUp(cmds: array<Option<Command>>, now: int) returns (kept: nat)
    requires forall i :: 0 <= i < cmds.Length ==> cmds[i].Some?
    modifies cmds
    ensures kept <= cmds.Length
    ensures cmds[..kept] == Present(Fresh(Values(old(cmds[..])), now))
  {
    ghost var was := Values(cmds[..]);
    kept := 0;
    var i := 0;
    while i < cmds.Length
      invariant 0 <= kept <= i <= cmds.Length
      invariant forall k :: i <= k < cmds.Length ==> cmds[k] == Some(was[k])
      invariant cmds[..kept] == Present(Fresh(was[..i], now))
    {
      var c := cmds[i];
      assert was[..i + 1] == was[..i] + [c.value];
      FreshSnoc(was[..i], c.value, now);
      if Unexpired(c.value.acceptedAt, now) {
        cmds[kept] := c;
        kept := kept + 1;
      }
      i := i + 1;
    }
    assert was[..i] == was;
  }

  lemma FreshSnoc(cmds: seq<Command>, c: Command, now: int)
    ensures Fresh(cmds + [c], now) == if Unexpired(c.acceptedAt, now) then Fresh(cmds, now) + [c] else Fresh(cmds, now)
  {
    FreshAppend(cmds, [c], now);
  }

  function Present(cmds: seq<Command>): (r: seq<Option<Command>>)
    ensures |r| == |cmds|
    ensures forall i :: 0 <= i < |cmds| ==> r[i] == Some(cmds[i])
  {
    seq(|cmds|, i requires 0 <= i < |cmds| => Some(cmds[i]))
  }

  function Values(cmds: seq<Option<Command>>): (r: seq<Command>)
    requires forall i :: 0 <= i < |cmds| ==> cmds[i].Some?
    ensures |r| == |cmds|
    ensures forall i :: 0 <= i < |cmds| ==> r[i] == cmds[i].value
  {
    seq(|cmds|, i requires 0 <= i < |cmds| => cmds[i].value)
  }

  class ForceUpdateState {
    var commands: map<Host, seq<Command>>
    var outbox: map<Key, Row>

    ghost function Abs(): State
      reads this
    {
      State(commands, outbox)
    }

    // Loads what the last process left.
    constructor (stored: map<Key, Row>, listing: seq<Entry>, now: int)
      ensures Abs() == RestartState(State(map[], stored), listing, now)
    {
      var queues: map<Host, seq<Command>> := map[];
      var i := 0;
      while i < |listing|
        invariant 0 <= i <= |listing|
        invariant Queued(queues, listing[..i])
      {
        var e := listing[i];
        assert listing[..i + 1] == listing[..i] + [e];
        QueueOne(queues, listing[..i], e);
        queues := queues[e.key.host := (if e.key.host in queues then queues[e.key.host] else []) + [FromEntry(e)]];
        i := i + 1;
      }
      assert listing[..i] == listing;
      commands := queues;
      outbox := Purged(stored, now - WINDOW);
    }

    method Collect(host: Host, now: int)
      modifies this
      ensures Abs() == Collected(old(Abs()), host, now)
    {
      var cmds := if host in commands then commands[host] else [];
      var kept: seq<Command> := [];
      var i := 0;
      while i < |cmds|
        invariant 0 <= i <= |cmds|
        invariant commands == old(commands) && outbox == old(outbox)
        invariant kept + Fresh(cmds[i..], now) == Fresh(cmds, now)
      {
        assert cmds[i..][1..] == cmds[i + 1..];
        if Unexpired(cmds[i].acceptedAt, now) {
          kept := kept + [cmds[i]];
        }
        i := i + 1;
      }
      assert kept + [] == kept;
      if |kept| == 0 {
        commands := commands - {host};
      } else {
        commands := commands[host := kept];
      }
    }

    method Enqueue(host: Host, id: Id, reason: string, version: string, now: int, works: bool)
      returns (outcome: Outcome, cmd: Option<Command>)
      modifies this
      ensures Abs() == EnqueueState(old(Abs()), host, id, reason, version, now, works)
      ensures outcome == EnqueueOutcome(old(Abs()), host, id, reason, version, now, works)
      ensures cmd == match outcome
                     case Accepted => Some(Command(id, host, reason, now, version, false))
                     case Duplicate => Find(Fresh(Queue(old(Abs()), host), now), id)
                     case Failed => None
    {
      Collect(host, now);
      var cmds := if host in commands then commands[host] else [];
      var i := 0;
      while i < |cmds|
        invariant 0 <= i <= |cmds|
        invariant Abs() == Collected(old(Abs()), host, now)
        invariant Find(cmds[i..], id) == Find(cmds, id)
      {
        assert cmds[i..][1..] == cmds[i + 1..];
        if cmds[i].id == id {
          return Duplicate, Some(cmds[i]);
        }
        i := i + 1;
      }
      var accepted := Command(id, host, reason, now, version, false);
      var inserted := OutboxInsert(outbox, accepted, now, works);
      if inserted.None? {
        return Failed, None;
      }
      outbox := inserted.value;
      commands := commands[host := cmds + [accepted]];
      return Accepted, Some(accepted);
    }

    method Consume(host: Host, now: int) returns (cmd: Option<Command>)
      modifies this
      ensures Abs() == Collected(old(Abs()), host, now)
      ensures cmd == Oldest(old(Abs()), host, now)
    {
      Collect(host, now);
      ghost var s1 := Abs();
      var cmds := if host in commands then commands[host] else [];
      var i := 0;
      while i < |cmds|
        invariant 0 <= i <= |cmds|
        invariant Abs() == s1
        invariant Unacked(cmds[i..]) == Unacked(cmds)
      {
        assert cmds[i..][1..] == cmds[i + 1..];
        if !cmds[i].acked {
          return Some(cmds[i]);
        }
        i := i + 1;
      }
      return None;
    }

    method Pending(host: Host, now: int) returns (out: seq<Command>)
      modifies this
      ensures Abs() == Collected(old(Abs()), host, now)
      ensures out == PendingOf(old(Abs()), host, now)
    {
      Collect(host, now);
      ghost var s1 := Abs();
      var cmds := if host in commands then commands[host] else [];
      out := [];
      var i := 0;
      while i < |cmds|
        invariant 0 <= i <= |cmds|
        invariant Abs() == s1
        invariant out + Unacked(cmds[i..]) == Unacked(cmds)
      {
        ghost var before := out;
        UnackedCons(cmds[i], cmds[i + 1..]);
        assert cmds[i..] == [cmds[i]] + cmds[i + 1..];
        if !cmds[i].acked {
          out := out + [cmds[i]];
          assert out + Unacked(cmds[i + 1..]) == before + ([cmds[i]] + Unacked(cmds[i + 1..]));
        }
        i := i + 1;
      }
      assert out + [] == out;
    }

    method Acknowledge(host: Host, id: Id, works: bool)
      modifies this
      ensures Abs() == AcknowledgeState(old(Abs()), host, id, works)
    {
      if !works {
        return;
      }
      outbox := outbox - {Key(host, id)};
      ghost var s1 := Abs();
      var cmds := if host in commands then commands[host] else [];
      var i := 0;
      while i < |cmds|
        invariant 0 <= i <= |cmds|
        invariant Abs() == s1
        invariant forall k :: 0 <= k < i ==> cmds[k].id != id
      {
        if cmds[i].id == id {
          MarkedAt(cmds, i, id);
          commands := commands[host := cmds[i := cmds[i].(acked := true)]];
          return;
        }
        i := i + 1;
      }
      MarkedAt(cmds, i, id);
    }
  }

  // Marking stops at the first command with the ID.
  lemma {:induction false} MarkedAt(cmds: seq<Command>, i: nat, id: Id)
    requires i <= |cmds|
    requires forall k :: 0 <= k < i ==> cmds[k].id != id
    requires i < |cmds| ==> cmds[i].id == id
    ensures MarkAcked(cmds, id) == if i < |cmds| then cmds[i := cmds[i].(acked := true)] else cmds
  {
    if i > 0 {
      MarkedAt(cmds[1..], i - 1, id);
    }
  }

  ghost predicate Queued(queues: map<Host, seq<Command>>, listing: seq<Entry>) {
    && queues.Keys == Hosts(listing)
    && forall h :: Restored(listing, h) == if h in queues then queues[h] else []
  }

  lemma RestoredSnoc(listing: seq<Entry>, e: Entry, host: Host)
    ensures Restored(listing + [e], host) ==
      if host == e.key.host then Restored(listing, host) + [FromEntry(e)] else Restored(listing, host)
  {
    RestoredAppend(listing, [e], host);
    assert [e][1..] == [];
  }

  lemma QueueOne(queues: map<Host, seq<Command>>, listing: seq<Entry>, e: Entry)
    requires Queued(queues, listing)
    ensures Queued(
      queues[e.key.host := (if e.key.host in queues then queues[e.key.host] else []) + [FromEntry(e)]],
      listing + [e])
  {
    HostsAppend(listing, e);
    forall h ensures Restored(listing + [e], h) ==
                     if h == e.key.host then Restored(listing, h) + [FromEntry(e)] else Restored(listing, h)
    {
      RestoredSnoc(listing, e, h);
    }
  }

  lemma {:induction false} RestoredAppend(a: seq<Entry>, b: seq<Entry>, host: Host)
    ensures Restored(a + b, host) == Restored(a, host) + Restored(b, host)
  {
    if a == [] {
      assert a + b == b;
    } else {
      RestoredAppend(a[1..], b, host);
      assert (a + b)[1..] == a[1..] + b;
    }
  }

  lemma HostsAppend(listing: seq<Entry>, e: Entry)
    ensures Hosts(listing + [e]) == Hosts(listing) + {e.key.host}
  {
    var all := listing + [e];
    assert all[|listing|] == e;
    forall i | 0 <= i < |listing| ensures all[i] == listing[i] {
    }
    forall h | h in Hosts(listing) + {e.key.host} ensures h in Hosts(all) {
      if h in Hosts(listing) {
        var i :| 0 <= i < |listing| && listing[i].key.host == h;
        assert all[i].key.host == h;
      } else {
        assert all[|listing|].key.host == h;
      }
    }
  }
}
