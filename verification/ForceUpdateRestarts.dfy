/**
 What a restart does to the promises of the force-update registry: when a repeated command is
 still recognised, and runs in which it is not or in which the pending commands change order.
 */
module ForceUpdateRestarts {
  import opened Wrappers
  import opened ForceUpdate
  import Text

  // A new process recognises an ID exactly when its command was pending and, cut to the
  // millisecond, is still in its window.
  lemma RecognisedAfterRestart(s: State, listing: seq<Entry>, now: int, host: Host, id: Id,
                               reason: string, version: string, works: bool)
    requires Sync(s, now)
    requires IsListing(Purged(s.outbox, now - WINDOW), listing)
    ensures EnqueueOutcome(RestartState(s, listing, now), host, id, reason, version, now, works) == Duplicate <==>
      exists c :: c in PendingOf(s, host, now) && c.id == id && Unexpired(Truncated(c).acceptedAt, now)
  {
    var before := PendingOf(s, host, now);
    var after := Fresh(Restored(listing, host), now);
    RestartPendingShape(s, listing, now, host);
    RestoredQueue(s, listing, now, host);
    FindFound(after, id);
    if Find(after, id).Some? {
      var c := Find(after, id).value;
      RestartKeepsPending(s, listing, now, host, c);
      var i :| 0 <= i < |before| && AllTruncated(before)[i] == c;
      assert before[i] in before;
    }
    if p :| p in before && p.id == id && Unexpired(Truncated(p).acceptedAt, now) {
      TruncatedIn(before, p);
      RestartKeepsPending(s, listing, now, host, Truncated(p));
    }
  }

  // So a restart leaves the answer about an ID as it was exactly when no command known under
  // it was acknowledged, or is in the last millisecond of its window.
  lemma IdempotencySurvivesExactly(s: State, listing: seq<Entry>, now: int, host: Host, id: Id,
                                   reason: string, version: string, works: bool)
    requires Sync(s, now)
    requires IsListing(Purged(s.outbox, now - WINDOW), listing)
    ensures (EnqueueOutcome(RestartState(s, listing, now), host, id, reason, version, now, works) == Duplicate <==>
             EnqueueOutcome(s, host, id, reason, version, now, works) == Duplicate) <==>
      forall c :: c in Fresh(Queue(s, host), now) && c.id == id ==> !c.acked && Unexpired(Truncated(c).acceptedAt, now)
  {
    var known := Fresh(Queue(s, host), now);
    RecognisedAfterRestart(s, listing, now, host, id, reason, version, works);
    assert WellQueued(Queue(s, host), host, now);
    FreshOrdered(Queue(s, host), now);
    FindFound(known, id);
    UnackedElements(known);
    forall c | c in known && c.id == id ensures Find(known, id) == Some(c) {
      FindElement(known, c);
    }
  }

  // The memory of acknowledged IDs does not outlive the process: after a restart the same ID
  // is accepted again inside the window.
  lemma AcknowledgedIdReturnsAfterRestart(host: Host, id: Id, reason: string, version: string, now: int)
    ensures var evs := [Event(now, Enqueue(host, id, reason, version, true)),
                        Event(now, Acknowledge(host, id, true)), Event(now, Restart([]))];
      && Legal(State(map[], map[]), now, evs, now)
      && EnqueueOutcome(Run(State(map[], map[]), evs), host, id, reason, version, now, true) == Accepted
  {
    var s0 := State(map[], map[]);
    var e1, e2 := Event(now, Enqueue(host, id, reason, version, true)), Event(now, Acknowledge(host, id, true));
    var e3 := Event(now, Restart([]));
    var s1 := Apply(s0, e1);
    var s2 := Apply(s1, e2);
    var s3 := Apply(s2, e3);
    assert s1.outbox.Keys == {Key(host, id)};
    assert s2.outbox == map[];
    assert s3.outbox == map[];
    assert s3.commands == map[];
    assert [e1, e2, e3][1..] == [e2, e3] && [e2, e3][1..] == [e3] && [e3][1..] == [];
    assert Legal(s3, now, [], now);
    assert Legal(s2, now, [e3], now);
    assert Legal(s1, now, [e2, e3], now);
    assert Run(s2, [e3]) == s3;
    assert Run(s1, [e2, e3]) == s3;
    assert Purged(s3.outbox, now - WINDOW) == map[];
  }

  function First(host: Host): Command {
    Command("b", host, "", 0, "", false)
  }

  function Second(host: Host): Command {
    Command("a", host, "", 1, "", false)
  }

  function AfterFirst(host: Host): State {
    State(map[host := [First(host)]], map[Key(host, "b") := Row("", 0, "")])
  }

  function AfterBoth(host: Host): State {
    State(map[host := [First(host), Second(host)]],
          map[Key(host, "b") := Row("", 0, ""), Key(host, "a") := Row("", 0, "")])
  }

  lemma RequeueAbsorbs(commands: map<Host, seq<Command>>, host: Host, q: seq<Command>, r: seq<Command>)
    ensures WithQueue(commands, host, q)[host := r] == commands[host := r]
  {
  }

  lemma CollectedQueue(s: State, host: Host, now: int)
    ensures Queue(Collected(s, host, now), host) == Fresh(Queue(s, host), now)
  {
  }

  // What an accepted command leaves, when nothing is collected or purged.
  lemma AcceptedState(s: State, c: Command, q: seq<Command>)
    requires q == Queue(s, c.host) && Fresh(q, c.acceptedAt) == q && Find(q, c.id).None?
    requires OutboxInsert(s.outbox, c, c.acceptedAt, true).Some? && !c.acked
    ensures EnqueueState(s, c.host, c.id, c.reason, c.version, c.acceptedAt, true) ==
      State(s.commands[c.host := q + [c]], OutboxInsert(s.outbox, c, c.acceptedAt, true).value)
  {
    CollectedQueue(s, c.host, c.acceptedAt);
    RequeueAbsorbs(s.commands, c.host, q, q + [c]);
    assert c == Command(c.id, c.host, c.reason, c.acceptedAt, c.version, false);
  }

  lemma Inserted(outbox: map<Key, Row>, c: Command)
    requires Purged(outbox, c.acceptedAt - WINDOW) == outbox && |outbox| < CAPACITY && Key(c.host, c.id) !in outbox
    ensures OutboxInsert(outbox, c, c.acceptedAt, true) == Some(outbox[Key(c.host, c.id) := RowOf(c)])
  {
  }

  lemma FirstAccepted(host: Host)
    ensures Apply(State(map[], map[]), Event(0, Enqueue(host, "b", "", "", true))) == AfterFirst(host)
  {
    var s0 := State(map[], map[]);
    assert Purged(s0.outbox, 0 - WINDOW) == s0.outbox;
    Inserted(s0.outbox, First(host));
    AcceptedState(s0, First(host), []);
    assert [] + [First(host)] == [First(host)];
  }

  lemma SecondAccepted(host: Host)
    ensures Apply(AfterFirst(host), Event(1, Enqueue(host, "a", "", "", true))) == AfterBoth(host)
  {
    var s := AfterFirst(host);
    assert Purged(s.outbox, 1 - WINDOW) == s.outbox;
    assert s.outbox.Keys == {Key(host, "b")};
    Inserted(s.outbox, Second(host));
    FreshCons(First(host), [], 1);
    assert [First(host)] + [] == [First(host)] && [First(host)][1..] == [];
    AcceptedState(s, Second(host), [First(host)]);
    assert [First(host)] + [Second(host)] == [First(host), Second(host)];
  }

  lemma BothListed(host: Host)
    ensures IsListing(Purged(AfterBoth(host).outbox, 1 - WINDOW),
                      [Entry(Key(host, "a"), Row("", 0, "")), Entry(Key(host, "b"), Row("", 0, ""))])
  {
    var outbox := AfterBoth(host).outbox;
    assert Purged(outbox, 1 - WINDOW) == outbox;
    assert Text.Less("a", "b");
  }

  lemma BothPending(host: Host)
    ensures PendingOf(AfterBoth(host), host, 1) == [First(host), Second(host)]
  {
    FreshCons(First(host), [Second(host)], 1);
    FreshCons(Second(host), [], 1);
    UnackedCons(First(host), [Second(host)]);
    UnackedCons(Second(host), []);
    assert [First(host)] + [Second(host)] == [First(host), Second(host)] && [Second(host)] + [] == [Second(host)];
  }

  lemma BothInSync(host: Host)
    ensures Sync(AfterBoth(host), 1)
  {
    var s0 := State(map[], map[]);
    FirstAccepted(host);
    SecondAccepted(host);
    assert Sync(s0, 0);
    EnqueueKeeps(s0, host, "b", "", "", 0, 0, true);
    EnqueueKeeps(AfterFirst(host), host, "a", "", "", 0, 1, true);
  }

  function AcceptBoth(host: Host): seq<Event> {
    [Event(0, Enqueue(host, "b", "", "", true)), Event(1, Enqueue(host, "a", "", "", true))]
  }

  function BothRows(host: Host): seq<Entry> {
    [Entry(Key(host, "a"), Row("", 0, "")), Entry(Key(host, "b"), Row("", 0, ""))]
  }

  lemma RunTwo(s: State, e1: Event, e2: Event)
    ensures Run(s, [e1, e2]) == Apply(Apply(s, e1), e2)
  {
    assert [e1, e2][1..] == [e2] && [e2][1..] == [];
    assert Run(Apply(s, e1), [e2]) == Apply(Apply(s, e1), e2);
  }

  lemma RunThree(s: State, e1: Event, e2: Event, e3: Event)
    requires e1.now <= e2.now <= e3.now && !e1.op.Restart? && !e2.op.Restart?
    requires e3.op.Restart? ==> IsListing(Purged(Apply(Apply(s, e1), e2).outbox, e3.now - WINDOW), e3.op.listing)
    ensures Legal(s, e1.now, [e1, e2, e3], e3.now)
    ensures Run(s, [e1, e2, e3]) == Apply(Apply(Apply(s, e1), e2), e3)
  {
    assert [e1, e2, e3][1..] == [e2, e3] && [e2, e3][1..] == [e3] && [e3][1..] == [];
    RunTwo(Apply(s, e1), e2, e3);
    var s2 := Apply(Apply(s, e1), e2);
    assert Legal(Apply(s2, e3), e3.now, [], e3.now);
    assert Legal(s2, e2.now, [e3], e3.now);
  }

  lemma BothReached(host: Host)
    ensures var s0, restart := State(map[], map[]), [Event(1, Restart(BothRows(host)))];
      && Run(s0, AcceptBoth(host)) == AfterBoth(host)
      && Legal(s0, 0, AcceptBoth(host) + restart, 1)
      && Run(s0, AcceptBoth(host) + restart) == RestartState(AfterBoth(host), BothRows(host), 1)
  {
    var s0 := State(map[], map[]);
    var e1, e2, e3 := AcceptBoth(host)[0], AcceptBoth(host)[1], Event(1, Restart(BothRows(host)));
    FirstAccepted(host);
    SecondAccepted(host);
    BothListed(host);
    assert AcceptBoth(host) + [e3] == [e1, e2, e3];
    RunTwo(s0, e1, e2);
    RunThree(s0, e1, e2, e3);
  }

  // Two commands accepted in one millisecond, not in the order of their IDs: the restarted
  // process holds them the other way round.
  lemma RestartReorders(host: Host)
    ensures var s0, restart := State(map[], map[]), [Event(1, Restart(BothRows(host)))];
      && Legal(s0, 0, AcceptBoth(host) + restart, 1)
      && PendingOf(Run(s0, AcceptBoth(host) + restart), host, 1)
           != AllTruncated(PendingOf(Run(s0, AcceptBoth(host)), host, 1))
  {
    BothReached(host);
    BothListed(host);
    BothInSync(host);
    BothPending(host);
    BothOutOfOrder(host);
    RestartExact(AfterBoth(host), BothRows(host), 1, host);
  }

  lemma BothOutOfOrder(host: Host)
    ensures !InIdOrder([First(host), Second(host)])
  {
    var p := [First(host), Second(host)];
    assert Text.Less("a", "b");
    Text.LessAsymmetric("a", "b");
    assert p[0].acceptedAt / MILLI == p[1].acceptedAt / MILLI && !Text.Less(p[0].id, p[1].id);
  }
}
