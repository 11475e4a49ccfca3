/**
 The RD session collection index: host to collection, exact and by short name, rebuilt from
 the records of one discovery; and the coalescing wake-up of its refresher.
 */
module RdCollections {
  import opened Wrappers
  import Text

  datatype Record = Record(host: string, collection: string)

  datatype Value = Value(collection: string, valid: bool, shortSource: bool)

  datatype Snapshot = Snapshot(exact: map<string, Value>, short: map<string, Value>)

  const CONFLICTING := Value("", false, false)

  function Short(host: string): string {
    Text.BeforeDot(host)
  }

  // -------------------------------------------------------------- what it means

  // The host and collection of each record, normalised; records without either are skipped.
  function Pairs(records: seq<Record>): set<(string, string)> {
    set i | 0 <= i < |records| && Text.CanonicalHost(records[i].host) != "" &&
        Text.TrimSpace(records[i].collection) != "" ::
      (Text.CanonicalHost(records[i].host), Text.TrimSpace(records[i].collection))
  }

  ghost predicate Known(pairs: set<(string, string)>, host: string) {
    exists c :: (host, c) in pairs
  }

  // Every record of the host names this collection.
  ghost predicate Unanimous(pairs: set<(string, string)>, host: string, collection: string) {
    (host, collection) in pairs && forall c :: (host, c) in pairs ==> c == collection
  }

  // The only host with this short name.
  ghost predicate Sole(pairs: set<(string, string)>, short: string, host: string) {
    && short != "" && Known(pairs, host) && Short(host) == short
    && forall h :: Known(pairs, h) && Short(h) == short ==> h == host
  }

  // The host that a name stands for: itself, or the only host of its short name when either
  // of the two is a bare name.
  ghost predicate StandsFor(pairs: set<(string, string)>, key: string, host: string) {
    if Known(pairs, key) then host == key
    else Sole(pairs, Short(key), host) && ('.' !in key || '.' !in host)
  }

  // The answer of a plain scan of the records.
  ghost predicate ScanAnswer(pairs: set<(string, string)>, key: string, answer: string) {
    || (exists host :: StandsFor(pairs, key, host) && Unanimous(pairs, host, answer))
    || (answer == "" && forall host, c :: StandsFor(pairs, key, host) ==> !Unanimous(pairs, host, c))
  }

  // A scan has one answer.
  lemma ScanAnswerUnique(pairs: set<(string, string)>, key: string, a: string, b: string)
    requires ScanAnswer(pairs, key, a) && ScanAnswer(pairs, key, b)
    ensures a == b
  {
    if h :| StandsFor(pairs, key, h) && Unanimous(pairs, h, a) {
      if g :| StandsFor(pairs, key, g) && Unanimous(pairs, g, b) {
        assert g == h;
      }
    }
  }

  // The order of the records and their repetition do not matter.
  lemma PairsOfSameRecords(a: seq<Record>, b: seq<Record>)
    requires forall r :: r in a <==> r in b
    ensures Pairs(a) == Pairs(b)
  {
    PairsWithin(a, b);
    PairsWithin(b, a);
  }

  lemma PairsWithin(a: seq<Record>, b: seq<Record>)
    requires forall r :: r in a ==> r in b
    ensures Pairs(a) <= Pairs(b)
  {
    forall p | p in Pairs(a) ensures p in Pairs(b) {
      var i :| 0 <= i < |a| && p == (Text.CanonicalHost(a[i].host), Text.TrimSpace(a[i].collection));
      assert a[i] in b;
      var j :| 0 <= j < |b| && b[j] == a[i];
    }
  }

  lemma AnswerIgnoresOrder(a: seq<Record>, b: seq<Record>, query: string, x: string, y: string)
    requires forall r :: r in a <==> r in b
    requires ScanAnswer(Pairs(a), Text.CanonicalHost(query), x) && ScanAnswer(Pairs(b), Text.CanonicalHost(query), y)
    ensures x == y
  {
    PairsOfSameRecords(a, b);
    ScanAnswerUnique(Pairs(a), Text.CanonicalHost(query), x, y);
  }

  // ------------------------------------------------------------------ the index

  ghost predicate ExactFor(exact: map<string, Value>, pairs: set<(string, string)>, host: string) {
    && (host in exact <==> Known(pairs, host))
    && (host in exact ==>
          if exact[host].valid then
            Unanimous(pairs, host, exact[host].collection) && exact[host].shortSource == ('.' !in host)
          else exact[host] == CONFLICTING && forall c :: !Unanimous(pairs, host, c))
  }

  ghost predicate ShortFor(short: map<string, Value>, exact: map<string, Value>, pairs: set<(string, string)>,
                           name: string) {
    && (name in short ==>
          exists host :: Sole(pairs, name, host) && host in exact && exact[host].valid && short[name] == exact[host])
    && (name !in short ==> forall host :: Sole(pairs, name, host) ==> host in exact && !exact[host].valid)
  }

  ghost predicate Indexes(s: Snapshot, pairs: set<(string, string)>) {
    && (forall host :: ExactFor(s.exact, pairs, host))
    && (forall name :: ShortFor(s.short, s.exact, pairs, name))
  }

  // What one more record does to what is known of its host.
  lemma ExactStep(exact: map<string, Value>, pairs: set<(string, string)>, host: string, collection: string, h: string)
    requires ExactFor(exact, pairs, h)
    ensures var value :=
        if host in exact && (!exact[host].valid || exact[host].collection != collection) then CONFLICTING
        else if host !in exact then Value(collection, true, '.' !in host) else exact[host];
      ExactFor(exact[host := value], pairs + {(host, collection)}, h)
  {
    var more := pairs + {(host, collection)};
    assert forall c :: (h, c) in more <==> (h, c) in pairs || (h == host && c == collection);
    if h == host {
      assert (host, collection) in more;
      if host in exact && exact[host].valid {
        assert (host, exact[host].collection) in more;
      } else if host in exact {
        forall c ensures !Unanimous(more, host, c) {
          if Unanimous(more, host, c) {
            var c1 :| (host, c1) in pairs;
            assert Unanimous(pairs, host, c1);
          }
        }
      }
    } else {
      assert Known(more, h) <==> Known(pairs, h);
      assert forall c :: Unanimous(more, h, c) <==> Unanimous(pairs, h, c);
    }
  }

  // The hosts seen under each short name.
  ghost predicate NamesFor(names: map<string, set<string>>, pairs: set<(string, string)>) {
    && (forall s :: s in names <==> s != "" && exists h :: Known(pairs, h) && Short(h) == s)
    && (forall s, h :: s in names ==> (h in names[s] <==> Known(pairs, h) && Short(h) == s))
  }

  lemma NamesStep(names: map<string, set<string>>, pairs: set<(string, string)>, host: string, collection: string)
    requires NamesFor(names, pairs)
    ensures var s := Short(host);
      NamesFor(if s == "" then names else names[s := (if s in names then names[s] else {}) + {host}],
               pairs + {(host, collection)})
  {
    var more := pairs + {(host, collection)};
    forall h ensures Known(more, h) <==> Known(pairs, h) || h == host {
      if h == host {
        assert (host, collection) in more;
      } else if Known(pairs, h) {
        var c :| (h, c) in pairs;
        assert (h, c) in more;
      }
    }
    assert Known(more, host);
  }

  lemma PairsStep(records: seq<Record>, i: nat)
    requires i < |records|
    ensures var host, collection := Text.CanonicalHost(records[i].host), Text.TrimSpace(records[i].collection);
      Pairs(records[..i + 1]) ==
        if host == "" || collection == "" then Pairs(records[..i]) else Pairs(records[..i]) + {(host, collection)}
  {
    var before, after := records[..i], records[..i + 1];
    assert forall k :: 0 <= k < i ==> before[k] == after[k];
    assert after[i] == records[i];
    var added := (Text.CanonicalHost(records[i].host), Text.TrimSpace(records[i].collection));
    forall p ensures p in Pairs(after) <==> (p in Pairs(before) || (p == added && p.0 != "" && p.1 != ""))
    {
      if p in Pairs(before) {
        var k :| 0 <= k < i && p.0 != "" && p.1 != "" &&
                 p == (Text.CanonicalHost(before[k].host), Text.TrimSpace(before[k].collection));
        assert after[k] == before[k];
      }
    }
  }

  lemma OnlyMember(hosts: set<string>, a: string, b: string)
    requires |hosts| == 1 && a in hosts && b in hosts
    ensures a == b
  {
    var rest := hosts - {a};
    assert |rest| == 0;
    assert b !in rest;
  }

  lemma SoleIsOnly(names: map<string, set<string>>, pairs: set<(string, string)>, name: string, host: string)
    requires NamesFor(names, pairs) && Sole(pairs, name, host)
    ensures name in names && names[name] == {host}
  {
    assert Known(pairs, host) && Short(host) == name;
    assert name in names;
    assert forall h :: h in names[name] <==> Known(pairs, h) && Short(h) == name;
    assert host in names[name];
    assert forall h :: h in names[name] ==> h == host;
  }

  // One short name of the second pass.
  lemma ShortStep(names: map<string, set<string>>, exact: map<string, Value>, pairs: set<(string, string)>,
                  name: string, host: string)
    requires NamesFor(names, pairs) && (forall h :: ExactFor(exact, pairs, h))
    requires name in names && host in names[name]
    ensures host in exact
    ensures |names[name]| == 1 ==> Sole(pairs, name, host)
    ensures |names[name]| != 1 ==> forall h :: !Sole(pairs, name, h)
  {
    assert ExactFor(exact, pairs, host);
    if |names[name]| == 1 {
      forall h | Known(pairs, h) && Short(h) == name ensures h == host {
        OnlyMember(names[name], h, host);
      }
    } else {
      forall h ensures !Sole(pairs, name, h) {
        if Sole(pairs, name, h) {
          SoleIsOnly(names, pairs, name, h);
        }
      }
    }
  }

  method BuildExact(records: seq<Record>) returns (exact: map<string, Value>, names: map<string, set<string>>)
    ensures forall host :: ExactFor(exact, Pairs(records), host)
    ensures NamesFor(names, Pairs(records))
  {
    exact, names := map[], map[];
    var i := 0;
    while i < |records|
      invariant 0 <= i <= |records|
      invariant forall host :: ExactFor(exact, Pairs(records[..i]), host)
      invariant NamesFor(names, Pairs(records[..i]))
    {
      var host := Text.CanonicalHost(records[i].host);
      var collection := Text.TrimSpace(records[i].collection);
      ghost var pairs := Pairs(records[..i]);
      PairsStep(records, i);
      i := i + 1;
      if host == "" || collection == "" {
        continue;
      }
      forall h ensures ExactFor(exact, pairs, h) {
      }
      ghost var was := exact;
      if host in exact && (!exact[host].valid || exact[host].collection != collection) {
        exact := exact[host := CONFLICTING];
      } else if host !in exact {
        exact := exact[host := Value(collection, true, '.' !in host)];
      } else {
        assert exact == exact[host := exact[host]];
      }
      forall h ensures ExactFor(exact, pairs + {(host, collection)}, h) {
        ExactStep(was, pairs, host, collection, h);
      }
      NamesStep(names, pairs, host, collection);
      var short := Short(host);
      if short != "" {
        names := names[short := (if short in names then names[short] else {}) + {host}];
      }
    }
    assert records[..i] == records;
  }

  lemma NameHasHost(names: map<string, set<string>>, exact: map<string, Value>, pairs: set<(string, string)>,
                    name: string)
    requires NamesFor(names, pairs) && (forall h :: ExactFor(exact, pairs, h)) && name in names
    ensures names[name] != {}
    ensures forall host :: host in names[name] ==> host in exact
  {
    var h :| Known(pairs, h) && Short(h) == name;
    assert h in names[name];
    forall host | host in names[name] ensures host in exact {
      assert ExactFor(exact, pairs, host);
    }
  }

  // Keeps a short name when one host has it and that host's records agree.
  method BuildShort(names: map<string, set<string>>, exact: map<string, Value>, ghost pairs: set<(string, string)>)
    returns (short: map<string, Value>)
    requires NamesFor(names, pairs) && (forall h :: ExactFor(exact, pairs, h))
    ensures Filled(short, exact, pairs, {})
  {
    short := map[];
    var todo := names.Keys;
    NoneFilled(names, exact, pairs);
    while todo != {}
      invariant todo <= names.Keys
      invariant Filled(short, exact, pairs, todo)
      decreases |todo|
    {
      var name :| name in todo;
      NameHasHost(names, exact, pairs, name);
      var hosts := names[name];
      var host :| host in hosts;
      FillStep(names, short, exact, pairs, todo, name, host);
      if |hosts| == 1 && exact[host].valid {
        short := short[name := exact[host]];
      }
      todo := todo - {name};
    }
  }

  method BuildSnapshot(records: seq<Record>) returns (s: Snapshot)
    ensures Indexes(s, Pairs(records))
  {
    var exact, names := BuildExact(records);
    var short := BuildShort(names, exact, Pairs(records));
    return Snapshot(exact, short);
  }

  // The short names done so far, all but those still to do.
  ghost predicate Filled(short: map<string, Value>, exact: map<string, Value>, pairs: set<(string, string)>,
                         todo: set<string>) {
    forall name :: if name in todo then name !in short else ShortFor(short, exact, pairs, name)
  }

  lemma NoneFilled(names: map<string, set<string>>, exact: map<string, Value>, pairs: set<(string, string)>)
    requires NamesFor(names, pairs)
    ensures Filled(map[], exact, pairs, names.Keys)
  {
    forall name | name !in names.Keys ensures ShortFor(map[], exact, pairs, name) {
      forall host ensures !Sole(pairs, name, host) {
        if Sole(pairs, name, host) {
          SoleIsOnly(names, pairs, name, host);
        }
      }
    }
  }

  lemma FillStep(names: map<string, set<string>>, short: map<string, Value>, exact: map<string, Value>,
                 pairs: set<(string, string)>, todo: set<string>, name: string, host: string)
    requires NamesFor(names, pairs) && (forall h :: ExactFor(exact, pairs, h)) && Filled(short, exact, pairs, todo)
    requires name in todo && name in names && host in names[name] && host in exact
    ensures Filled(if |names[name]| == 1 && exact[host].valid then short[name := exact[host]] else short,
                   exact, pairs, todo - {name})
  {
    ShortStep(names, exact, pairs, name, host);
    var next := if |names[name]| == 1 && exact[host].valid then short[name := exact[host]] else short;
    assert name !in short;
    assert ShortFor(next, exact, pairs, name);
    forall other | other !in todo ensures ShortFor(next, exact, pairs, other) {
      assert ShortFor(short, exact, pairs, other);
    }
    forall other | other in todo && other != name ensures other !in next {
      assert other !in short;
    }
  }

  // ------------------------------------------------------------------- look-up

  function Lookup(s: Snapshot, host: string): string {
    var key := Text.CanonicalHost(host);
    if key in s.exact then (if s.exact[key].valid then s.exact[key].collection else "")
    else if Short(key) in s.short && s.short[Short(key)].valid && ('.' !in key || s.short[Short(key)].shortSource)
    then s.short[Short(key)].collection else ""
  }

  // The index answers as a scan of its records does.
  lemma LookupIsScan(s: Snapshot, pairs: set<(string, string)>, host: string)
    requires Indexes(s, pairs)
    ensures ScanAnswer(pairs, Text.CanonicalHost(host), Lookup(s, host))
  {
    var key := Text.CanonicalHost(host);
    var name := Short(key);
    assert ExactFor(s.exact, pairs, key);
    if key in s.exact {
      if s.exact[key].valid {
        assert StandsFor(pairs, key, key) && Unanimous(pairs, key, s.exact[key].collection);
      }
    } else {
      assert ShortFor(s.short, s.exact, pairs, name);
      if name in s.short {
        var h :| Sole(pairs, name, h) && h in s.exact && s.exact[h].valid && s.short[name] == s.exact[h];
        assert ExactFor(s.exact, pairs, h);
        if '.' !in key || '.' !in h {
          assert StandsFor(pairs, key, h) && Unanimous(pairs, h, s.exact[h].collection);
        }
      } else {
        forall h, c | StandsFor(pairs, key, h) ensures !Unanimous(pairs, h, c) {
          assert ExactFor(s.exact, pairs, h);
        }
      }
    }
  }

  // ---------------------------------------------------------------- the wake-up

  // What the loader gave: an error or bytes that do not decode, or records.
  datatype Response = Failed | Records(records: seq<Record>)

  // One malformed record condemns the whole response.
  predicate Accepted(response: Response) {
    response.Records? &&
    forall i :: 0 <= i < |response.records| ==>
      Text.CanonicalHost(response.records[i].host) != "" && Text.TrimSpace(response.records[i].collection) != ""
  }

  datatype Phase = Starting | ToRead | Loading | Waiting | Stopped

  // `lastRead` is the broker of the last refresh, `setters` the updates between storing the
  // broker and signalling, `responses` everything the loader has returned.
  datatype State = State(broker: string, initialized: bool, signal: bool, phase: Phase, lastRead: Option<string>,
                         setters: set<nat>, published: Option<Snapshot>, responses: seq<Response>)

  datatype Event =
    | RunStarts(initial: string)
    | ReadBroker
    | Loaded(response: Response, built: Snapshot)
    | Ticks
    | TakesSignal
    | Stops
    | SetBroker(id: nat, broker: string)
    | Signals(id: nat)

  function Step(s: State, ev: Event): State {
    match ev
    case RunStarts(initial) =>
      if s.phase != Starting then s
      else s.(broker := if s.initialized then s.broker else Text.TrimSpace(initial), initialized := true,
          phase := ToRead)
    case ReadBroker => if s.phase == ToRead then s.(lastRead := Some(s.broker), phase := Loading) else s
    case Loaded(response, built) =>
      if s.phase != Loading then s
      else s.(phase := Waiting, responses := s.responses + [response],
              published := if Accepted(response) then Some(built) else s.published)
    case Ticks => if s.phase == Waiting then s.(phase := ToRead) else s
    case TakesSignal => if s.phase == Waiting && s.signal then s.(signal := false, phase := ToRead) else s
    case Stops => if s.phase == Waiting then s.(phase := Stopped) else s
    case SetBroker(id, broker) => s.(broker := Text.TrimSpace(broker), initialized := true, setters := s.setters + {id})
    case Signals(id) => if id in s.setters then s.(signal := true, setters := s.setters - {id}) else s
  }

  function Run(s: State, evs: seq<Event>): State
    decreases |evs|
  {
    if evs == [] then s else Run(Step(s, evs[0]), evs[1..])
  }

  // What BuildSnapshot ensures of the snapshot built from an accepted response.
  ghost predicate Built(ev: Event) {
    ev.Loaded? && Accepted(ev.response) ==> Indexes(ev.built, Pairs(ev.response.records))
  }

  const NEW := State("", false, false, Starting, None, {}, None, [])

  // The records of the newest response that was accepted.
  function LastAccepted(responses: seq<Response>): Option<seq<Record>> {
    if responses == [] then None
    else if Accepted(responses[|responses| - 1]) then Some(responses[|responses| - 1].records)
    else LastAccepted(responses[..|responses| - 1])
  }

  // A broker that differs from the one last read is on its way to being read.
  predicate Awake(s: State) {
    && (s.lastRead.Some? && s.lastRead.value != s.broker && s.phase != Stopped ==>
          s.signal || s.setters != {} || s.phase == ToRead)
    && (s.phase == Starting ==> s.lastRead.None?)
  }

  lemma StepStaysAwake(s: State, ev: Event)
    requires Awake(s)
    ensures Awake(Step(s, ev))
  {
    match ev
    case SetBroker(id, _) =>
      assert id in Step(s, ev).setters;
    case _ =>
  }

  lemma {:induction false} RunStaysAwake(s: State, evs: seq<Event>)
    requires Awake(s)
    ensures Awake(Run(s, evs))
    decreases |evs|
  {
    if evs != [] {
      StepStaysAwake(s, evs[0]);
      RunStaysAwake(Step(s, evs[0]), evs[1..]);
    }
  }

  // What is published indexes the whole of the newest accepted response.
  ghost predicate UpToDate(s: State) {
    && (s.published.Some? <==> LastAccepted(s.responses).Some?)
    && (s.published.Some? ==> Indexes(s.published.value, Pairs(LastAccepted(s.responses).value)))
  }

  lemma LoadStaysUpToDate(s: State, ev: Event)
    requires UpToDate(s) && ev.Loaded? && Built(ev) && s.phase == Loading
    ensures UpToDate(Step(s, ev))
  {
    var s' := Step(s, ev);
    assert s'.responses[|s'.responses| - 1] == ev.response && s'.responses[..|s'.responses| - 1] == s.responses;
    assert LastAccepted(s'.responses) ==
           if Accepted(ev.response) then Some(ev.response.records) else LastAccepted(s.responses);
  }

  lemma StepStaysUpToDate(s: State, ev: Event)
    requires UpToDate(s) && Built(ev)
    ensures UpToDate(Step(s, ev))
  {
    if ev.Loaded? && s.phase == Loading {
      LoadStaysUpToDate(s, ev);
    } else {
      assert Step(s, ev).published == s.published && Step(s, ev).responses == s.responses;
    }
  }

  lemma {:induction false} RunStaysUpToDate(s: State, evs: seq<Event>)
    requires UpToDate(s) && forall ev :: ev in evs ==> Built(ev)
    ensures UpToDate(Run(s, evs))
    decreases |evs|
  {
    if evs != [] {
      assert evs[0] in evs;
      StepStaysUpToDate(s, evs[0]);
      RunStaysUpToDate(Step(s, evs[0]), evs[1..]);
    }
  }

  // No update is lost: when nothing is under way any more, the broker last read is the one
  // stored, however the updates and the refreshes interleaved.
  lemma NoLostWakeUp(evs: seq<Event>)
    ensures var s := Run(NEW, evs);
      s.lastRead.Some? && s.lastRead.value != s.broker && s.phase != Stopped ==>
        s.signal || s.setters != {} || s.phase == ToRead
  {
    RunStaysAwake(NEW, evs);
  }

  // In every reachable state a look-up answers as a scan of the whole of one response does, the
  // newest that was accepted, and empty before there is one.
  lemma PublishedWhole(evs: seq<Event>, host: string)
    requires forall ev :: ev in evs ==> Built(ev)
    ensures var s := Run(NEW, evs);
      match LastAccepted(s.responses)
      case Some(records) =>
        s.published.Some? && Indexes(s.published.value, Pairs(records)) &&
        ScanAnswer(Pairs(records), Text.CanonicalHost(host), Lookup(s.published.value, host))
      case None => s.published.None?
  {
    RunStaysUpToDate(NEW, evs);
    var s := Run(NEW, evs);
    if s.published.Some? {
      LookupIsScan(s.published.value, Pairs(LastAccepted(s.responses).value), host);
    }
  }

  // ------------------------------------------------------------------ the resolver

  class RdCollectionResolver {
    var broker: string
    var initialized: bool
    var signal: bool
    var snapshot: Option<Snapshot>
    ghost var published: Option<seq<Record>>

    ghost predicate Valid()
      reads this
    {
      && snapshot.Some? == published.Some?
      && (snapshot.Some? ==> Indexes(snapshot.value, Pairs(published.value)))
    }

    constructor ()
      ensures Valid() && published.None? && broker == "" && !initialized && !signal
    {
      broker, initialized, signal, snapshot, published := "", false, false, None, None;
    }

    method UpdateBroker(name: string)
      requires Valid()
      modifies this`broker, this`initialized, this`signal
      ensures Valid() && broker == Text.TrimSpace(name) && initialized && signal
    {
      broker := Text.TrimSpace(name);
      initialized := true;
      if !signal {
        signal := true;
      }
    }

    method Refresh(response: Response)
      requires Valid()
      modifies this`snapshot, this`published
      ensures Valid()
      ensures published == if Accepted(response) then Some(response.records) else old(published)
    {
      match response {
        case Failed =>
        case Records(records) =>
          var i := 0;
          while i < |records|
            invariant 0 <= i <= |records|
            invariant forall k :: 0 <= k < i ==>
              Text.CanonicalHost(records[k].host) != "" && Text.TrimSpace(records[k].collection) != ""
          {
            if Text.CanonicalHost(records[i].host) == "" || Text.TrimSpace(records[i].collection) == "" {
              return;
            }
            i := i + 1;
          }
          var built := BuildSnapshot(records);
          snapshot := Some(built);
          published := Some(records);
      }
    }

    method CollectionFor(host: string) returns (collection: string)
      requires Valid()
      ensures published.None? ==> collection == ""
      ensures published.Some? ==> ScanAnswer(Pairs(published.value), Text.CanonicalHost(host), collection)
    {
      if snapshot.None? {
        return "";
      }
      LookupIsScan(snapshot.value, Pairs(published.value), host);
      var key := Text.CanonicalHost(host);
      if key in snapshot.value.exact {
        if snapshot.value.exact[key].valid {
          return snapshot.value.exact[key].collection;
        }
        return "";
      }
      var short := Short(key);
      if short in snapshot.value.short && snapshot.value.short[short].valid &&
         ('.' !in key || snapshot.value.short[short].shortSource)
      {
        return snapshot.value.short[short].collection;
      }
      return "";
    }
  }
}
