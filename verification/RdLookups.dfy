/** What a look-up of a host answers, in terms of the names in the records and in the query. */
module RdLookups {
  import opened Wrappers
  import opened RdCollections
  import Text

  // Letter case, blanks around a name and the root dot make no difference to a query.
  lemma LookupIgnoresSpelling(s: Snapshot, host: string, query: string)
    requires host != "" && Text.NoBlankEnds(host) && host[|host| - 1] != '.'
    ensures Lookup(s, host + ".") == Lookup(s, " " + host + "\t") == Lookup(s, host)
    ensures Text.Lower(query) == Text.Lower(host) ==> Lookup(s, query) == Lookup(s, host)
  {
    Text.CanonicalSpellings(host);
    if Text.Lower(query) == Text.Lower(host) {
      Text.CanonicalIgnoresCase(query, host);
    }
  }

  // Nor to a record.
  lemma RecordsIgnoreCase(a: seq<Record>, b: seq<Record>)
    requires |a| == |b|
    requires forall i :: 0 <= i < |a| ==>
               Text.Lower(a[i].host) == Text.Lower(b[i].host) && a[i].collection == b[i].collection
    ensures Pairs(a) == Pairs(b)
  {
    forall i | 0 <= i < |a| ensures Text.CanonicalHost(a[i].host) == Text.CanonicalHost(b[i].host) {
      Text.CanonicalIgnoresCase(a[i].host, b[i].host);
    }
  }

  // A discovery that failed, or that has a record without a host or a collection, changes nothing
  // that is published; any other is published as a whole.
  lemma RefreshExactly(s: State, ev: Event)
    requires ev.Loaded? && s.phase == Loading
    ensures Step(s, ev).published ==
      if ev.response.Records? && forall r :: r in ev.response.records ==>
           Text.CanonicalHost(r.host) != "" && Text.TrimSpace(r.collection) != ""
      then Some(ev.built) else s.published
  {
    if ev.response.Records? {
      var records := ev.response.records;
      assert forall i :: 0 <= i < |records| ==> records[i] in records;
    }
  }

  // A name that begins with this bare name: alone, or followed by a dot and a domain.
  predicate Under(bare: string, name: string) {
    |bare| <= |name| && name[..|bare|] == bare && (|name| == |bare| || name[|bare|] == '.')
  }

  lemma UnderExactly(bare: string, name: string)
    requires '.' !in bare
    ensures Under(bare, name) <==> Short(name) == bare
    ensures Under(bare, name) ==> ('.' in name <==> name != bare)
  {
    if Under(bare, name) {
      assert name == bare + name[|bare|..];
      Text.BeforeDotOf(bare, name[|bare|..]);
      if '.' in name && name == bare {
        assert false;
      }
    }
    Text.BeforeDotSplits(name);
    if Short(name) == bare {
      var rest :| name == Text.BeforeDot(name) + rest && (rest == [] || rest[0] == '.');
      assert name[..|bare|] == bare;
    }
  }

  // Every record under the bare name is of this host and this collection, and there is one.
  ghost predicate OnlyHost(records: seq<Record>, bare: string, host: string, collection: string) {
    && Under(bare, host) && collection != ""
    && (exists i :: 0 <= i < |records| &&
          Text.CanonicalHost(records[i].host) == host && Text.TrimSpace(records[i].collection) == collection)
    && (forall i | 0 <= i < |records| ::
          Under(bare, Text.CanonicalHost(records[i].host)) && Text.TrimSpace(records[i].collection) != "" ==>
            Text.CanonicalHost(records[i].host) == host && Text.TrimSpace(records[i].collection) == collection)
  }

  lemma OnlyHostPairs(records: seq<Record>, bare: string, host: string, collection: string)
    requires bare != "" && '.' !in bare && OnlyHost(records, bare, host, collection)
    ensures Unanimous(Pairs(records), host, collection) && Sole(Pairs(records), bare, host)
  {
    var pairs := Pairs(records);
    UnderExactly(bare, host);
    forall h, c | (h, c) in pairs && Short(h) == bare ensures h == host && c == collection {
      var i :| 0 <= i < |records| && Text.CanonicalHost(records[i].host) == h &&
               Text.TrimSpace(records[i].collection) == c && h != "" && c != "";
      UnderExactly(bare, h);
    }
    var i :| 0 <= i < |records| && Text.CanonicalHost(records[i].host) == host &&
             Text.TrimSpace(records[i].collection) == collection;
    assert (host, collection) in pairs;
  }

  /**
   When one host has a bare name and its records agree, a query with that bare name finds its
   collection if it names the host in full, or either of the two is bare; a query for
   the same bare name in another domain finds nothing.
   */
  lemma NameLookup(s: Snapshot, records: seq<Record>, bare: string, host: string, collection: string, query: string)
    requires Indexes(s, Pairs(records))
    requires bare != "" && '.' !in bare && OnlyHost(records, bare, host, collection)
    requires Under(bare, Text.CanonicalHost(query))
    ensures var key := Text.CanonicalHost(query);
      Lookup(s, query) == if key == host || key == bare || host == bare then collection else ""
  {
    var pairs, key := Pairs(records), Text.CanonicalHost(query);
    OnlyHostPairs(records, bare, host, collection);
    UnderExactly(bare, key);
    UnderExactly(bare, host);
    LookupIsScan(s, pairs, query);
    var expected := if key == host || key == bare || host == bare then collection else "";
    if expected == collection {
      assert StandsFor(pairs, key, host);
    } else {
      forall h, c ensures StandsFor(pairs, key, h) ==> !Unanimous(pairs, h, c) {
        assert Known(pairs, key) ==> key == host;
      }
    }
    assert ScanAnswer(pairs, key, expected);
    ScanAnswerUnique(pairs, key, Lookup(s, query), expected);
  }

  // A bare name that two hosts have, or none, answers no query, nor does one whose host has
  // records that disagree.
  lemma AmbiguousName(s: Snapshot, records: seq<Record>, bare: string, query: string)
    requires Indexes(s, Pairs(records)) && '.' !in bare && Text.CanonicalHost(query) == bare
    requires forall i :: 0 <= i < |records| && Text.TrimSpace(records[i].collection) != "" ==>
               Text.CanonicalHost(records[i].host) != bare
    requires forall host, collection :: !OnlyHost(records, bare, host, collection)
    ensures Lookup(s, query) == ""
  {
    var pairs := Pairs(records);
    LookupIsScan(s, pairs, query);
    if h, c :| StandsFor(pairs, bare, h) && Unanimous(pairs, h, c) {
      UnderExactly(bare, bare);
      SoleIsOnlyHost(records, bare, h, c);
    }
    assert ScanAnswer(pairs, bare, "");
    ScanAnswerUnique(pairs, bare, Lookup(s, query), "");
  }

  lemma SoleIsOnlyHost(records: seq<Record>, bare: string, host: string, collection: string)
    requires '.' !in bare && StandsFor(Pairs(records), bare, host) && Unanimous(Pairs(records), host, collection)
    requires Short(bare) == bare && !Known(Pairs(records), bare)
    ensures OnlyHost(records, bare, host, collection)
  {
    var pairs := Pairs(records);
    UnderExactly(bare, host);
    forall i | 0 <= i < |records| && Under(bare, Text.CanonicalHost(records[i].host)) &&
               Text.TrimSpace(records[i].collection) != ""
      ensures Text.CanonicalHost(records[i].host) == host && Text.TrimSpace(records[i].collection) == collection
    {
      var h, c := Text.CanonicalHost(records[i].host), Text.TrimSpace(records[i].collection);
      UnderExactly(bare, h);
      assert (h, c) in pairs;
      assert Known(pairs, h);
    }
  }
}
