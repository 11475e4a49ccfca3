/**
 The duplicate-key inspection of a JSON document: a recursive descent over a decoder's tokens
 that keeps, for each open object, the set of keys seen so far.
 */
module JsonInspector {
  import opened Wrappers

  datatype Bracket = Curly | Square

  // What the decoder delivers.  Separators are consumed by it; a stretch of input it cannot
  // read is one bad token.
  datatype Token = Open(bracket: Bracket) | Close(bracket: Bracket) | Str(text: string) | Scalar | Bad

  datatype Json = Plain | Text(text: string) | Array(items: Items) | Object(members: Members)

  datatype Items = NoItems | Item(head: Json, tail: Items)

  datatype Members = NoMembers | Member(key: string, value: Json, tail: Members)

  // ------------------------------------------------------------- JSON documents

  function Encode(v: Json): seq<Token> {
    match v
    case Plain => [Scalar]
    case Text(text) => [Str(text)]
    case Array(items) => [Open(Square)] + EncodeItems(items) + [Close(Square)]
    case Object(members) => [Open(Curly)] + EncodeMembers(members) + [Close(Curly)]
  }

  function EncodeItems(items: Items): seq<Token> {
    match items
    case NoItems => []
    case Item(head, tail) => Encode(head) + EncodeItems(tail)
  }

  function EncodeMembers(members: Members): seq<Token> {
    match members
    case NoMembers => []
    case Member(key, value, tail) => [Str(key)] + Encode(value) + EncodeMembers(tail)
  }

  function Keys(members: Members): seq<string> {
    match members
    case NoMembers => []
    case Member(key, _, tail) => [key] + Keys(tail)
  }

  predicate NoRepeat(keys: seq<string>) {
    forall i, j :: 0 <= i < j < |keys| ==> keys[i] != keys[j]
  }

  // No object, at any depth, has a key twice.
  predicate Unique(v: Json) {
    match v
    case Plain => true
    case Text(_) => true
    case Array(items) => UniqueItems(items)
    case Object(members) => NoRepeat(Keys(members)) && UniqueValues(members)
  }

  predicate UniqueItems(items: Items) {
    match items
    case NoItems => true
    case Item(head, tail) => Unique(head) && UniqueItems(tail)
  }

  predicate UniqueValues(members: Members) {
    match members
    case NoMembers => true
    case Member(_, value, tail) => Unique(value) && UniqueValues(tail)
  }

  // ------------------------------------------------------------ the inspection

  // What is left of the tokens after one good value.
  function AfterValue(ts: seq<Token>): (rest: Option<seq<Token>>)
    ensures rest.Some? ==> |rest.value| < |ts|
    decreases |ts|, 1
  {
    if ts == [] then None
    else
      match ts[0]
      case Str(_) => Some(ts[1..])
      case Scalar => Some(ts[1..])
      case Open(Curly) => AfterMembers(ts[1..], {})
      case Open(Square) => AfterItems(ts[1..])
      case Close(_) => None
      case Bad => None
  }

  // After the rest of an object, its closing bracket included.
  function AfterMembers(ts: seq<Token>, seen: set<string>): (rest: Option<seq<Token>>)
    ensures rest.Some? ==> |rest.value| < |ts|
    decreases |ts|, 0
  {
    if ts == [] then None
    else
      match ts[0]
      case Close(bracket) => if bracket == Curly then Some(ts[1..]) else None
      case Str(key) =>
        if key in seen then None else
          var rest := AfterValue(ts[1..]);
          if rest.None? then None else AfterMembers(rest.value, seen + {key})
      case _ => None
  }

  function AfterItems(ts: seq<Token>): (rest: Option<seq<Token>>)
    ensures rest.Some? ==> |rest.value| < |ts|
    decreases |ts|, 2
  {
    if ts == [] then None
    else if ts[0].Close? then (if ts[0].bracket == Square then Some(ts[1..]) else None)
    else
      var rest := AfterValue(ts);
      if rest.None? then None else AfterItems(rest.value)
  }

  // --------------------------------------------------------- exact on documents

  predicate Clear(members: Members, seen: set<string>) {
    NoRepeat(Keys(members)) && UniqueValues(members) && forall k :: k in Keys(members) ==> k !in seen
  }

  lemma NoRepeatCons(key: string, rest: seq<string>)
    ensures NoRepeat([key] + rest) <==> NoRepeat(rest) && key !in rest
  {
    var keys := [key] + rest;
    assert keys[1..] == rest;
    if NoRepeat(keys) {
      forall i, j | 0 <= i < j < |rest| ensures rest[i] != rest[j] {
        assert keys[i + 1] == rest[i] && keys[j + 1] == rest[j];
      }
      forall i | 0 <= i < |rest| ensures rest[i] != key {
        assert keys[i + 1] == rest[i] && keys[0] == key;
      }
    }
  }

  lemma ClearMember(key: string, value: Json, tail: Members, seen: set<string>)
    ensures Clear(Member(key, value, tail), seen) <==> key !in seen && Unique(value) && Clear(tail, seen + {key})
  {
    NoRepeatCons(key, Keys(tail));
    assert forall k :: k in Keys(Member(key, value, tail)) <==> k == key || k in Keys(tail);
    if Clear(tail, seen + {key}) {
      assert key !in Keys(tail);
    }
  }

  lemma {:induction false} ValueExact(v: Json, rest: seq<Token>)
    ensures AfterValue(Encode(v) + rest) == if Unique(v) then Some(rest) else None
    decreases v
  {
    var ts := Encode(v) + rest;
    match v
    case Plain => assert ts[1..] == rest;
    case Text(_) => assert ts[1..] == rest;
    case Array(items) =>
      assert ts[1..] == EncodeItems(items) + ([Close(Square)] + rest);
      ItemsExact(items, rest);
    case Object(members) =>
      assert ts[1..] == EncodeMembers(members) + ([Close(Curly)] + rest);
      MembersExact(members, {}, rest);
  }

  lemma EncodingStarts(v: Json)
    ensures Encode(v) != [] && !Encode(v)[0].Close?
  {
  }

  lemma {:induction false} ItemsExact(items: Items, rest: seq<Token>)
    ensures AfterItems(EncodeItems(items) + ([Close(Square)] + rest)) == if UniqueItems(items) then Some(rest) else None
    decreases items
  {
    var closing := [Close(Square)] + rest;
    match items
    case NoItems =>
      assert EncodeItems(items) + closing == closing;
      assert closing[1..] == rest;
    case Item(head, tail) =>
      var after := EncodeItems(tail) + closing;
      assert EncodeItems(items) + closing == Encode(head) + after;
      EncodingStarts(head);
      ValueExact(head, after);
      ItemsExact(tail, rest);
  }

  lemma {:induction false} MembersExact(members: Members, seen: set<string>, rest: seq<Token>)
    ensures AfterMembers(EncodeMembers(members) + ([Close(Curly)] + rest), seen) ==
      if Clear(members, seen) then Some(rest) else None
    decreases members
  {
    var closing := [Close(Curly)] + rest;
    match members
    case NoMembers =>
      assert EncodeMembers(members) + closing == closing;
      assert closing[1..] == rest;
    case Member(key, value, tail) =>
      var after := EncodeMembers(tail) + closing;
      var ts := EncodeMembers(members) + closing;
      assert ts == [Str(key)] + (Encode(value) + after);
      assert ts[0] == Str(key) && ts[1..] == Encode(value) + after;
      ClearMember(key, value, tail, seen);
      ValueExact(value, after);
      MembersExact(tail, seen + {key}, rest);
  }

  // ------------------------------------------------- sound on any token sequence

  lemma {:induction false} ValueSound(ts: seq<Token>) returns (v: Json)
    requires AfterValue(ts).Some?
    ensures Unique(v) && ts == Encode(v) + AfterValue(ts).value
    decreases |ts|, 1
  {
    assert ts == [ts[0]] + ts[1..];
    match ts[0]
    case Str(text) => v := Text(text);
    case Scalar => v := Plain;
    case Open(Curly) =>
      var members := MembersSound(ts[1..], {});
      v := Object(members);
      assert ts == [Open(Curly)] + (EncodeMembers(members) + ([Close(Curly)] + AfterValue(ts).value));
    case Open(Square) =>
      var items := ItemsSound(ts[1..]);
      v := Array(items);
      assert ts == [Open(Square)] + (EncodeItems(items) + ([Close(Square)] + AfterValue(ts).value));
  }

  lemma {:induction false} MembersSound(ts: seq<Token>, seen: set<string>) returns (members: Members)
    requires AfterMembers(ts, seen).Some?
    ensures Clear(members, seen)
    ensures ts == EncodeMembers(members) + ([Close(Curly)] + AfterMembers(ts, seen).value)
    decreases |ts|, 0
  {
    assert ts == [ts[0]] + ts[1..];
    match ts[0]
    case Close(_) => members := NoMembers;
    case Str(key) =>
      var value := ValueSound(ts[1..]);
      var tail := MembersSound(AfterValue(ts[1..]).value, seen + {key});
      members := Member(key, value, tail);
      ClearMember(key, value, tail, seen);
      var closing := [Close(Curly)] + AfterMembers(ts, seen).value;
      assert ts == [Str(key)] + (Encode(value) + (EncodeMembers(tail) + closing));
      assert ts == ([Str(key)] + Encode(value) + EncodeMembers(tail)) + closing;
  }

  lemma {:induction false} ItemsSound(ts: seq<Token>) returns (items: Items)
    requires AfterItems(ts).Some?
    ensures UniqueItems(items)
    ensures ts == EncodeItems(items) + ([Close(Square)] + AfterItems(ts).value)
    decreases |ts|, 2
  {
    assert ts == [ts[0]] + ts[1..];
    if ts[0].Close? {
      items := NoItems;
    } else {
      var head := ValueSound(ts);
      var tail := ItemsSound(AfterValue(ts).value);
      items := Item(head, tail);
      var closing := [Close(Square)] + AfterItems(ts).value;
      assert ts == Encode(head) + (EncodeItems(tail) + closing);
      assert ts == (Encode(head) + EncodeItems(tail)) + closing;
    }
  }

  // An inspection succeeds exactly on a document without repeated keys, and leaves exactly
  // what follows it.
  lemma InspectsExactly(ts: seq<Token>, rest: seq<Token>)
    ensures AfterValue(ts) == Some(rest) <==> exists v :: Unique(v) && ts == Encode(v) + rest
  {
    if AfterValue(ts) == Some(rest) {
      var v := ValueSound(ts);
      assert Unique(v) && ts == Encode(v) + rest;
    }
    if v :| Unique(v) && ts == Encode(v) + rest {
      ValueExact(v, rest);
    }
  }

  // ------------------------------------------------------------------ the decoder

  class Decoder {
    const tokens: seq<Token>
    var pos: nat

    ghost predicate Valid()
      reads this
    {
      pos <= |tokens|
    }

    constructor (tokens: seq<Token>)
      ensures Valid() && this.tokens == tokens && pos == 0
    {
      this.tokens := tokens;
      pos := 0;
    }

    // The next token; none at the end of the input.
    method Next() returns (token: Option<Token>)
      requires Valid()
      modifies this
      ensures Valid()
      ensures old(pos) < |tokens| ==> token == Some(tokens[old(pos)]) && pos == old(pos) + 1
      ensures old(pos) == |tokens| ==> token == None && pos == old(pos)
    {
      if pos == |tokens| {
        return None;
      }
      token := Some(tokens[pos]);
      pos := pos + 1;
    }

    // Whether the open object or array has another element.
    predicate More()
      requires Valid()
      reads this
    {
      pos < |tokens| && !tokens[pos].Close?
    }

    method InspectValue() returns (ok: bool)
      requires Valid()
      modifies this
      ensures Valid() && old(pos) <= pos
      ensures ok <==> AfterValue(tokens[old(pos)..]).Some?
      ensures ok ==> tokens[pos..] == AfterValue(tokens[old(pos)..]).value && old(pos) < pos
      decreases |tokens| - pos, 1
    {
      ghost var ts := tokens[pos..];
      var token := Next();
      if token.None? || token.value.Bad? {
        return false;
      }
      if !token.value.Open? {
        return !token.value.Close?;
      }
      assert tokens[pos..] == ts[1..];
      match token.value.bracket {
        case Curly => ok := InspectMembers();
        case Square => ok := InspectItems();
      }
    }

    method InspectMembers() returns (ok: bool)
      requires Valid()
      modifies this
      ensures Valid() && old(pos) <= pos
      ensures ok <==> AfterMembers(tokens[old(pos)..], {}).Some?
      ensures ok ==> tokens[pos..] == AfterMembers(tokens[old(pos)..], {}).value
      decreases |tokens| - pos, 0
    {
      var keys: set<string> := {};
      while More()
        invariant Valid() && old(pos) <= pos
        invariant AfterMembers(tokens[pos..], keys) == AfterMembers(tokens[old(pos)..], {})
        decreases |tokens| - pos
      {
        assert tokens[pos..][0] == tokens[pos] && tokens[pos..][1..] == tokens[pos + 1..];
        var key := Next();
        if !key.value.Str? || key.value.text in keys {
          return false;
        }
        keys := keys + {key.value.text};
        var inner := InspectValue();
        if !inner {
          return false;
        }
      }
      ok := CloseWith(Curly);
    }

    method InspectItems() returns (ok: bool)
      requires Valid()
      modifies this
      ensures Valid() && old(pos) <= pos
      ensures ok <==> AfterItems(tokens[old(pos)..]).Some?
      ensures ok ==> tokens[pos..] == AfterItems(tokens[old(pos)..]).value
      decreases |tokens| - pos, 2
    {
      while More()
        invariant Valid() && old(pos) <= pos
        invariant AfterItems(tokens[pos..]) == AfterItems(tokens[old(pos)..])
        decreases |tokens| - pos
      {
        var inner := InspectValue();
        if !inner {
          return false;
        }
      }
      ok := CloseWith(Square);
    }

    method CloseWith(bracket: Bracket) returns (ok: bool)
      requires Valid() && !More()
      modifies this
      ensures Valid() && old(pos) <= pos
      ensures ok <==> old(pos) < |tokens| && tokens[old(pos)] == Close(bracket)
      ensures ok ==> pos == old(pos) + 1
    {
      var end := Next();
      ok := end == Some(Close(bracket));
    }
  }

  // Accepts exactly a document without repeated keys that is the whole input.
  method RejectDuplicateKeys(tokens: seq<Token>) returns (accepted: bool)
    ensures accepted <==> exists v :: Unique(v) && tokens == Encode(v)
  {
    var decoder := new Decoder(tokens);
    var ok := decoder.InspectValue();
    assert tokens[0..] == tokens;
    InspectsExactly(tokens, []);
    assert forall v :: Encode(v) + [] == Encode(v);
    if !ok {
      return false;
    }
    var trailing := decoder.Next();
    accepted := trailing == None;
  }
}
