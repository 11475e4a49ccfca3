/** The string operations the models need: byte order, trimming, lower case and cutting at a dot. */
module Text {

  // ------------------------------------------------------------------- ordering

  // Strict lexicographic order, as sort.Strings and SQLite's default collation use it.
  predicate Less(a: string, b: string) {
    b != [] && (a == [] || a[0] < b[0] || (a[0] == b[0] && Less(a[1..], b[1..])))
  }

  lemma {:induction false} LessTotal(a: string, b: string)
    ensures Less(a, b) || Less(b, a) || a == b
  {
    if a != [] && b != [] && a[0] == b[0] {
      LessTotal(a[1..], b[1..]);
      assert a == [a[0]] + a[1..] && b == [b[0]] + b[1..];
    }
  }

  lemma {:induction false} LessAsymmetric(a: string, b: string)
    requires Less(a, b)
    ensures !Less(b, a) && a != b
  {
    if a != [] && a[0] == b[0] {
      LessAsymmetric(a[1..], b[1..]);
    }
  }

  lemma {:induction false} LessTransitive(a: string, b: string, c: string)
    requires Less(a, b) && Less(b, c)
    ensures Less(a, c)
  {
    if a != [] && a[0] == b[0] == c[0] {
      LessTransitive(a[1..], b[1..], c[1..]);
    }
  }

  // ------------------------------------------------------ trimming and folding

  // The blanks of ASCII.
  predicate IsSpace(c: char) {
    '\t' <= c <= '\r' || c == ' '
  }

  function TrimLeft(s: string): string {
    if s != [] && IsSpace(s[0]) then TrimLeft(s[1..]) else s
  }

  function TrimRight(s: string): string {
    if s != [] && IsSpace(s[|s| - 1]) then TrimRight(s[..|s| - 1]) else s
  }

  function TrimSpace(s: string): string {
    TrimRight(TrimLeft(s))
  }

  // One trailing dot, the root label of a fully qualified name.
  function TrimDot(s: string): string {
    if s != [] && s[|s| - 1] == '.' then s[..|s| - 1] else s
  }

  function LowerChar(c: char): char {
    if 'A' <= c <= 'Z' then c + ' ' else c
  }

  function Lower(s: string): (r: string)
    ensures |r| == |s|
    ensures forall i :: 0 <= i < |s| ==> r[i] == LowerChar(s[i])
  {
    seq(|s|, i requires 0 <= i < |s| => LowerChar(s[i]))
  }

  // The part before the first dot.
  function BeforeDot(s: string): string {
    if s == [] || s[0] == '.' then [] else [s[0]] + BeforeDot(s[1..])
  }

  // A host name without surrounding blanks and without the root dot.
  function HostName(host: string): string {
    TrimDot(TrimSpace(host))
  }

  function CanonicalHost(host: string): string {
    Lower(HostName(host))
  }

  predicate NoBlankEnds(s: string) {
    s != [] ==> !IsSpace(s[0]) && !IsSpace(s[|s| - 1])
  }

  lemma {:induction false} TrimLeftStarts(s: string)
    ensures TrimLeft(s) != [] ==> !IsSpace(TrimLeft(s)[0])
  {
    if s != [] && IsSpace(s[0]) {
      TrimLeftStarts(s[1..]);
    }
  }

  lemma {:induction false} TrimRightEnds(s: string)
    ensures TrimRight(s) <= s
    ensures TrimRight(s) != [] ==> !IsSpace(TrimRight(s)[|TrimRight(s)| - 1])
  {
    if s != [] && IsSpace(s[|s| - 1]) {
      TrimRightEnds(s[..|s| - 1]);
    }
  }

  // Trimming leaves no blank at either end, and leaves such a string alone.
  lemma TrimSpaceTrims(s: string)
    ensures NoBlankEnds(TrimSpace(s))
    ensures NoBlankEnds(s) ==> TrimSpace(s) == s
  {
    TrimLeftStarts(s);
    TrimRightEnds(TrimLeft(s));
  }

  lemma {:induction false} TrimLeftShortens(s: string)
    ensures |TrimLeft(s)| <= |s|
  {
    if s != [] && IsSpace(s[0]) {
      TrimLeftShortens(s[1..]);
    }
  }

  // Trimming makes a string with a blank at an end shorter.
  lemma TrimSpaceShortens(s: string)
    ensures |TrimSpace(s)| <= |s|
    ensures !NoBlankEnds(s) ==> |TrimSpace(s)| < |s|
  {
    TrimLeftShortens(s);
    TrimRightEnds(TrimLeft(s));
    if s != [] && IsSpace(s[0]) {
      TrimLeftShortens(s[1..]);
    }
  }

  lemma TrimSpaceTwice(s: string)
    ensures TrimSpace(TrimSpace(s)) == TrimSpace(s)
  {
    TrimSpaceTrims(s);
    TrimSpaceTrims(TrimSpace(s));
  }

  lemma LowerTwice(s: string)
    ensures Lower(Lower(s)) == Lower(s)
  {
  }

  lemma {:induction false} TrimLeftLower(s: string)
    ensures TrimLeft(Lower(s)) == Lower(TrimLeft(s))
  {
    if s != [] && IsSpace(s[0]) {
      assert Lower(s)[1..] == Lower(s[1..]);
      TrimLeftLower(s[1..]);
    }
  }

  lemma {:induction false} TrimRightLower(s: string)
    ensures TrimRight(Lower(s)) == Lower(TrimRight(s))
  {
    if s != [] && IsSpace(s[|s| - 1]) {
      assert Lower(s)[..|s| - 1] == Lower(s[..|s| - 1]);
      TrimRightLower(s[..|s| - 1]);
    }
  }

  // Folding case neither makes nor removes a blank or a dot.
  lemma TrimLower(s: string)
    ensures TrimSpace(Lower(s)) == Lower(TrimSpace(s))
    ensures TrimDot(Lower(s)) == Lower(TrimDot(s))
  {
    TrimLeftLower(s);
    TrimRightLower(TrimLeft(s));
    if s != [] && s[|s| - 1] == '.' {
      assert Lower(s)[..|s| - 1] == Lower(s[..|s| - 1]);
    }
  }

  // ------------------------------------------------------- cutting at a dot

  lemma {:induction false} BeforeDotSplits(s: string)
    ensures exists rest :: s == BeforeDot(s) + rest && (rest == [] || rest[0] == '.')
    ensures '.' !in BeforeDot(s)
  {
    if s != [] && s[0] != '.' {
      BeforeDotSplits(s[1..]);
      var rest :| s[1..] == BeforeDot(s[1..]) + rest && (rest == [] || rest[0] == '.');
      assert s == [s[0]] + s[1..];
      assert s == BeforeDot(s) + rest;
    } else {
      assert BeforeDot(s) == [] && s == BeforeDot(s) + s;
    }
  }

  lemma {:induction false} BeforeDotOf(short: string, rest: string)
    requires '.' !in short && (rest == [] || rest[0] == '.')
    ensures BeforeDot(short + rest) == short
  {
    if short == [] {
      assert short + rest == rest;
    } else {
      assert (short + rest)[1..] == short[1..] + rest;
      assert short[0] in short;
      BeforeDotOf(short[1..], rest);
    }
  }

  lemma {:induction false} BeforeDotLower(s: string)
    ensures BeforeDot(Lower(s)) == Lower(BeforeDot(s))
  {
    if s != [] && s[0] != '.' {
      assert Lower(s)[1..] == Lower(s[1..]);
      BeforeDotLower(s[1..]);
    }
  }

  lemma DotInLower(s: string)
    ensures '.' in Lower(s) <==> '.' in s
  {
    if '.' in s {
      var i :| 0 <= i < |s| && s[i] == '.';
      assert Lower(s)[i] == '.';
    }
  }

  // The letters change case, everything else stays.
  lemma LowerLetters(c: char)
    ensures Lower("ABCDEFGHIJKLMNOPQRSTUVWXYZ") == "abcdefghijklmnopqrstuvwxyz"
    ensures c !in "ABCDEFGHIJKLMNOPQRSTUVWXYZ" ==> Lower([c]) == [c]
  {
    var upper := "ABCDEFGHIJKLMNOPQRSTUVWXYZ";
    if 'A' <= c <= 'Z' {
      assert upper[c as int - 'A' as int] == c;
    }
  }

  // Names that differ in case only stand for one host.
  lemma CanonicalIgnoresCase(a: string, b: string)
    requires Lower(a) == Lower(b)
    ensures CanonicalHost(a) == CanonicalHost(b)
  {
    CanonicalOfLower(a);
    CanonicalOfLower(b);
  }

  lemma CanonicalOfLower(host: string)
    ensures CanonicalHost(host) == HostName(Lower(host))
  {
    TrimLower(host);
    TrimLower(TrimSpace(host));
  }

  // Nor do blanks around the name, or one dot at its end, matter.
  lemma CanonicalSpellings(host: string)
    requires host != "" && NoBlankEnds(host) && host[|host| - 1] != '.'
    ensures CanonicalHost(host) == Lower(host) && CanonicalHost(host + ".") == Lower(host)
    ensures CanonicalHost(" " + host + "\t") == Lower(host)
  {
    TrimSpaceTrims(host);
    TrimSpaceTrims(host + ".");
    assert (host + ".")[..|host|] == host;
    var padded := " " + host + "\t";
    assert padded[1..] == host + "\t" && (host + "\t")[..|host|] == host;
    assert TrimLeft(padded) == TrimLeft(host + "\t") == host + "\t";
    assert TrimRight(host + "\t") == TrimRight(host) == host;
  }
}
