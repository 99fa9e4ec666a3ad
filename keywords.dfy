/** The keyword list of `get_trends_batch`:
    `[k.strip() for k in keywords.split(",")[:5]]`. */
module Keywords {

  /** At most this many keywords are kept from a batch request. */
  const MaxKeywords := 5

  /** The separator of the `keywords` query parameter. */
  const Comma := ','

  /** Python's `str.isspace` for one character: the characters `str.strip()`
      removes when it is given no argument. */
  predicate IsSpace(c: char)
  {
    var n := c as int;
    || (0x09 <= n <= 0x0D) || (0x1C <= n <= 0x20)
    || n == 0x85 || n == 0xA0 || n == 0x1680 || (0x2000 <= n <= 0x200A)
    || n == 0x2028 || n == 0x2029 || n == 0x202F || n == 0x205F || n == 0x3000
  }

  predicate AllSpace(s: string)
  {
    forall i :: 0 <= i < |s| ==> IsSpace(s[i])
  }

  /** `str.lstrip()`: drops the leading whitespace. */
  function TrimStart(s: string): (r: string)
    ensures |r| <= |s| && r == s[|s| - |r|..]
    ensures AllSpace(s[..|s| - |r|])
    ensures r == [] || !IsSpace(r[0])
  {
    if s != [] && IsSpace(s[0]) then TrimStart(s[1..]) else s
  }

  /** `str.rstrip()`: drops the trailing whitespace. */
  function TrimEnd(s: string): (r: string)
    ensures |r| <= |s| && r == s[..|r|]
    ensures AllSpace(s[|r|..])
    ensures r == [] || !IsSpace(r[|r| - 1])
  {
    if s != [] && IsSpace(s[|s| - 1]) then TrimEnd(s[..|s| - 1]) else s
  }

  /** `str.strip()`: the piece of `s` left once the whitespace at both ends
      is removed. */
  function Strip(s: string): (r: string)
    ensures r == [] || (!IsSpace(r[0]) && !IsSpace(r[|r| - 1]))
    ensures exists i :: 0 <= i <= |s| - |r|
                        && r == s[i..i + |r|]
                        && AllSpace(s[..i]) && AllSpace(s[i + |r|..])
  {
    var t := TrimStart(s);
    var r := TrimEnd(t);
    var i := |s| - |t|;
    assert s[i..i + |r|] == r;
    assert s[i + |r|..] == t[|r|..];
    r
  }

  /** Python's `"sep".join(parts)`. */
  function Join(parts: seq<string>, sep: char): string
  {
    if |parts| == 0 then []
    else if |parts| == 1 then parts[0]
    else Join(parts[..|parts| - 1], sep) + [sep] + parts[|parts| - 1]
  }

  /** Python's `s.split(sep)` for a one-character separator: the pieces
      between the separators, at least one (`"".split(",") == [""]`). */
  function Split(s: string, sep: char): (parts: seq<string>)
    ensures |parts| >= 1
  {
    if s == [] then [[]]
    else
      var init := Split(s[..|s| - 1], sep);
      var c := s[|s| - 1];
      if c == sep then init + [[]]
      else init[..|init| - 1] + [init[|init| - 1] + [c]]
  }

  /** No piece holds the separator. */
  lemma {:induction false} SplitPiecesLackSeparator(s: string, sep: char)
    ensures forall i :: 0 <= i < |Split(s, sep)| ==> sep !in Split(s, sep)[i]
  {
    if s != [] {
      var init := Split(s[..|s| - 1], sep);
      SplitPiecesLackSeparator(s[..|s| - 1], sep);
      var c := s[|s| - 1];
      if c != sep {
        var n := |init| - 1;
        var parts := init[..n] + [init[n] + [c]];
        assert sep !in init[n];
        forall i | 0 <= i < |parts|
          ensures sep !in parts[i]
        {
          if i < n {
            assert parts[i] == init[i];
          } else {
            assert parts[i] == init[n] + [c];
          }
        }
      }
    }
  }

  /** Gluing the pieces back with the separator gives the input. */
  lemma {:induction false} JoinSplit(s: string, sep: char)
    ensures Join(Split(s, sep), sep) == s
  {
    if s != [] {
      var init := Split(s[..|s| - 1], sep);
      JoinSplit(s[..|s| - 1], sep);
      var c := s[|s| - 1];
      assert s == s[..|s| - 1] + [c];
      if c == sep {
        assert (init + [[]])[..|init|] == init;
      } else {
        var n := |init| - 1;
        var parts := init[..n] + [init[n] + [c]];
        assert parts[..n] == init[..n];
        if n > 0 {
          assert init[..n] == init[..|init| - 1];
        }
      }
    }
  }

  // ---------------------------------------------------------------------
  // Split is the inverse of Join

  /** Appending one non-separator character extends the last piece. */
  lemma SplitExtendsLastByOne(a: string, c: char, sep: char)
    requires c != sep
    ensures var p := Split(a, sep);
            Split(a + [c], sep) == p[..|p| - 1] + [p[|p| - 1] + [c]]
  {
    assert (a + [c])[..|a|] == a;
  }

  /** Appending separator-free text extends the last piece. */
  lemma {:induction false} SplitExtendsLast(a: string, b: string, sep: char)
    requires sep !in b
    ensures var p := Split(a, sep);
            Split(a + b, sep) == p[..|p| - 1] + [p[|p| - 1] + b]
  {
    var p := Split(a, sep);
    var m := |p| - 1;
    if b == [] {
      assert a + b == a;
      assert p[m] + b == p[m];
      assert p[..m] + [p[m]] == p;
    } else {
      var b', c := b[..|b| - 1], b[|b| - 1];
      assert b == b' + [c];
      assert sep !in b' && c != sep;
      SplitExtendsLast(a, b', sep);
      var q := p[..m] + [p[m] + b'];
      assert Split(a + b', sep) == q;
      assert a + b == (a + b') + [c];
      SplitExtendsLastByOne(a + b', c, sep);
      assert q[..m] == p[..m];
      assert p[m] + b' + [c] == p[m] + b;
    }
  }

  /** Appending a separator starts a new, empty piece. */
  lemma SplitAtSeparator(a: string, sep: char)
    ensures Split(a + [sep], sep) == Split(a, sep) + [[]]
  {
    assert (a + [sep])[..|a|] == a;
  }

  /** Splitting a joined list of separator-free pieces gives the pieces
      back: `Split` recovers exactly the fields that `Join` glued. */
  lemma {:induction false} SplitJoin(parts: seq<string>, sep: char)
    requires |parts| >= 1
    requires forall i :: 0 <= i < |parts| ==> sep !in parts[i]
    ensures Split(Join(parts, sep), sep) == parts
  {
    var n := |parts| - 1;
    var last := parts[n];
    if n == 0 {
      SplitExtendsLast([], last, sep);
      assert [] + last == last;
    } else {
      var init := parts[..n];
      SplitJoin(init, sep);
      var a := Join(init, sep) + [sep];
      SplitAtSeparator(Join(init, sep), sep);
      SplitExtendsLast(a, last, sep);
      assert (init + [[]])[..n] == init;
      assert [] + last == last;
      assert init + [last] == parts;
    }
  }

  // ---------------------------------------------------------------------
  // The keyword list

  /** `[k.strip() for k in keywords.split(",")[:5]]`. */
  function ParseKeywords(keywords: string): (list: seq<string>)
    ensures 1 <= |list| <= MaxKeywords
    ensures var fields := Split(keywords, Comma);
            |list| == (if |fields| < MaxKeywords then |fields| else MaxKeywords)
  {
    var fields := Split(keywords, Comma);
    var kept := if |fields| < MaxKeywords then fields else fields[..MaxKeywords];
    seq(|kept|, i requires 0 <= i < |kept| => Strip(kept[i]))
  }

  /** Stripping removes characters, so it adds none. */
  lemma StripKeepsOut(s: string, c: char)
    requires c !in s
    ensures c !in Strip(s)
  {
    var t := TrimStart(s);
    var r := TrimEnd(t);
    var offset := |s| - |t|;
    forall k | 0 <= k < |r|
      ensures r[k] != c
    {
      assert r[k] == t[k];
      assert t[k] == s[offset + k];
    }
  }

  /** Keyword `i` is the `i`-th comma-separated field, stripped: it holds
      no comma and starts and ends with a non-whitespace character. */
  lemma KeywordIsStrippedField(keywords: string, i: int)
    requires 0 <= i < |ParseKeywords(keywords)|
    ensures var k := ParseKeywords(keywords)[i];
            && k == Strip(Split(keywords, Comma)[i])
            && Comma !in k
            && (k == [] || (!IsSpace(k[0]) && !IsSpace(k[|k| - 1])))
  {
    var fields := Split(keywords, Comma);
    SplitPiecesLackSeparator(keywords, Comma);
    assert Comma !in fields[i];
    StripKeepsOut(fields[i], Comma);
  }

  /** Stripping twice is stripping once. */
  lemma StripIdempotent(s: string)
    ensures Strip(Strip(s)) == Strip(s)
  {
    var r := Strip(s);
    assert TrimStart(r) == r;
    assert TrimEnd(r) == r;
  }

  /** A request with no more than five comma-separated keywords, each
      written without surrounding whitespace, is parsed back to exactly
      those keywords. */
  lemma ParseCleanKeywords(list: seq<string>)
    requires 1 <= |list| <= MaxKeywords
    requires forall i :: 0 <= i < |list| ==>
               Comma !in list[i] && (list[i] == [] || (!IsSpace(list[i][0]) && !IsSpace(list[i][|list[i]| - 1])))
    ensures ParseKeywords(Join(list, Comma)) == list
  {
    SplitJoin(list, Comma);
    var parsed := ParseKeywords(Join(list, Comma));
    forall i | 0 <= i < |list|
      ensures parsed[i] == list[i]
    {
      KeywordIsStrippedField(Join(list, Comma), i);
      assert TrimStart(list[i]) == list[i];
      assert TrimEnd(list[i]) == list[i];
    }
  }
}
