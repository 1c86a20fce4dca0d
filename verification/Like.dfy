/** SQL LIKE with backslash escapes, and the escaping that makes user input match literally. */
module Like {

  /** `s LIKE p`. A pattern that ends in its escape character is an SQL error; it matches nothing here. */
  predicate Matches(p: string, s: string)
    decreases |p| + |s|
  {
    if p == "" then s == "" else
    if p[0] == '%' then Matches(p[1..], s) || (s != "" && Matches(p, s[1..])) else
    if p[0] == '_' then s != "" && Matches(p[1..], s[1..]) else
    if p[0] == '\\' then |p| > 1 && s != "" && s[0] == p[1] && Matches(p[2..], s[1..]) else
    s != "" && s[0] == p[0] && Matches(p[1..], s[1..])
  }

  function EscapeChar(c: char): string {
    if c == '\\' || c == '%' || c == '_' then ['\\', c] else [c]
  }

  function EscapeLike(s: string): string {
    if s == "" then "" else EscapeChar(s[0]) + EscapeLike(s[1..])
  }

  function ContentTypeToPattern(contentType: string): string {
    if contentType == "" then "" else
    EscapeLike(contentType) + (if contentType[|contentType| - 1] == '/' then "%" else "")
  }

  /** Escaped text in front of any pattern consumes exactly that text. */
  lemma {:induction false} EscapedPrefix(q: string, rest: string, s: string)
    ensures Matches(EscapeLike(q) + rest, s) <==> q <= s && Matches(rest, s[|q|..])
    decreases |q|
  {
    var p := EscapeLike(q) + rest;
    if q == "" {
      assert p == rest;
    } else {
      var tail := EscapeLike(q[1..]) + rest;
      assert p == EscapeChar(q[0]) + tail;
      if s != "" {
        EscapedPrefix(q[1..], rest, s[1..]);
        assert p[|EscapeChar(q[0])|..] == tail;
        assert q <= s <==> q[0] == s[0] && q[1..] <= s[1..] by {
          assert q == [q[0]] + q[1..] && s == [s[0]] + s[1..];
        }
        if q <= s { assert s[1..][|q[1..]|..] == s[|q|..]; }
      }
    }
  }

  lemma {:induction false} PercentMatchesAll(s: string)
    ensures Matches("%", s)
  {
    if s == "" {
      assert Matches("%"[1..], s);
    } else {
      PercentMatchesAll(s[1..]);
    }
  }

  lemma EscapedExact(q: string, s: string)
    ensures Matches(EscapeLike(q), s) <==> s == q
  {
    EscapedPrefix(q, "", s);
    assert EscapeLike(q) + "" == EscapeLike(q);
  }

  lemma EscapedIsPrefixTest(q: string, s: string)
    ensures Matches(EscapeLike(q) + "%", s) <==> q <= s
  {
    EscapedPrefix(q, "%", s);
    if q <= s { PercentMatchesAll(s[|q|..]); }
  }

  ghost predicate Contains(s: string, q: string) {
    exists i :: 0 <= i <= |s| && q <= s[i..]
  }

  /** The substring pattern built from a query matches exactly the strings that contain it. */
  lemma {:induction false} EscapedIsSubstringTest(q: string, s: string)
    ensures Matches("%" + EscapeLike(q) + "%", s) <==> Contains(s, q)
    decreases |s|
  {
    var p := "%" + EscapeLike(q) + "%";
    assert p[1..] == EscapeLike(q) + "%";
    EscapedIsPrefixTest(q, s);
    assert s[0..] == s;
    if s != "" {
      EscapedIsSubstringTest(q, s[1..]);
      if i :| 0 <= i <= |s[1..]| && q <= s[1..][i..] {
        assert s[1..][i..] == s[i + 1..];
      }
      if i :| 1 <= i <= |s| && q <= s[i..] {
        assert s[1..][i - 1..] == s[i..];
      }
    }
  }

  /** A category filter ("image/") is a prefix test, anything else an exact one; "" switches the filter off. */
  lemma ContentTypePatternMeaning(ct: string, s: string)
    requires ct != ""
    ensures ContentTypeToPattern(ct) != ""
    ensures Matches(ContentTypeToPattern(ct), s) <==> if ct[|ct| - 1] == '/' then ct <= s else s == ct
  {
    if ct[|ct| - 1] == '/' {
      EscapedIsPrefixTest(ct, s);
    } else {
      EscapedExact(ct, s);
      assert EscapeLike(ct) + "" == EscapeLike(ct);
    }
  }
}
