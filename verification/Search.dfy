/** File search (internal/store/store.go): escapeLike under SQLite's LIKE with ESCAPE '\'. */
module Search {
  import opened Text

  function EscapeChar(c: char): string {
    if c == '\\' || c == '%' || c == '_' then ['\\', c] else [c]
  }

  /** strings.NewReplacer replaces in one pass, so nothing is escaped twice. */
  function EscapeLike(s: string): string {
    if s == "" then "" else EscapeChar(s[0]) + EscapeLike(s[1..])
  }

  /** SQLite's LIKE: `%` any run, `_` any one character, `\` the next character itself; ASCII letters fold. */
  predicate Like(pattern: string, s: string)
    decreases |pattern| + |s|
  {
    if pattern == "" then s == ""
    else if pattern[0] == '%' then Like(pattern[1..], s) || (s != "" && Like(pattern, s[1..]))
    else if s == "" then false
    else if pattern[0] == '_' then Like(pattern[1..], s[1..])
    else if pattern[0] == '\\' then |pattern| > 1 && Lower(pattern[1]) == Lower(s[0]) && Like(pattern[2..], s[1..])
    else Lower(pattern[0]) == Lower(s[0]) && Like(pattern[1..], s[1..])
  }

  predicate OccursAt(q: string, s: string, k: nat) {
    k + |q| <= |s| && EqualFold(s[k..k + |q|], q)
  }

  predicate Contains(s: string, q: string) {
    exists k: nat :: k <= |s| && OccursAt(q, s, k)
  }

  function SearchPattern(q: string): string {
    "%" + EscapeLike(q) + "%"
  }

  lemma {:induction false} PercentSkips(p: string, s: string)
    ensures Like("%" + p, s) <==> exists k: nat :: k <= |s| && Like(p, s[k..])
  {
    assert ("%" + p)[1..] == p;
    assert s[0..] == s;
    if s != "" {
      PercentSkips(p, s[1..]);
      if k: nat :| k <= |s| && Like(p, s[k..]) {
        if k > 0 {
          assert s[1..][k - 1..] == s[k..];
        }
      }
      if j: nat :| j <= |s[1..]| && Like(p, s[1..][j..]) {
        assert s[1..][j..] == s[j + 1..];
      }
    }
  }

  lemma LiteralStep(c: char, rest: string, s: string)
    ensures Like(EscapeChar(c) + rest, s) <==> s != "" && Lower(c) == Lower(s[0]) && Like(rest, s[1..])
  {
    assert (['\\', c] + rest)[2..] == rest;
    assert ([c] + rest)[1..] == rest;
  }

  lemma {:induction false} LiteralPrefix(q: string, rest: string, s: string)
    ensures Like(EscapeLike(q) + rest, s) <==> OccursAt(q, s, 0) && Like(rest, s[|q|..])
  {
    if q == "" {
      assert EscapeLike(q) + rest == rest;
      assert s[0..] == s && s[0..0] == "";
    } else {
      assert EscapeLike(q) + rest == EscapeChar(q[0]) + (EscapeLike(q[1..]) + rest);
      LiteralStep(q[0], EscapeLike(q[1..]) + rest, s);
      if s != "" {
        LiteralPrefix(q[1..], rest, s[1..]);
        FoldStep(q, s);
        if |q| <= |s| {
          assert s[1..][|q| - 1..] == s[|q|..];
        }
      }
    }
  }

  lemma FoldStep(q: string, s: string)
    requires q != "" && s != ""
    ensures OccursAt(q, s, 0) <==> Lower(q[0]) == Lower(s[0]) && OccursAt(q[1..], s[1..], 0)
  {
    if |q| <= |s| {
      var a, b := ToLower(s[..|q|]), ToLower(q);
      var c, d := ToLower(s[1..][..|q| - 1]), ToLower(q[1..]);
      assert s[0..|q|] == s[..|q|] && s[1..][0..|q| - 1] == s[1..][..|q| - 1];
      assert a == [Lower(s[0])] + c;
      assert b == [Lower(q[0])] + d;
    }
  }

  /** Search is literal substring search, for every query and text, up to ASCII case. */
  lemma SearchIsContains(q: string, s: string)
    ensures Like(SearchPattern(q), s) <==> Contains(s, q)
  {
    var body := EscapeLike(q) + "%";
    assert SearchPattern(q) == "%" + body;
    PercentSkips(body, s);
    forall k: nat | k <= |s| ensures Like(body, s[k..]) <==> OccursAt(q, s, k) {
      LiteralPrefix(q, "%", s[k..]);
      if k + |q| <= |s| {
        assert s[k..][0..|q|] == s[k..k + |q|];
        PercentSkips("", s[k..][|q|..]);
        var t := s[k..][|q|..];
        assert t[|t|..] == "";
        assert "%" + "" == "%";
      }
    }
  }

  /** No character of the query acts as a wildcard: the escaped pattern alone matches only the query. */
  lemma EscapedMatchesItself(q: string, s: string)
    ensures Like(EscapeLike(q), s) <==> EqualFold(s, q)
  {
    LiteralPrefix(q, "", s);
    assert EscapeLike(q) + "" == EscapeLike(q);
    if |q| <= |s| {
      assert s[0..|q|] == s[..|q|];
    }
    if |q| == |s| {
      assert s[..|q|] == s;
    }
  }
}
