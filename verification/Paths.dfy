/**
 The four tests for "inside a directory", on clean absolute paths: the API's
 (internal/api/security.go), the engine's (internal/engine/engine.go), and the
 two SQL conditions of internal/store/store.go.
 */
module Paths {
  import opened Wrappers
  import opened Text

  /** The components of a clean absolute path; [] is "/". */
  type Components = seq<string>

  predicate Clean(cs: Components) {
    forall i | 0 <= i < |cs| :: cs[i] != "" && cs[i] != "." && cs[i] != ".." && '/' !in cs[i]
  }

  /** Each component after a slash; "" for the root. */
  function Slashed(cs: Components): string {
    if cs == [] then "" else "/" + cs[0] + Slashed(cs[1..])
  }

  function Render(cs: Components): string {
    if cs == [] then "/" else Slashed(cs)
  }

  ghost predicate Inside(path: Components, root: Components) {
    root <= path
  }

  // ---- the API: filepath.Rel does not climb ----

  function Common(a: Components, b: Components): (n: nat)
    ensures n <= |a| && n <= |b| && a[..n] == b[..n]
    ensures n < |a| && n < |b| ==> a[n] != b[n]
  {
    if a == [] || b == [] || a[0] != b[0] then 0 else 1 + Common(a[1..], b[1..])
  }

  /** filepath.Rel on clean absolute paths: climb out of `base`, then down to `target`. */
  function RelParts(base: Components, target: Components): Components {
    var n := Common(base, target);
    seq(|base| - n, _ => "..") + target[n..]
  }

  function Rel(base: Components, target: Components): string {
    var parts := RelParts(base, target);
    if parts == [] then "." else Join(parts, '/')
  }

  predicate ApiWithin(path: Components, root: Components) {
    var rel := Rel(root, path);
    rel != ".." && !("../" <= rel)
  }

  method PathAllowed(path: Components, roots: seq<Components>) returns (allowed: bool)
    ensures allowed <==> exists i | 0 <= i < |roots| :: ApiWithin(path, roots[i])
  {
    for k := 0 to |roots|
      invariant forall i | 0 <= i < k :: !ApiWithin(path, roots[i])
    {
      if ApiWithin(path, roots[k]) {
        return true;
      }
    }
    return false;
  }

  // ---- the engine: a string prefix ending in a separator ----

  predicate EngineWithin(path: string, root: string) {
    path == root || TrimSuffix(root, "/") + "/" <= path + "/"
  }

  method PathWithin(path: string, roots: seq<string>) returns (within: bool)
    ensures within <==> exists i | 0 <= i < |roots| :: EngineWithin(path, roots[i])
  {
    for k := 0 to |roots|
      invariant forall i | 0 <= i < k :: !EngineWithin(path, roots[i])
    {
      if path == roots[k] || TrimSuffix(roots[k], "/") + "/" <= path + "/" {
        return true;
      }
    }
    return false;
  }

  // ---- the store: substr comparisons ----

  /** SQL substr(s, 1, n). */
  function Substr(s: string, n: nat): string {
    if n <= |s| then s[..n] else s
  }

  function RTrim(s: string): string {
    if s != "" && s[|s| - 1] == '/' then RTrim(s[..|s| - 1]) else s
  }

  /** The rows PruneFilesOutside deletes. */
  predicate PrunedAsOutside(path: string, root: string) {
    var prefix := if HasSuffix(root, "/") then root else root + "/";
    path != root && Substr(path, |prefix|) != prefix
  }

  /** The join condition of HardlinkPolicyProceeds. */
  predicate PolicyJoins(path: string, library: string) {
    path == library || Substr(path, |RTrim(library)| + 1) == RTrim(library) + "/"
  }

  // ---- strings and components ----

  lemma PrefixAt(a: string, b: string, u: string, v: string)
    requires '/' !in a && '/' !in b && u != "" && v != "" && u[0] == '/' && v[0] == '/'
    ensures a + u <= b + v <==> a == b && u <= v
  {
    if a + u <= b + v {
      assert (a + u)[|a|] == '/';
      assert (b + v)[|b|] == '/';
      assert |a| == |b|;
      forall i | 0 <= i < |a| ensures a[i] == b[i] {
        assert (a + u)[i] == (b + v)[i];
      }
      forall i | 0 <= i < |u| ensures u[i] == v[i] {
        assert (a + u)[|a| + i] == (b + v)[|a| + i];
      }
    }
  }

  lemma SlashedStarts(cs: Components)
    ensures Slashed(cs) + "/" != "" && (Slashed(cs) + "/")[0] == '/'
  {
  }

  lemma DropSlash(a: string, b: string)
    ensures "/" + a <= "/" + b <==> a <= b
  {
    if "/" + a <= "/" + b {
      forall i | 0 <= i < |a| ensures a[i] == b[i] {
        assert ("/" + a)[i + 1] == ("/" + b)[i + 1];
      }
    }
  }

  lemma ComponentStep(r: string, p: string, u: string, v: string)
    requires '/' !in r && '/' !in p && u != "" && v != "" && u[0] == '/' && v[0] == '/'
    ensures "/" + r + u <= "/" + p + v <==> r == p && u <= v
  {
    assert "/" + r + u == "/" + (r + u) && "/" + p + v == "/" + (p + v);
    DropSlash(r + u, p + v);
    PrefixAt(r, p, u, v);
  }

  lemma {:induction false} SlashedPrefix(r: Components, p: Components)
    requires Clean(r) && Clean(p)
    ensures Slashed(r) + "/" <= Slashed(p) + "/" <==> r <= p
  {
    var sr, sp := Slashed(r) + "/", Slashed(p) + "/";
    if r == [] {
      assert sr == "/";
      SlashedStarts(p);
    } else if p == [] {
      assert |sr| > |sp|;
    } else {
      var u, v := Slashed(r[1..]) + "/", Slashed(p[1..]) + "/";
      SlashedStarts(r[1..]);
      SlashedStarts(p[1..]);
      assert sr == "/" + r[0] + u && sp == "/" + p[0] + v;
      ComponentStep(r[0], p[0], u, v);
      SlashedPrefix(r[1..], p[1..]);
      assert r == [r[0]] + r[1..] && p == [p[0]] + p[1..];
    }
  }

  /** A directory followed by a separator is a prefix exactly of the paths inside it. */
  lemma RenderedPrefix(r: Components, p: Components)
    requires Clean(r) && Clean(p)
    ensures Slashed(r) + "/" <= Render(p) + "/" <==> r <= p
  {
    SlashedPrefix(r, p);
    if p == [] && r != [] {
      assert (Slashed(r) + "/")[1] == r[0][0];
      assert (Render(p) + "/")[1] == '/';
    }
  }

  lemma RenderInjective(a: Components, b: Components)
    requires Clean(a) && Clean(b) && Render(a) == Render(b)
    ensures a == b
  {
    RenderedPrefix(a, b);
    RenderedPrefix(b, a);
    assert a == [] || Slashed(a) + "/" == Render(b) + "/";
    assert b == [] || Slashed(b) + "/" == Render(a) + "/";
  }

  lemma {:induction false} SlashedEnds(cs: Components)
    requires Clean(cs) && cs != []
    ensures Slashed(cs) != "" && Slashed(cs)[|Slashed(cs)| - 1] != '/'
  {
    if |cs| == 1 {
      assert Slashed(cs) == "/" + cs[0] + "";
      assert Slashed(cs)[|Slashed(cs)| - 1] == cs[0][|cs[0]| - 1];
    } else {
      SlashedEnds(cs[1..]);
    }
  }

  /** Both ways the program drops a root's trailing separator. */
  lemma Trimmed(r: Components)
    requires Clean(r)
    ensures TrimSuffix(Render(r), "/") == Slashed(r) && RTrim(Render(r)) == Slashed(r)
    ensures HasSuffix(Render(r), "/") <==> r == []
  {
    if r == [] {
      assert Render(r)[..0] == "";
      assert RTrim("") == "";
    } else {
      SlashedEnds(r);
      var s := Slashed(r);
      assert s[|s| - 1..] == [s[|s| - 1]];
    }
  }

  lemma {:induction false} SlashedAppend(a: Components, b: Components)
    ensures Slashed(a + b) == Slashed(a) + Slashed(b)
  {
    if a == [] {
      assert a + b == b;
    } else {
      assert (a + b)[1..] == a[1..] + b;
      SlashedAppend(a[1..], b);
    }
  }

  /** Without the added separator the prefix test holds exactly of the paths strictly inside. */
  lemma StrictPrefix(r: Components, p: Components)
    requires Clean(r) && Clean(p) && p != []
    ensures Slashed(r) + "/" <= Render(p) <==> r <= p && r != p
  {
    if r <= p && r != p {
      var rest := p[|r|..];
      assert p == r + rest;
      SlashedAppend(r, rest);
      assert Slashed(rest)[0] == '/';
      assert (Slashed(r) + "/") + Slashed(rest)[1..] == Render(p);
    }
    if Slashed(r) + "/" <= Render(p) {
      assert Slashed(r) + "/" <= Render(p) + "/" by {
        assert Render(p) <= Render(p) + "/";
      }
      RenderedPrefix(r, p);
      assert r != p by {
        assert |Slashed(r) + "/"| <= |Render(p)|;
      }
    }
  }

  lemma SubstrIsPrefix(s: string, prefix: string)
    ensures Substr(s, |prefix|) == prefix <==> prefix <= s
  {
  }

  // ---- the API's test ----

  lemma {:induction false} CommonIsAll(r: Components, p: Components)
    ensures Common(r, p) == |r| <==> r <= p
  {
    if r != [] && p != [] {
      CommonIsAll(r[1..], p[1..]);
      assert r == [r[0]] + r[1..] && p == [p[0]] + p[1..];
    }
  }

  lemma FirstPart(first: string, rest: string, p: string)
    requires '/' !in first && '/' !in p && (rest != "" ==> rest[0] == '/')
    requires first + rest == p || p + ['/'] <= first + rest
    ensures first == p
  {
    var rel := first + rest;
    if rest != "" {
      assert rel[|first|] == '/';
    }
    if p + ['/'] <= rel {
      assert rel[|p|] == (p + ['/'])[|p|] == '/';
      assert rest != "";
      PrefixAt(p, first, ['/'], rest);
    } else {
      assert rest == "";
    }
  }

  lemma JoinStart(parts: Components)
    requires parts != []
    ensures Join(parts, '/') == parts[0] + if |parts| == 1 then "" else ['/'] + Join(parts[1..], '/')
  {
  }

  /** A joined path climbs exactly when its first component does. */
  lemma Climbs(parts: Components)
    requires parts != [] && forall i | 0 <= i < |parts| :: '/' !in parts[i]
    ensures Join(parts, '/') == ".." || "../" <= Join(parts, '/') <==> parts[0] == ".."
  {
    var rest := if |parts| == 1 then "" else ['/'] + Join(parts[1..], '/');
    JoinStart(parts);
    assert "../" == ".." + ['/'];
    if Join(parts, '/') == ".." || "../" <= Join(parts, '/') {
      FirstPart(parts[0], rest, "..");
    }
  }

  lemma ApiIsInside(p: Components, r: Components)
    requires Clean(p) && Clean(r)
    ensures ApiWithin(p, r) <==> Inside(p, r)
  {
    CommonIsAll(r, p);
    var parts := RelParts(r, p);
    if parts != [] {
      Climbs(parts);
    }
  }

  /** The four tests agree with containment of components, for every clean path and root including "/". */
  lemma TestsAgree(p: Components, r: Components)
    requires Clean(p) && Clean(r)
    ensures ApiWithin(p, r) <==> Inside(p, r)
    ensures EngineWithin(Render(p), Render(r)) <==> Inside(p, r)
    ensures !PrunedAsOutside(Render(p), Render(r)) <==> Inside(p, r)
    ensures PolicyJoins(Render(p), Render(r)) <==> Inside(p, r)
  {
    ApiIsInside(p, r);
    Trimmed(r);
    RenderedPrefix(r, p);
    if Render(p) == Render(r) {
      RenderInjective(p, r);
    }
    SubstrIsPrefix(Render(p), Slashed(r) + "/");
    if p == [] {
      assert r != [] ==> |Slashed(r) + "/"| > 1;
    } else {
      StrictPrefix(r, p);
    }
    if r == [] {
      assert Slashed(r) + "/" == "/";
      SubstrIsPrefix(Render(p), "/");
      assert "/" <= Render(p);
    }
  }

  // ---- the hardlink policy of a file ----

  datatype Library = Library(path: Components, policy: string)

  /** ORDER BY length(l.path) DESC LIMIT 1 over the joined rows. */
  function LongestMatch(path: Components, libraries: seq<Library>): Option<Library> {
    if libraries == [] then None
    else
      var best, last := LongestMatch(path, libraries[..|libraries| - 1]), libraries[|libraries| - 1];
      if !PolicyJoins(Render(path), Render(last.path)) then best
      else if best.Some? && |Render(best.value.path)| >= |Render(last.path)| then best
      else Some(last)
  }

  /** HardlinkPolicyProceeds, when its query does not fail. */
  predicate PolicyProceeds(path: Components, libraries: seq<Library>) {
    var pick := LongestMatch(path, libraries);
    pick.Some? && pick.value.policy == "proceed"
  }

  lemma DeeperIsLonger(a: Components, b: Components)
    requires a <= b && a != b && Clean(b)
    ensures |Render(a)| < |Render(b)|
  {
    var rest := b[|a|..];
    assert b == a + rest;
    SlashedAppend(a, rest);
    assert rest[0] == b[|a|];
    assert |Slashed(rest)| >= 1 + |rest[0]|;
  }

  /** Of two roots of one path, the longer string is the deeper directory. */
  lemma LongerIsDeeper(p: Components, a: Components, b: Components)
    requires a <= p && b <= p && |Render(a)| >= |Render(b)| && Clean(p)
    ensures b <= a
  {
    if |a| < |b| {
      assert b == p[..|b|];
      DeeperIsLonger(a, b);
    }
  }

  ghost predicate Deepest(path: Components, libraries: seq<Library>, pick: Library) {
    && pick in libraries && Inside(path, pick.path)
    && forall l | l in libraries && Inside(path, l.path) :: l.path <= pick.path
  }

  lemma DeepestOfMore(path: Components, libraries: seq<Library>, last: Library, pick: Library)
    requires Clean(path) && Deepest(path, libraries, pick) && Inside(path, last.path)
    ensures Deepest(path, libraries + [last], if |Render(pick.path)| >= |Render(last.path)| then pick else last)
  {
    if |Render(pick.path)| >= |Render(last.path)| {
      LongerIsDeeper(path, pick.path, last.path);
    } else {
      LongerIsDeeper(path, last.path, pick.path);
    }
  }

  /** The policy applied to a file is that of the deepest library containing it, if any does. */
  lemma {:induction false} DeepestLibraryWins(path: Components, libraries: seq<Library>)
    requires Clean(path) && forall l | l in libraries :: Clean(l.path)
    ensures match LongestMatch(path, libraries)
            case None => forall l | l in libraries :: !Inside(path, l.path)
            case Some(pick) => Deepest(path, libraries, pick)
  {
    if libraries != [] {
      var init, last := libraries[..|libraries| - 1], libraries[|libraries| - 1];
      assert libraries == init + [last];
      DeepestLibraryWins(path, init);
      TestsAgree(path, last.path);
      if Inside(path, last.path) && LongestMatch(path, init).Some? {
        DeepestOfMore(path, init, last, LongestMatch(path, init).value);
      }
    }
  }

  /** Library paths are unique, so the deepest library is one, and its policy alone decides. */
  lemma DeepestPolicyDecides(path: Components, libraries: seq<Library>)
    requires Clean(path) && forall l | l in libraries :: Clean(l.path)
    requires forall a, b | a in libraries && b in libraries && a.path == b.path :: a == b
    ensures PolicyProceeds(path, libraries) <==> exists l | l in libraries ::
              Deepest(path, libraries, l) && l.policy == "proceed"
  {
    DeepestLibraryWins(path, libraries);
    forall l | l in libraries && Deepest(path, libraries, l) ensures LongestMatch(path, libraries) == Some(l) {
      var pick := LongestMatch(path, libraries).value;
      assert pick.path <= l.path && l.path <= pick.path;
    }
  }
}
