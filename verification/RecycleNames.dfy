/**
 The names sidecars are recycled under (internal/engine/engine.go): the time
 stamp, the file's own name, and the counter uniqueDst adds until os.Stat finds
 no file of that name.
 */
module RecycleNames {
  import opened Text

  const SUBTITLE_EXTS := {".srt", ".ass", ".ssa", ".sub", ".idx", ".vtt", ".smi", ".sup"}
  const PART := ".part"

  predicate IsSubtitle(path: string) {
    ToLower(Ext(path)) in SUBTITLE_EXTS
  }

  // ---- file names ----

  predicate IsExt(e: string) {
    e != "" && e[0] == '.' && forall i | 1 <= i < |e| :: e[i] != '.' && e[i] != '/'
  }

  lemma {:induction false} ExtIsExt(name: string)
    requires Ext(name) != ""
    ensures IsExt(Ext(name))
  {
    if name[|name| - 1] != '.' {
      ExtIsExt(name[..|name| - 1]);
    }
  }

  lemma {:induction false} ExtOfSuffixed(stem: string, e: string)
    requires IsExt(e)
    ensures Ext(stem + e) == e
  {
    var n := |e| - 1;
    assert (stem + e)[|stem| + n] == e[n];
    if n > 0 {
      ExtOfSuffixed(stem, e[..n]);
      assert (stem + e)[..|stem| + n] == stem + e[..n];
    }
  }

  /** Anything put in front of a file's name leaves its extension. */
  lemma {:induction false} ExtOfBase(path: string)
    ensures Ext(Base(path)) == Ext(path)
  {
    if path != "" && path[|path| - 1] != '/' {
      var init := path[..|path| - 1];
      ExtOfBase(init);
      assert Base(path)[..|Base(path)| - 1] == Base(init);
    }
  }

  lemma ExtsAreShort(e: string)
    requires e in SUBTITLE_EXTS
    ensures |e| == 4
  {
  }

  lemma SubtitleExt(path: string)
    requires IsSubtitle(path)
    ensures IsExt(Ext(path)) && |Ext(path)| == 4
  {
    ExtsAreShort(ToLower(Ext(path)));
    ExtIsExt(path);
  }

  lemma NamedLike(path: string, stem: string)
    requires IsSubtitle(path)
    ensures Ext(stem + Ext(path)) == Ext(path) && IsSubtitle(stem + Ext(path))
  {
    SubtitleExt(path);
    ExtOfSuffixed(stem, Ext(path));
  }

  lemma PartIsNoSubtitle(dst: string)
    ensures !IsSubtitle(dst + PART)
  {
    ExtOfSuffixed(dst, PART);
    if ToLower(PART) in SUBTITLE_EXTS {
      ExtsAreShort(ToLower(PART));
    }
  }

  // ---- uniqueDst ----

  /** The names uniqueDst tries: stem.ext, stem_1.ext, stem_2.ext, ... */
  function Candidate(dir: string, stem: string, ext: string, i: nat): string {
    if i == 0 then dir + "/" + stem + ext else dir + "/" + stem + "_" + Itoa(i) + ext
  }

  lemma CandidatesDiffer(dir: string, stem: string, ext: string, i: nat, j: nat)
    requires i != j
    ensures Candidate(dir, stem, ext, i) != Candidate(dir, stem, ext, j)
  {
    var a := CandidateRest(dir, stem, ext, i);
    var b := CandidateRest(dir, stem, ext, j);
    if Candidate(dir, stem, ext, i) == Candidate(dir, stem, ext, j) {
      Middle(dir + "/", a, b, ext);
      if i > 0 && j > 0 {
        assert a[|stem| + 1..] == Itoa(i) && b[|stem| + 1..] == Itoa(j);
        ItoaInjective(i, j);
      }
    }
  }

  lemma CandidateRest(dir: string, stem: string, ext: string, i: nat) returns (rest: string)
    ensures Candidate(dir, stem, ext, i) == dir + "/" + rest + ext
    ensures rest == if i == 0 then stem else stem + "_" + Itoa(i)
  {
    rest := if i == 0 then stem else stem + "_" + Itoa(i);
    assert dir + "/" + rest == if i == 0 then dir + "/" + stem else dir + "/" + stem + "_" + Itoa(i);
  }

  lemma Middle(p: string, a: string, b: string, s: string)
    requires p + a + s == p + b + s
    ensures a == b
  {
    var x, y := p + a + s, p + b + s;
    assert |a| == |b|;
    forall k | 0 <= k < |a| ensures a[k] == b[k] {
      assert x[|p| + k] == a[k] && y[|p| + k] == b[k];
    }
  }

  /** The first i candidates are i different names, so not all names of a directory are tried. */
  lemma {:induction false} TriedNames(dir: string, stem: string, ext: string, i: nat, names: set<string>)
    requires forall k: nat | k < i :: Candidate(dir, stem, ext, k) in names
    ensures i <= |names|
  {
    if i > 0 {
      var last := Candidate(dir, stem, ext, i - 1);
      forall k: nat | k < i - 1 ensures Candidate(dir, stem, ext, k) in names - {last} {
        CandidatesDiffer(dir, stem, ext, k, i - 1);
      }
      TriedNames(dir, stem, ext, i - 1, names - {last});
    }
  }

  // ---- the name uniqueDst chooses, when `found` are the names os.Stat finds ----

  function Stem(name: string): string
    requires |Ext(name)| <= 200
  {
    Truncate(TrimSuffix(name, Ext(name)), 200 - |Ext(name)|)
  }

  /** The first name os.Stat does not find. */
  ghost predicate FirstFree(found: set<string>, dir: string, stem: string, ext: string, i: nat) {
    && Candidate(dir, stem, ext, i) !in found
    && forall k: nat | k < i :: Candidate(dir, stem, ext, k) in found
  }

  ghost predicate Chooses(found: set<string>, dir: string, name: string, dst: string) {
    |Ext(name)| <= 200 &&
    exists i: nat :: FirstFree(found, dir, Stem(name), Ext(name), i) && dst == Candidate(dir, Stem(name), Ext(name), i)
  }

  lemma {:induction false} FreeFrom(found: set<string>, dir: string, stem: string, ext: string, n: nat) returns (i: nat)
    requires forall k: nat | k < n :: Candidate(dir, stem, ext, k) in found
    ensures FirstFree(found, dir, stem, ext, i)
    decreases |found| - n
  {
    TriedNames(dir, stem, ext, n, found);
    if Candidate(dir, stem, ext, n) in found {
      TriedNames(dir, stem, ext, n + 1, found);
      i := FreeFrom(found, dir, stem, ext, n + 1);
    } else {
      i := n;
    }
  }

  /** There always is such a name. */
  lemma SomeName(found: set<string>, dir: string, name: string) returns (dst: string)
    requires |Ext(name)| <= 200
    ensures Chooses(found, dir, name, dst)
  {
    var i := FreeFrom(found, dir, Stem(name), Ext(name), 0);
    dst := Candidate(dir, Stem(name), Ext(name), i);
  }

  // ---- the name put together ----

  /** recycleStamp: date, dash and time of day. */
  predicate IsStamp(s: string) {
    |s| == 15 && forall i | 0 <= i < |s| :: IsDigit(s[i]) || s[i] == '-'
  }

  /** The name a sidecar is recycled under, before uniqueDst. `stamp` is the current time, formatted. */
  function RecycleName(stamp: string, path: string): string {
    stamp + "_" + Base(path)
  }

  lemma Regrouped(prefix: string, base: string, e: string) returns (stem: string)
    requires HasSuffix(base, e)
    ensures prefix + base == stem + e
  {
    stem := prefix + base[..|base| - |e|];
  }

  lemma PrefixKeepsExt(prefix: string, path: string)
    requires IsSubtitle(path)
    ensures Ext(prefix + Base(path)) == Ext(path)
  {
    ExtOfBase(path);
    SubtitleExt(path);
    var stem := Regrouped(prefix, Base(path), Ext(path));
    ExtOfSuffixed(stem, Ext(path));
  }

  lemma NameKeepsExt(stamp: string, path: string)
    requires IsSubtitle(path)
    ensures Ext(RecycleName(stamp, path)) == Ext(path) && |Ext(path)| == 4
  {
    PrefixKeepsExt(stamp + "_", path);
    SubtitleExt(path);
  }

  /** The path is that of an entry of the directory itself. */
  predicate InDir(dir: string, p: string) {
    dir + "/" <= p && '/' !in p[|dir| + 1..]
  }

  lemma {:induction false} BaseHasNoSlash(path: string)
    ensures '/' !in Base(path)
  {
    if path != "" && path[|path| - 1] != '/' {
      BaseHasNoSlash(path[..|path| - 1]);
    }
  }

  lemma ItoaHasNoSlash(i: nat)
    ensures '/' !in Itoa(i)
  {
    assert AllDigits(Itoa(i));
  }

  lemma NameHasNoSlash(stamp: string, path: string)
    requires IsStamp(stamp)
    ensures '/' !in RecycleName(stamp, path)
  {
    BaseHasNoSlash(path);
    assert '/' !in stamp;
  }

  lemma PartsHaveNoSlash(name: string)
    requires '/' !in name && |Ext(name)| <= 200
    ensures '/' !in Stem(name) && '/' !in Ext(name)
  {
    var ext := Ext(name);
    assert ext == name[|name| - |ext|..];
  }

  lemma CandidateInDir(dir: string, stem: string, ext: string, i: nat)
    requires '/' !in stem && '/' !in ext
    ensures InDir(dir, Candidate(dir, stem, ext, i))
  {
    var rest := CandidateRest(dir, stem, ext, i);
    ItoaHasNoSlash(i);
    var p := dir + "/" + rest + ext;
    assert p[..|dir + "/"|] == dir + "/";
    assert p[|dir| + 1..] == rest + ext;
  }

  lemma CandidateIsSubtitle(path: string, dir: string, stem: string, i: nat)
    requires IsSubtitle(path)
    ensures IsSubtitle(Candidate(dir, stem, Ext(path), i))
  {
    var rest := CandidateRest(dir, stem, Ext(path), i);
    NamedLike(path, dir + "/" + rest);
  }

  /** Where a subtitle is moved to: an entry of the recycle directory, a subtitle again, and a name that is not found. */
  lemma ChosenName(found: set<string>, dir: string, stamp: string, path: string, dst: string)
    requires IsSubtitle(path) && IsStamp(stamp) && Chooses(found, dir, RecycleName(stamp, path), dst)
    ensures InDir(dir, dst) && IsSubtitle(dst) && dst !in found
  {
    var name := RecycleName(stamp, path);
    var i: nat :| FirstFree(found, dir, Stem(name), Ext(name), i) && dst == Candidate(dir, Stem(name), Ext(name), i);
    NameKeepsExt(stamp, path);
    NameHasNoSlash(stamp, path);
    PartsHaveNoSlash(name);
    CandidateInDir(dir, Stem(name), Ext(name), i);
    CandidateIsSubtitle(path, dir, Stem(name), i);
  }
}
