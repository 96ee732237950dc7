/** What any sequence of DeleteSidecar calls does to the recycle directory. */
module RecycleTheorems {
  import opened Wrappers
  import opened Text
  import opened Disk
  import opened RecycleNames
  import opened Recycle
  import L = Links

  // ---- counting entries ----

  function Bin(m: Entries, dir: string): Entries {
    map p | p in m && InDir(dir, p) :: m[p]
  }

  function Count(b: bool): nat {
    if b then 1 else 0
  }

  function Arrivals(changes: seq<Change>): nat {
    if changes == [] then 0 else Count(Arrives(changes[0])) + Arrivals(changes[1..])
  }

  /** Calls that took a file out of the recycle directory, or to another name in it. */
  function Departures(changes: seq<Change>, dir: string): nat {
    if changes == [] then 0 else Count(Leaves(changes[0]) && InDir(dir, changes[0].src)) + Departures(changes[1..], dir)
  }

  /** What arrives takes the place of another entry. */
  predicate Replaces(m: Entries, c: Change) {
    Arrives(c) && c.dst in m && !(Leaves(c) && c.src == c.dst)
  }

  function Overwrites(m: Entries, changes: seq<Change>): nat
    decreases |changes|
  {
    if changes == [] then 0 else Count(Replaces(m, changes[0])) + Overwrites(Changed(m, changes[0]), changes[1..])
  }

  lemma OneChange(m: Entries, c: Change, env: Env)
    requires Applies(m, c, env)
    ensures |Bin(Changed(m, c), env.dir)| + Count(Replaces(m, c)) + Count(Leaves(c) && InDir(env.dir, c.src))
         == |Bin(m, env.dir)| + Count(Arrives(c))
  {
    if Leaves(c) {
      OneOut(m, c.src, env.dir);
    }
    if Arrives(c) {
      OneIn(if Leaves(c) then m - {c.src} else m, c.dst, c.entry, env.dir);
    }
  }

  lemma OneOut(m: Entries, p: string, dir: string)
    requires p in m
    ensures |Bin(m - {p}, dir)| + Count(InDir(dir, p)) == |Bin(m, dir)|
  {
    assert Bin(m - {p}, dir).Keys == Bin(m, dir).Keys - {p};
    Resized(Bin(m, dir), Bin(m - {p}, dir), {p});
    assert Bin(m, dir).Keys * {p} == if InDir(dir, p) then {p} else {};
  }

  lemma OneIn(m: Entries, p: string, e: Entry, dir: string)
    requires InDir(dir, p)
    ensures |Bin(m[p := e], dir)| == |Bin(m, dir)| + Count(p !in m)
  {
    assert Bin(m[p := e], dir) == Bin(m, dir)[p := e];
    Grown(Bin(m, dir), p, e);
  }

  lemma Resized<K, V>(a: map<K, V>, b: map<K, V>, gone: set<K>)
    requires b.Keys == a.Keys - gone
    ensures |b| == |a| - |a.Keys * gone|
  {
    assert a.Keys == b.Keys + a.Keys * gone;
    assert |a| == |a.Keys| && |b| == |b.Keys|;
  }

  lemma Grown<K, V>(a: map<K, V>, k: K, e: V)
    ensures |a[k := e]| == |a| + Count(k !in a)
  {
    assert a[k := e].Keys == a.Keys + {k};
    assert |a| == |a.Keys| && |a[k := e]| == |a[k := e].Keys|;
  }

  /**
   Over any sequence of calls the recycle directory gains one entry for each
   call that moved its file, or that failed only to remove the source after
   copying it, but for the links that are replaced and the calls about files of
   the directory itself.
   */
  lemma {:induction false} RecyclingCounts(m: Entries, changes: seq<Change>, env: Env)
    requires AllApply(m, changes, env)
    ensures |Bin(AfterAll(m, changes), env.dir)| + Overwrites(m, changes) + Departures(changes, env.dir)
         == |Bin(m, env.dir)| + Arrivals(changes)
    decreases |changes|
  {
    if changes != [] {
      OneChange(m, changes[0], env);
      RecyclingCounts(Changed(m, changes[0]), changes[1..], env);
    }
  }

  // ---- what stays ----

  /** Some call from k on took the file p away. */
  ghost predicate TakenAway(changes: seq<Change>, k: nat, p: string) {
    exists j: nat :: k <= j < |changes| && Leaves(changes[j]) && changes[j].src == p
  }

  lemma TakenLater(changes: seq<Change>, k: nat, p: string)
    requires 0 < k && changes != [] && TakenAway(changes[1..], k - 1, p)
    ensures TakenAway(changes, k, p)
  {
    var j: nat :| k - 1 <= j < |changes[1..]| && Leaves(changes[1..][j]) && changes[1..][j].src == p;
    assert changes[j + 1] == changes[1..][j];
  }

  /** Call j put its file in the place of p, a link that led nowhere then. */
  ghost predicate ReplacedAt(m: Entries, changes: seq<Change>, p: string, env: Env, j: nat) {
    && j < |changes| && Replaces(AfterAll(m, changes[..j]), changes[j]) && changes[j].dst == p
    && !Found(AfterAll(m, changes[..j]), p, env)
  }

  lemma ReplacedLater(m: Entries, changes: seq<Change>, p: string, env: Env, j: nat)
    requires changes != [] && ReplacedAt(Changed(m, changes[0]), changes[1..], p, env, j)
    ensures ReplacedAt(m, changes, p, env, j + 1)
  {
    assert changes[..j + 1][1..] == changes[1..][..j] && changes[j + 1] == changes[1..][j];
  }

  /**
   An entry stays as it is until a call about that very file. A regular file is
   never replaced, whatever links there are; a link only while it leads nowhere.
   */
  lemma {:induction false} KeptUntilTaken(m: Entries, changes: seq<Change>, env: Env, p: string)
    requires AllApply(m, changes, env) && p in m
    ensures || TakenAway(changes, 0, p) || At(AfterAll(m, changes), p) == Some(m[p])
            || (m[p].Link? && exists j :: ReplacedAt(m, changes, p, env, j))
    decreases |changes|
  {
    if changes != [] && !(Leaves(changes[0]) && changes[0].src == p) {
      var next := Changed(m, changes[0]);
      if Arrives(changes[0]) && changes[0].dst == p {
        if m[p].Plain? {
          PlainIsFound(m, p, env);
        }
        assert changes[..0] == [];
        assert ReplacedAt(m, changes, p, env, 0);
      } else {
        KeptUntilTaken(next, changes[1..], env, p);
        if TakenAway(changes[1..], 0, p) {
          TakenLater(changes, 1, p);
        }
        if j :| ReplacedAt(next, changes[1..], p, env, j) {
          ReplacedLater(m, changes, p, env, j);
        }
      }
    }
  }

  /** What a call put into the recycle directory stays there until a call about it; only a link can be replaced. */
  lemma {:induction false} EachIsKept(m: Entries, changes: seq<Change>, env: Env, k: nat)
    requires AllApply(m, changes, env) && k < |changes| && Arrives(changes[k])
    ensures Arriving(AfterAll(m, changes[..k]), changes[k].src, changes[k].entry, env) && InDir(env.dir, changes[k].dst)
    ensures || TakenAway(changes, k + 1, changes[k].dst)
            || At(AfterAll(m, changes), changes[k].dst) == Some(changes[k].entry)
            || (changes[k].entry.Link? && exists j: nat :: k < j && ReplacedAt(m, changes, changes[k].dst, env, j))
    decreases k
  {
    var rest, next, dst := changes[1..], Changed(m, changes[0]), changes[k].dst;
    if k > 0 {
      EachIsKept(next, rest, env, k - 1);
      assert changes[..k][1..] == rest[..k - 1];
      if TakenAway(rest, k, dst) {
        TakenLater(changes, k + 1, dst);
      }
    } else {
      assert changes[..0] == [];
      KeptUntilTaken(next, rest, env, dst);
      if TakenAway(rest, 0, dst) {
        TakenLater(changes, 1, dst);
      }
    }
    if j: nat :| k < j + 1 && ReplacedAt(next, rest, dst, env, j) {
      ReplacedLater(m, changes, dst, env, j);
    }
  }

  // ---- a condition on the files before the calls ----

  /** The name a link points at once it is in the recycle directory. */
  function TargetIn(dir: string, to: string): string {
    if "/" <= to then CleanPath(to) else CleanPath(dir + "/" + to)
  }

  lemma TargetOfEntry(dir: string, p: string, to: string)
    requires InDir(dir, p)
    ensures Target(p, to) == TargetIn(dir, to)
  {
    var base := p[|dir| + 1..];
    assert p == dir + "/" + base;
    UpToLast(dir, base);
  }

  /** From the recycle directory the entry leads to a regular file, past none of the files to be deleted. */
  predicate LastingEntry(m: Entries, risky: set<string>, env: Env, e: Entry) {
    e.Plain? || (env.limit > 0 && L.Steady(GraphOf(m), risky, TargetIn(env.dir, e.to), env.limit - 1))
  }

  /** So do all entries of the recycle directory and all files to be deleted. */
  predicate Lasting(m: Entries, risky: set<string>, env: Env) {
    forall p | p in m && (InDir(env.dir, p) || p in risky) :: LastingEntry(m, risky, env, m[p])
  }

  ghost predicate Among(changes: seq<Change>, files: set<string>) {
    forall k | 0 <= k < |changes| :: changes[k].Nothing? || changes[k].src in files
  }

  /** What stays true of the entries while files among `risky` are deleted. */
  ghost predicate Still(m: Entries, now: Entries, risky: set<string>, env: Env) {
    && (forall q | q in m && q !in risky :: q in now && now[q] == m[q])
    && (forall p | p in now && (InDir(env.dir, p) || p in risky) :: LastingEntry(m, risky, env, now[p]))
  }

  lemma StillFound(m: Entries, now: Entries, risky: set<string>, env: Env, p: string)
    requires Still(m, now, risky, env) && p in now && InDir(env.dir, p)
    ensures Found(now, p, env)
  {
    if now[p].Link? {
      TargetOfEntry(env.dir, p, now[p].to);
      L.SteadyFollows(GraphOf(m), GraphOf(now), risky, TargetIn(env.dir, now[p].to), env.limit - 1);
    }
  }

  lemma StepIsSafe(m: Entries, now: Entries, risky: set<string>, env: Env, c: Change)
    requires Still(m, now, risky, env) && Applies(now, c, env) && (c.Nothing? || c.src in risky)
    ensures Arrives(c) ==> c.dst !in now
    ensures Still(m, Changed(now, c), risky, env)
  {
    if Arrives(c) && c.dst in now {
      StillFound(m, now, risky, env, c.dst);
    }
  }

  lemma {:induction false} RunIsSafe(m: Entries, now: Entries, risky: set<string>, changes: seq<Change>, env: Env)
    requires Still(m, now, risky, env) && AllApply(now, changes, env) && Among(changes, risky)
    ensures Overwrites(now, changes) == 0
    ensures forall p, j: nat | ReplacedAt(now, changes, p, env, j) :: false
    decreases |changes|
  {
    if changes != [] {
      StepIsSafe(m, now, risky, env, changes[0]);
      var next := Changed(now, changes[0]);
      RunIsSafe(m, next, risky, changes[1..], env);
      assert changes[..0] == [];
      forall p, j: nat | ReplacedAt(now, changes, p, env, j) ensures false {
        if j > 0 {
          assert changes[..j][1..] == changes[1..][..j - 1] && changes[j] == changes[1..][j - 1];
          assert ReplacedAt(next, changes[1..], p, env, j - 1);
        }
      }
    }
  }

  /**
   Recycling conserves: if every link in the recycle directory and among the
   files to be deleted leads, from there, to a regular file that is not deleted
   and past none that is, then in any order and under any names no entry is
   replaced, and the directory gains exactly one for each success or copy.
   */
  lemma RecyclingConserves(m: Entries, risky: set<string>, changes: seq<Change>, env: Env)
    requires Lasting(m, risky, env) && AllApply(m, changes, env) && Among(changes, risky)
    ensures Overwrites(m, changes) == 0
    ensures |Bin(AfterAll(m, changes), env.dir)| + Departures(changes, env.dir) == |Bin(m, env.dir)| + Arrivals(changes)
    ensures forall p | p in m && InDir(env.dir, p) ::
              TakenAway(changes, 0, p) || At(AfterAll(m, changes), p) == Some(m[p])
    ensures forall k: nat | k < |changes| && Arrives(changes[k]) ::
              TakenAway(changes, k + 1, changes[k].dst) || At(AfterAll(m, changes), changes[k].dst) == Some(changes[k].entry)
  {
    RunIsSafe(m, m, risky, changes, env);
    RecyclingCounts(m, changes, env);
    forall p | p in m && InDir(env.dir, p) ensures TakenAway(changes, 0, p) || At(AfterAll(m, changes), p) == Some(m[p]) {
      KeptUntilTaken(m, changes, env, p);
    }
    forall k: nat | k < |changes| && Arrives(changes[k])
      ensures TakenAway(changes, k + 1, changes[k].dst) || At(AfterAll(m, changes), changes[k].dst) == Some(changes[k].entry)
    {
      EachIsKept(m, changes, env, k);
    }
  }

  // ---- and otherwise a link can be replaced ----

  /** A call about x, by rename, whenever the file is there. */
  lemma RenameOf(m: Entries, x: string, stamp: string, env: Env) returns (c: Change)
    requires x in m && IsSubtitle(x) && IsStamp(stamp)
    ensures c.Moved? && c.src == x && c.stamp == stamp && c.entry == m[x] && Applies(m, c, env)
  {
    NameKeepsExt(stamp, x);
    var found := FoundNames(m, env);
    var dst := SomeName(found, env.dir, RecycleName(stamp, x));
    ChosenName(found, env.dir, stamp, x, dst);
    if Found(m, dst, env) {
      FoundIsThere(m, dst, env);
    }
    c := Moved(x, dst, stamp, m[x]);
  }

  /** All names that can be tried before p, and p itself, are in use. */
  ghost predicate Tried(m: Entries, env: Env, name: string, p: string, i: nat) {
    && |Ext(name)| <= 200 && p == Candidate(env.dir, Stem(name), Ext(name), i)
    && forall k: nat | k <= i :: Candidate(env.dir, Stem(name), Ext(name), k) in m
  }

  /** Then a call whose names come to p, while p leads nowhere, replaces an entry. */
  lemma ComesTo(m: Entries, env: Env, p: string, i: nat, y: string, stamp: string) returns (c: Change)
    requires y in m && IsSubtitle(y) && IsStamp(stamp) && !InDir(env.dir, y)
    requires Tried(m, env, RecycleName(stamp, y), p, i) && !Found(m, p, env)
    ensures c.Moved? && c.src == y && c.stamp == stamp && Applies(m, c, env) && Replaces(m, c)
  {
    c := RenameOf(m, y, stamp, env);
    var name, found := RecycleName(stamp, y), FoundNames(m, env);
    var j: nat :| FirstFree(found, env.dir, Stem(name), Ext(name), j) && c.dst == Candidate(env.dir, Stem(name), Ext(name), j);
    assert i < j ==> p in found;
  }

  /** Files to be deleted: subtitles outside the recycle directory. */
  ghost predicate Outside(files: set<string>, dir: string) {
    forall x | x in files :: IsSubtitle(x) && !InDir(dir, x)
  }

  /** A run of calls about these files in which an entry is replaced. */
  ghost predicate Replacing(m: Entries, changes: seq<Change>, files: set<string>, env: Env) {
    AllApply(m, changes, env) && Among(changes, files) && Overwrites(m, changes) > 0
  }

  lemma OneReplaces(m: Entries, c: Change, files: set<string>, env: Env)
    requires Applies(m, c, env) && Replaces(m, c) && c.src in files
    ensures Replacing(m, [c], files, env)
  {
    assert [c][1..] == [];
  }

  lemma ThenReplaces(m: Entries, c: Change, rest: seq<Change>, files: set<string>, env: Env)
    requires Applies(m, c, env) && !c.Nothing? && c.src in files && Replacing(Changed(m, c), rest, files, env)
    ensures Replacing(m, [c] + rest, files, env)
  {
    var all := [c] + rest;
    assert all[1..] == rest;
    forall k | 0 <= k < |all| ensures all[k].Nothing? || all[k].src in files {
      assert k > 0 ==> all[k] == rest[k - 1];
    }
  }

  lemma MoreFiles(m: Entries, changes: seq<Change>, some: set<string>, all: set<string>, env: Env)
    requires Replacing(m, changes, some, env) && some <= all
    ensures Replacing(m, changes, all, env)
  {
  }

  /** A link of the recycle directory breaks when a file it leads past is moved there. */
  lemma MovingBreaks(m: Entries, env: Env, p: string, w: string, c: Change)
    requires p in m && m[p].Link? && p != w && env.limit > 0 && InDir(env.dir, p)
    requires L.Visits(GraphOf(m), TargetIn(env.dir, m[p].to), env.limit - 1, w)
    requires c.Moved? && c.src == w && c.dst !in m && c.dst != w
    ensures p in Changed(m, c) && Changed(m, c)[p] == m[p] && !Found(Changed(m, c), p, env)
  {
    var m', q := Changed(m, c), TargetIn(env.dir, m[p].to);
    TargetOfEntry(env.dir, p, m[p].to);
    L.BreaksAt(GraphOf(m), GraphOf(m'), q, env.limit - 1, w);
  }

  /** A link in the recycle directory that does not last is replaced in some run that comes to its name. */
  lemma BinLinkReplaced(m: Entries, risky: set<string>, env: Env, p: string, i: nat, y: string, stamp: string)
    returns (changes: seq<Change>)
    requires Outside(risky, env.dir) && p in m && InDir(env.dir, p) && !LastingEntry(m, risky, env, m[p])
    requires y in m && y !in risky && IsSubtitle(y) && !InDir(env.dir, y) && IsStamp(stamp)
    requires Tried(m, env, RecycleName(stamp, y), p, i)
    ensures Replacing(m, changes, risky + {y}, env)
  {
    if !Found(m, p, env) {
      var c := ComesTo(m, env, p, i, y, stamp);
      OneReplaces(m, c, risky + {y}, env);
      changes := [c];
    } else {
      var w := RiskyOnTheWay(m, risky, env, p);
      changes := BrokenThenReplaced(m, env, p, i, y, w, stamp);
      MoreFiles(m, changes, {w, y}, risky + {y}, env);
    }
  }

  lemma RiskyOnTheWay(m: Entries, risky: set<string>, env: Env, p: string) returns (w: string)
    requires p in m && InDir(env.dir, p) && !LastingEntry(m, risky, env, m[p]) && Found(m, p, env)
    ensures env.limit > 0 && w in risky && w in m && L.Visits(GraphOf(m), TargetIn(env.dir, m[p].to), env.limit - 1, w)
  {
    TargetOfEntry(env.dir, p, m[p].to);
    w := L.SteadyOrVisits(GraphOf(m), risky, TargetIn(env.dir, m[p].to), env.limit - 1);
  }

  lemma BrokenThenReplaced(m: Entries, env: Env, p: string, i: nat, y: string, w: string, stamp: string)
    returns (changes: seq<Change>)
    requires p in m && m[p].Link? && p != w && env.limit > 0 && InDir(env.dir, p)
    requires L.Visits(GraphOf(m), TargetIn(env.dir, m[p].to), env.limit - 1, w)
    requires w in m && IsSubtitle(w) && !InDir(env.dir, w)
    requires y in m && y != w && IsSubtitle(y) && !InDir(env.dir, y) && IsStamp(stamp)
    requires Tried(m, env, RecycleName(stamp, y), p, i)
    ensures Replacing(m, changes, {w, y}, env)
  {
    var c := RenameOf(m, w, stamp, env);
    if Replaces(m, c) {
      OneReplaces(m, c, {w, y}, env);
      changes := [c];
    } else {
      MovingBreaks(m, env, p, w, c);
      var c' := ReplacedAfter(m, env, p, i, y, w, c, stamp);
      OneReplaces(Changed(m, c), c', {w, y}, env);
      ThenReplaces(m, c, [c'], {w, y}, env);
      changes := [c] + [c'];
    }
  }

  lemma ReplacedAfter(m: Entries, env: Env, p: string, i: nat, y: string, w: string, c: Change, stamp: string)
    returns (c': Change)
    requires c.Moved? && c.src == w && !InDir(env.dir, w) && !Found(Changed(m, c), p, env)
    requires y in m && y != w && IsSubtitle(y) && !InDir(env.dir, y) && IsStamp(stamp)
    requires Tried(m, env, RecycleName(stamp, y), p, i)
    ensures c'.Moved? && c'.src == y && Applies(Changed(m, c), c', env) && Replaces(Changed(m, c), c')
  {
    NameHasNoSlash(stamp, y);
    StillTried(m, Changed(m, c), env, RecycleName(stamp, y), p, i, w);
    c' := ComesTo(Changed(m, c), env, p, i, y, stamp);
  }

  lemma StillTried(m: Entries, m': Entries, env: Env, name: string, p: string, i: nat, w: string)
    requires Tried(m, env, name, p, i) && '/' !in name && !InDir(env.dir, w)
    requires forall q | q in m && q != w :: q in m'
    ensures Tried(m', env, name, p, i)
  {
    PartsHaveNoSlash(name);
    forall k: nat | k <= i ensures Candidate(env.dir, Stem(name), Ext(name), k) in m' {
      CandidateInDir(env.dir, Stem(name), Ext(name), k);
    }
  }

  /** Moving a link that does not last makes one in the recycle directory that does not. */
  lemma MovedDoesNotLast(m: Entries, risky: set<string>, env: Env, x: string, c: Change)
    requires x in m && m[x].Link? && x in risky && !LastingEntry(m, risky, env, m[x])
    requires c.Moved? && c.src == x && c.entry == m[x] && c.dst !in m && InDir(env.dir, c.dst)
    ensures !LastingEntry(Changed(m, c), risky - {x}, env, m[x])
  {
    var m', q := Changed(m, c), TargetIn(env.dir, m[x].to);
    var g, g' := GraphOf(m), GraphOf(m');
    if LastingEntry(m', risky - {x}, env, m[x]) {
      var h: nat := env.limit - 1;
      TargetOfEntry(env.dir, c.dst, m[x].to);
      L.SteadyFollows(g', g', risky - {x}, q, h);
      L.NoReturn(g', c.dst, h);
      L.SteadyStays(g', g', risky - {x}, risky, q, h);
      L.SteadyWithout(g', g, risky, q, h, c.dst);
    }
  }

  /** A link to be deleted that does not last is replaced in some run with a file of the same name. */
  lemma MovedLinkReplaced(m: Entries, risky: set<string>, env: Env, x: string, y: string, stamp: string)
    returns (changes: seq<Change>)
    requires Outside(risky, env.dir) && x in m && x in risky && !LastingEntry(m, risky, env, m[x])
    requires y in m && y !in risky && IsSubtitle(y) && !InDir(env.dir, y) && Base(y) == Base(x) && IsStamp(stamp)
    ensures Replacing(m, changes, risky + {y}, env)
  {
    var c := RenameOf(m, x, stamp, env);
    if Replaces(m, c) {
      OneReplaces(m, c, risky + {y}, env);
      changes := [c];
    } else {
      var m' := Changed(m, c);
      MovedDoesNotLast(m, risky, env, x, c);
      var i := ChosenIsTried(m, env, x, stamp, c);
      var rest := BinLinkReplaced(m', risky - {x}, env, c.dst, i, y, stamp);
      MoreFiles(m', rest, risky - {x} + {y}, risky + {y}, env);
      ThenReplaces(m, c, rest, risky + {y}, env);
      changes := [c] + rest;
    }
  }

  lemma ChosenIsTried(m: Entries, env: Env, x: string, stamp: string, c: Change) returns (i: nat)
    requires Applies(m, c, env) && c.Moved? && c.src == x && c.stamp == stamp && !InDir(env.dir, x)
    ensures Tried(Changed(m, c), env, RecycleName(stamp, x), c.dst, i)
  {
    var name, found := RecycleName(stamp, x), FoundNames(m, env);
    NameHasNoSlash(stamp, x);
    PartsHaveNoSlash(name);
    i :| FirstFree(found, env.dir, Stem(name), Ext(name), i) && c.dst == Candidate(env.dir, Stem(name), Ext(name), i);
    var stem, ext := Stem(name), Ext(name);
    forall k: nat | k <= i ensures Candidate(env.dir, stem, ext, k) in Changed(m, c) {
      CandidateInDir(env.dir, stem, ext, k);
      StaysInBin(m, c, env, Candidate(env.dir, stem, ext, k));
    }
  }

  lemma StaysInBin(m: Entries, c: Change, env: Env, q: string)
    requires c.Moved? && !InDir(env.dir, c.src) && InDir(env.dir, q) && (q in FoundNames(m, env) || q == c.dst)
    ensures q in Changed(m, c)
  {
  }

  // ---- so the condition is exact ----

  /** One more subtitle, outside the recycle directory. */
  ghost predicate Extra(m: Entries, risky: set<string>, env: Env, y: string) {
    IsSubtitle(y) && y !in m && y !in risky && !InDir(env.dir, y)
  }

  ghost predicate NothingReplaced(m: Entries, risky: set<string>, env: Env) {
    forall changes | AllApply(m, changes, env) && Among(changes, risky) :: Overwrites(m, changes) == 0
  }

  /** No run of calls about these files, and any one regular file beside them, replaces an entry. */
  ghost predicate Safe(m: Entries, risky: set<string>, env: Env) {
    forall y, data | Extra(m, risky, env, y) :: NothingReplaced(m[y := Plain(data)], risky + {y}, env)
  }

  lemma LastingWithMore(m: Entries, risky: set<string>, env: Env, y: string, data: seq<bv8>)
    requires Lasting(m, risky, env) && Extra(m, risky, env, y)
    ensures Lasting(m[y := Plain(data)], risky + {y}, env)
  {
    var m' := m[y := Plain(data)];
    forall p | p in m' && (InDir(env.dir, p) || p in risky + {y}) ensures LastingEntry(m', risky + {y}, env, m'[p]) {
      if p != y && m[p].Link? {
        L.SteadyStays(GraphOf(m), GraphOf(m'), risky, risky + {y}, TargetIn(env.dir, m[p].to), env.limit - 1);
      }
    }
  }

  lemma DoesNotLastWithMore(m: Entries, risky: set<string>, env: Env, x: string, y: string, data: seq<bv8>)
    requires x in m && y !in m && !LastingEntry(m, risky, env, m[x])
    requires env.limit > 0 && m[x].Link? ==> y != L.End(GraphOf(m), TargetIn(env.dir, m[x].to), env.limit - 1)
    ensures !LastingEntry(m[y := Plain(data)], risky, env, m[x])
  {
    var m' := m[y := Plain(data)];
    assert GraphOf(m') == GraphOf(m)[y := None];
    if LastingEntry(m', risky, env, m[x]) {
      L.SteadyThroughNew(GraphOf(m), risky, TargetIn(env.dir, m[x].to), env.limit - 1, y);
    }
  }

  lemma {:induction false} BaseOf(d: string, b: string)
    requires '/' !in b
    ensures Base(d + "/" + b) == b
  {
    var path := d + "/" + b;
    if b != "" {
      assert path[..|path| - 1] == d + "/" + b[..|b| - 1];
      BaseOf(d, b[..|b| - 1]);
    }
  }

  /** There is always another name with the same last element. */
  lemma Namesake(avoid: set<string>, env: Env, x: string) returns (y: string)
    requires IsSubtitle(x)
    ensures y !in avoid && IsSubtitle(y) && !InDir(env.dir, y) && Base(y) == Base(x)
  {
    var b := Base(x);
    var dirs := set a | a in avoid && |b| < |a| :: a[..|a| - |b| - 1];
    var i := FreeFrom(dirs, env.dir, "d", "", 0);
    var d := Candidate(env.dir, "d", "", i);
    y := d + "/" + b;
    var head := y[..|y| - |b| - 1];
    assert head == d;
    BaseHasNoSlash(x);
    BaseOf(d, b);
    ExtOfBase(x);
    ExtOfBase(y);
    var rest := CandidateRest(env.dir, "d", "", i);
    assert y[|d|] == '/' && |d| > |env.dir|;
    assert '/' in y[|env.dir| + 1..];
  }

  lemma NotLastingIsUnsafe(m: Entries, risky: set<string>, env: Env, x: string, stamp: string)
    requires Outside(risky, env.dir) && IsStamp(stamp)
    requires x in m && x in risky && !LastingEntry(m, risky, env, m[x])
    ensures !Safe(m, risky, env)
  {
    var end := if env.limit > 0 then L.End(GraphOf(m), TargetIn(env.dir, m[x].to), env.limit - 1) else x;
    var y := Namesake(m.Keys + risky + {end}, env, x);
    var m' := m[y := Plain([])];
    DoesNotLastWithMore(m, risky, env, x, y, []);
    var changes := MovedLinkReplaced(m', risky, env, x, y, stamp);
    assert !NothingReplaced(m', risky + {y}, env);
    assert Extra(m, risky, env, y);
  }

  /**
   The exact condition: the files can be recycled beside any other file, in any
   order and at any times, without an entry being replaced, if and only if every
   link among them leads, from the recycle directory, to a regular file and past
   none of them. The links already in the directory are assumed to.
   */
  lemma SafeExactly(m: Entries, risky: set<string>, env: Env, stamp: string)
    requires Outside(risky, env.dir) && IsStamp(stamp)
    requires forall p | p in m && InDir(env.dir, p) :: LastingEntry(m, risky, env, m[p])
    ensures Safe(m, risky, env) <==> forall x | x in m && x in risky :: LastingEntry(m, risky, env, m[x])
  {
    if Lasting(m, risky, env) {
      forall y, data | Extra(m, risky, env, y) ensures NothingReplaced(m[y := Plain(data)], risky + {y}, env) {
        LastingWithMore(m, risky, env, y, data);
        forall changes | AllApply(m[y := Plain(data)], changes, env) && Among(changes, risky + {y})
          ensures Overwrites(m[y := Plain(data)], changes) == 0
        {
          RecyclingConserves(m[y := Plain(data)], risky + {y}, changes, env);
        }
      }
    } else {
      var x :| x in m && (InDir(env.dir, x) || x in risky) && !LastingEntry(m, risky, env, m[x]);
      NotLastingIsUnsafe(m, risky, env, x, stamp);
    }
  }

  // ---- two successes, one entry ----

  /** The first of the names is chosen when it is not found. */
  lemma FirstNameChosen(found: set<string>, dir: string, name: string, dst: string)
    requires Chooses(found, dir, name, dst) && Candidate(dir, Stem(name), Ext(name), 0) !in found
    ensures dst == Candidate(dir, Stem(name), Ext(name), 0)
  {
    var first := Candidate(dir, Stem(name), Ext(name), 0);
    var i: nat :| FirstFree(found, dir, Stem(name), Ext(name), i) && dst == Candidate(dir, Stem(name), Ext(name), i);
    if i > 0 {
      assert first !in found;
    }
  }

  lemma LeadsNowhere(m: Entries, env: Env, p: string)
    requires p in m && m[p].Link? && (Target(p, m[p].to) !in m || Target(p, m[p].to) == p)
    ensures !Found(m, p, env)
  {
    if Found(m, p, env) {
      L.NoReturn(GraphOf(m), p, env.limit - 1);
    }
  }

  lemma FirstNameFree(m: Entries, env: Env, x: string, stamp: string)
    requires IsSubtitle(x) && IsStamp(stamp) && Bin(m, env.dir) == map[]
    ensures |Ext(RecycleName(stamp, x))| <= 200
    ensures Candidate(env.dir, Stem(RecycleName(stamp, x)), Ext(RecycleName(stamp, x)), 0) !in m
  {
    var name := RecycleName(stamp, x);
    NameKeepsExt(stamp, x);
    NameHasNoSlash(stamp, x);
    PartsHaveNoSlash(name);
    var p := Candidate(env.dir, Stem(name), Ext(name), 0);
    CandidateInDir(env.dir, Stem(name), Ext(name), 0);
    assert p in m ==> p in Bin(m, env.dir);
  }

  /** The first of two namesakes is moved: a link, which no longer leads anywhere. */
  lemma LinkMoved(m: Entries, env: Env, x: string, stamp: string) returns (c: Change)
    requires x in m && m[x].Link? && IsSubtitle(x) && IsStamp(stamp) && Bin(m, env.dir) == map[]
    requires TargetIn(env.dir, m[x].to) !in m
    ensures c.Moved? && c.src == x && c.stamp == stamp && c.entry == m[x] && Applies(m, c, env)
    ensures |Ext(RecycleName(stamp, x))| <= 200
    ensures c.dst == Candidate(env.dir, Stem(RecycleName(stamp, x)), Ext(RecycleName(stamp, x)), 0)
    ensures !Found(Changed(m, c), c.dst, env)
  {
    c := RenameOf(m, x, stamp, env);
    FirstNameFree(m, env, x, stamp);
    FirstNameChosen(FoundNames(m, env), env.dir, RecycleName(stamp, x), c.dst);
    TargetOfEntry(env.dir, c.dst, m[x].to);
    LeadsNowhere(Changed(m, c), env, c.dst);
  }

  /**
   Two subtitles of the same name are deleted within a second, and the recycle
   directory was empty. If the first is a link that leads nowhere from there,
   both calls succeed and one entry is left.
   */
  lemma TwoBecomeOne(m: Entries, env: Env, x: string, y: string, stamp: string) returns (dst: string, changes: seq<Change>)
    requires x in m && y in m && x != y && IsSubtitle(x) && IsSubtitle(y) && Base(x) == Base(y) && IsStamp(stamp)
    requires m[x].Link? && TargetIn(env.dir, m[x].to) !in m && Bin(m, env.dir) == map[]
    ensures changes == [Moved(x, dst, stamp, m[x]), Moved(y, dst, stamp, m[y])] && AllApply(m, changes, env)
    ensures |Bin(AfterAll(m, changes), env.dir)| == 1
    ensures At(AfterAll(m, changes), dst) == Some(m[y])
  {
    var c := LinkMoved(m, env, x, stamp);
    dst := c.dst;
    NotInEmpty(m, env, x);
    NotInEmpty(m, env, y);
    assert InDir(env.dir, dst) && y != dst;
    assert RecycleName(stamp, x) == RecycleName(stamp, y);
    var c' := TakesThePlace(m, env, c, y);
    changes := [c, c'];
    TwoCallsOneEntry(m, c, c', env);
  }

  lemma TakesThePlace(m: Entries, env: Env, c: Change, y: string) returns (c': Change)
    requires c.Moved? && Applies(m, c, env) && !Found(Changed(m, c), c.dst, env)
    requires y in m && y != c.src && y != c.dst && IsSubtitle(y) && Base(y) == Base(c.src)
    requires |Ext(RecycleName(c.stamp, y))| <= 200
    requires c.dst == Candidate(env.dir, Stem(RecycleName(c.stamp, y)), Ext(RecycleName(c.stamp, y)), 0)
    ensures c' == Moved(y, c.dst, c.stamp, m[y]) && Applies(Changed(m, c), c', env)
  {
    var m' := Changed(m, c);
    c' := RenameOf(m', y, c.stamp, env);
    FirstNameChosen(FoundNames(m', env), env.dir, RecycleName(c.stamp, y), c'.dst);
  }

  lemma TwoCalls(m: Entries, c: Change, c': Change, env: Env)
    requires Applies(m, c, env) && Applies(Changed(m, c), c', env)
    ensures AllApply(m, [c, c'], env) && AfterAll(m, [c, c']) == Changed(Changed(m, c), c')
  {
    OneMore(m, [], c, env);
    OneMore(m, [c], c', env);
    assert [] + [c] == [c] && [c] + [c'] == [c, c'];
  }

  lemma BinAfterMove(m: Entries, c: Change, dir: string)
    requires c.Moved? && InDir(dir, c.dst) && !InDir(dir, c.src)
    ensures Bin(Changed(m, c), dir) == Bin(m, dir)[c.dst := c.entry]
  {
  }

  lemma TwoCallsOneEntry(m: Entries, c: Change, c': Change, env: Env)
    requires c.Moved? && c'.Moved? && c.dst == c'.dst && Applies(m, c, env) && Applies(Changed(m, c), c', env)
    requires Bin(m, env.dir) == map[] && !InDir(env.dir, c.src) && !InDir(env.dir, c'.src)
    ensures AllApply(m, [c, c'], env) && AfterAll(m, [c, c']) == Changed(Changed(m, c), c')
    ensures |Bin(AfterAll(m, [c, c']), env.dir)| == 1
  {
    TwoCalls(m, c, c', env);
    BinAfterMove(m, c, env.dir);
    BinAfterMove(Changed(m, c), c', env.dir);
  }

  lemma NotInEmpty(m: Entries, env: Env, x: string)
    requires x in m && Bin(m, env.dir) == map[]
    ensures !InDir(env.dir, x)
  {
    assert InDir(env.dir, x) ==> x in Bin(m, env.dir);
  }

  predicate IsElement(s: string) {
    s != "" && s != "." && s != ".." && '/' !in s
  }

  function Path(dir: string, base: string): string {
    "/" + dir + "/" + base
  }

  lemma PathsDiffer(d: string, b: string, d': string, b': string)
    requires IsElement(d) && IsElement(d') && '/' !in b && '/' !in b' && (d != d' || b != b')
    ensures Path(d, b) != Path(d', b')
  {
    UpToLast("/" + d, b);
    UpToLast("/" + d', b');
    BaseOf("/" + d, b);
    BaseOf("/" + d', b');
    assert ("/" + d + "/")[1..|d| + 1] == d && ("/" + d' + "/")[1..|d'| + 1] == d';
  }

  lemma PathNotIn(d: string, b: string, r: string)
    requires IsElement(d) && IsElement(r) && '/' !in b && d != r
    ensures !InDir("/" + r, Path(d, b))
  {
    if InDir("/" + r, Path(d, b)) {
      var rest := Path(d, b)[|r| + 2..];
      assert Path(d, b) == Path(r, rest);
      PathsDiffer(d, b, r, rest);
    }
  }

  /** A relative link in one directory and a file of the same name in another; the target lies beside the link. */
  function Namesakes(a: string, b: string, base: string, t: string, d: seq<bv8>, d': seq<bv8>): Entries {
    map[Path(a, base) := Link(t), Path(a, t) := Plain(d), Path(b, base) := Plain(d')]
  }

  lemma NamesakesFound(a: string, b: string, r: string, base: string, t: string, d: seq<bv8>, d': seq<bv8>, env: Env)
    requires IsElement(a) && IsElement(b) && IsElement(r) && IsElement(t) && '/' !in base && env == Env("/" + r, env.limit)
    requires a != b && a != r && b != r && t != base && env.limit > 0
    ensures var m := Namesakes(a, b, base, t, d, d');
            && m[Path(a, base)] == Link(t) && m[Path(b, base)] == Plain(d') && Path(a, base) != Path(b, base)
            && Found(m, Path(a, base), env) && Found(m, Path(b, base), env)
            && TargetIn(env.dir, t) !in m && Bin(m, env.dir) == map[]
  {
    var m := Namesakes(a, b, base, t, d, d');
    PathsDiffer(a, base, b, base);
    PathsDiffer(a, base, a, t);
    PathsDiffer(b, base, a, t);
    UpToLast("/" + a, base);
    CleanOfTwo(a, t);
    CleanOfTwo(r, t);
    assert Target(Path(a, base), t) == Path(a, t);
    assert L.Follow(GraphOf(m), Path(a, t), env.limit - 1).Some?;
    assert "/" + r + "/" + t == Path(r, t);
    PathsDiffer(r, t, a, base);
    PathsDiffer(r, t, a, t);
    PathsDiffer(r, t, b, base);
    PathNotIn(a, base, r);
    PathNotIn(a, t, r);
    PathNotIn(b, base, r);
  }

  lemma CleanOfTwo(d: string, b: string)
    requires IsElement(d) && IsElement(b)
    ensures CleanPath(Path(d, b)) == Path(d, b)
  {
    SplitOfTwo(d, b);
    ResolveTwo(d, b);
    assert [d, b][1..] == [b];
    assert Join([d, b], '/') == d + "/" + b;
    assert "/" + (d + "/" + b) == Path(d, b);
  }

  lemma ResolveTwo(d: string, b: string)
    requires IsElement(d) && IsElement(b)
    ensures Resolve(["", d, b], true) == [d, b]
  {
    var parts := ["", d, b];
    assert [""][..0] == [] && ["", d][..1] == [""] && parts[..2] == ["", d];
    assert Resolve([""], true) == [];
    assert Resolve(["", d], true) == [d];
  }

  lemma SplitOfTwo(d: string, b: string)
    requires IsElement(d) && IsElement(b)
    ensures Split(Path(d, b), '/') == ["", d, b]
  {
    var tail := d + "/" + b;
    assert Path(d, b) == "" + ['/'] + tail;
    SplitFirst("", tail, '/');
    assert tail == d + ['/'] + b;
    SplitFirst(d, b, '/');
    SplitFirst(b, "", '/');
  }

  /**
   It happens, with a relative link: both subtitles are found, both calls
   succeed, no entry led nowhere before, and one entry is left.
   */
  lemma NamesakesBecomeOne(a: string, b: string, r: string, base: string, t: string, d: seq<bv8>, d': seq<bv8>, env: Env,
                           stamp: string)
    returns (dst: string, changes: seq<Change>)
    requires IsElement(a) && IsElement(b) && IsElement(r) && IsElement(t) && '/' !in base && env == Env("/" + r, env.limit)
    requires a != b && a != r && b != r && t != base && env.limit > 0
    requires IsSubtitle(Path(a, base)) && IsSubtitle(Path(b, base)) && IsStamp(stamp)
    ensures var m := Namesakes(a, b, base, t, d, d');
            && Bin(m, env.dir) == map[] && Found(m, Path(a, base), env) && Found(m, Path(b, base), env)
            && changes == [Moved(Path(a, base), dst, stamp, Link(t)), Moved(Path(b, base), dst, stamp, Plain(d'))]
            && AllApply(m, changes, env) && |Bin(AfterAll(m, changes), env.dir)| == 1
  {
    var m := Namesakes(a, b, base, t, d, d');
    NamesakesFound(a, b, r, base, t, d, d', env);
    BaseOf("/" + a, base);
    BaseOf("/" + b, base);
    dst, changes := TwoBecomeOne(m, env, Path(a, base), Path(b, base), stamp);
  }

  /** A link that leads nowhere and has the first name is replaced, for any subtitle. */
  lemma LinkIsReplaced(m: Entries, env: Env, path: string, stamp: string) returns (c: Change)
    requires path in m && IsSubtitle(path) && IsStamp(stamp) && !InDir(env.dir, path)
    requires |Ext(RecycleName(stamp, path))| <= 200
             && Tried(m, env, RecycleName(stamp, path),
                      Candidate(env.dir, Stem(RecycleName(stamp, path)), Ext(RecycleName(stamp, path)), 0), 0)
    requires !Found(m, Candidate(env.dir, Stem(RecycleName(stamp, path)), Ext(RecycleName(stamp, path)), 0), env)
    ensures c.Moved? && c.src == path && Applies(m, c, env) && Replaces(m, c)
  {
    c := ComesTo(m, env, Candidate(env.dir, Stem(RecycleName(stamp, path)), Ext(RecycleName(stamp, path)), 0), 0, path, stamp);
  }
}
