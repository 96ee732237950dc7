/**
 ScanLibrary and scanOne run to completion with nothing else writing
 (internal/scan/scanner.go). `ScanProtocol` interleaves them.
 */
module Scanner {
  import opened Wrappers
  import opened Catalogue
  import Paths
  import Sets

  /** A walked video as scanOne sees it: its stat result and the summary of its own sidecars. */
  datatype Video = Video(path: string, fp: Fingerprint, nlink: nat, summary: string)

  datatype ScanError = LookupFailed | TouchFailed | ProbeFailed | UpsertFailed | SidecarsFailed

  datatype Outcome =
    | NotAccessible
    | Moved                 // library removed or given another path during the scan
    | DbError
    | FoundNothing          // no videos, but records exist
    | Unreadable            // the walk or a lookup failed somewhere
    | TooMany               // more than five stale rows, above the ratio
    | Pruned

  ghost predicate PositiveIds<P>(rows: map<int, Row<P>>) {
    forall k | k in rows :: k > 0
  }

  /** What one scanOne call does to the rows. `pending`: its id is left for the caller to stamp. */
  ghost predicate Visited<P>(before: Media<P>, after: Media<P>, v: Video, stamp: int, id: int, pending: bool,
                             lookupFailed: bool) {
    && UniquePaths(after.rows)
    && (forall k | k in before.rows && before.rows[k].path != v.path ::
         k in after.rows && after.rows[k] == before.rows[k])
    && (forall k | k in after.rows && k !in before.rows :: after.rows[k].path == v.path && after.rows[k].stamp >= stamp)
    && (forall k | k in before.rows && before.rows[k].path == v.path ::
          && k in after.rows && after.rows[k].path == v.path && after.rows[k].inc == before.rows[k].inc
          && after.rows[k].stamp >= before.rows[k].stamp
          && (after.rows[k].stamp >= stamp || (pending && id == k) || lookupFailed))
    && (pending ==> HasPath(after.rows, id, v.path))
  }

  /** The row of a video that was scanned without error holds its fingerprint and the probe of it. */
  ghost predicate UpToDate<P>(before: Media<P>, after: Media<P>, v: Video, contents: map<string, P>, id: int) {
    && HasPath(after.rows, id, v.path)
    && var row := after.rows[id];
       && row.fp == v.fp && row.nlink == v.nlink && row.summary == v.summary && row.probe.Some?
       && (row.probe == (if v.path in contents then Some(contents[v.path]) else None)
           || (id in before.rows && before.rows[id].fp == v.fp && row.probe == before.rows[id].probe))
  }

  lemma TouchVisits<P>(m: Media<P>, v: Video, stamp: int, id: int)
    requires UniquePaths(m.rows) && HasPath(m.rows, id, v.path)
    ensures Visited(m, Touch(m, id, v.nlink, v.summary, stamp), v, stamp, id, false, false)
    ensures Visited(m, Touch(m, id, v.nlink, v.summary, stamp), v, stamp, id, true, false)
  {
  }

  lemma UpsertVisits<P>(m: Media<P>, v: Video, id: int, new_: Row<P>)
    requires UniquePaths(m.rows) && UpsertId(m.rows, id, v.path) && new_.path == v.path
    ensures Visited(m, Upsert(m, id, new_), v, new_.stamp, id, false, false)
    ensures Visited(m, Upsert(m, id, new_), v, new_.stamp, id, true, false)
  {
    UpsertKeepsPathsUnique(m, id, new_);
  }

  // ---- the loop of ScanLibrary ----

  ghost predicate Walked(videos: seq<Video>, n: nat, path: string)
    requires n <= |videos|
  {
    exists j | 0 <= j < n :: videos[j].path == path
  }

  /** No row is lost, and no stamp goes down. */
  ghost predicate Carried<P>(before: Media<P>, now: Media<P>) {
    forall k | k in before.rows ::
      && k in now.rows && now.rows[k].inc == before.rows[k].inc && now.rows[k].path == before.rows[k].path
      && now.rows[k].stamp >= before.rows[k].stamp
  }

  /** Rows of paths that were not walked are as they were. */
  ghost predicate Others<P>(before: Media<P>, now: Media<P>, videos: seq<Video>, n: nat)
    requires n <= |videos| && Carried(before, now)
  {
    forall k | k in before.rows && !Walked(videos, n, before.rows[k].path) :: now.rows[k] == before.rows[k]
  }

  /** Rows of walked paths are stamped or waiting to be, unless a lookup failed. */
  ghost predicate Marked<P>(before: Media<P>, now: Media<P>, videos: seq<Video>, n: nat, stamp: int, pending: seq<int>)
    requires n <= |videos| && Carried(before, now)
  {
    forall k | k in before.rows && Walked(videos, n, before.rows[k].path) :: now.rows[k].stamp >= stamp || k in pending
  }

  ghost predicate Arrived<P>(before: Media<P>, now: Media<P>, stamp: int) {
    forall k | k in now.rows && k !in before.rows :: now.rows[k].stamp >= stamp
  }

  ghost predicate ArrivedWalked<P>(before: Media<P>, now: Media<P>, videos: seq<Video>, n: nat)
    requires n <= |videos|
  {
    forall k | k in now.rows && k !in before.rows :: Walked(videos, n, now.rows[k].path)
  }

  lemma ArrivedFurther<P>(before: Media<P>, mid: Media<P>, after: Media<P>, videos: seq<Video>, n: nat, stamp: int,
                          id: int, pending: bool, failed: bool)
    requires n < |videos| && ArrivedWalked(before, mid, videos, n) && Carried(mid, after)
    requires Visited(mid, after, videos[n], stamp, id, pending, failed)
    ensures ArrivedWalked(before, after, videos, n + 1)
  {
    forall k | k in after.rows && k !in before.rows ensures Walked(videos, n + 1, after.rows[k].path) {
      WalkedMore(videos, n, after.rows[k].path);
    }
  }

  ghost predicate Pending<P>(now: Media<P>, videos: seq<Video>, n: nat, pending: seq<int>)
    requires n <= |videos|
  {
    forall k | k in pending :: k in now.rows && Walked(videos, n, now.rows[k].path)
  }

  ghost predicate Progress<P>(before: Media<P>, now: Media<P>, videos: seq<Video>, n: nat, stamp: int,
                              pending: seq<int>, unreadable: bool)
    requires n <= |videos|
  {
    && Carried(before, now) && Others(before, now, videos, n) && Arrived(before, now, stamp)
    && (Marked(before, now, videos, n, stamp, pending) || unreadable)
    && Pending(now, videos, n, pending) && ArrivedWalked(before, now, videos, n)
  }

  lemma WalkedMore(videos: seq<Video>, n: nat, path: string)
    requires n < |videos|
    ensures Walked(videos, n + 1, path) <==> Walked(videos, n, path) || videos[n].path == path
  {
  }

  lemma CarriedFurther<P>(before: Media<P>, mid: Media<P>, after: Media<P>, v: Video, stamp: int, id: int,
                           pending: bool, failed: bool)
    requires Carried(before, mid) && Arrived(before, mid, stamp) && Visited(mid, after, v, stamp, id, pending, failed)
    ensures Carried(before, after) && Carried(mid, after) && Arrived(before, after, stamp)
  {
    forall k | k in mid.rows
      ensures k in after.rows && after.rows[k].inc == mid.rows[k].inc && after.rows[k].path == mid.rows[k].path
      ensures after.rows[k].stamp >= mid.rows[k].stamp
    {
      if mid.rows[k].path != v.path {
        assert after.rows[k] == mid.rows[k];
      }
    }
  }

  lemma OthersFurther<P>(before: Media<P>, mid: Media<P>, after: Media<P>, videos: seq<Video>, n: nat, stamp: int,
                          id: int, pending: bool, failed: bool)
    requires n < |videos| && Carried(before, mid) && Carried(before, after) && Others(before, mid, videos, n)
    requires Visited(mid, after, videos[n], stamp, id, pending, failed)
    ensures Others(before, after, videos, n + 1)
  {
    forall k | k in before.rows && !Walked(videos, n + 1, before.rows[k].path) ensures after.rows[k] == before.rows[k] {
      WalkedMore(videos, n, before.rows[k].path);
    }
  }

  lemma MarkedFurther<P>(before: Media<P>, mid: Media<P>, after: Media<P>, videos: seq<Video>, n: nat, stamp: int,
                         ids: seq<int>, id: int, pending: bool)
    requires n < |videos| && Carried(before, mid) && Carried(before, after) && Carried(mid, after)
    requires Marked(before, mid, videos, n, stamp, ids) && Visited(mid, after, videos[n], stamp, id, pending, false)
    ensures Marked(before, after, videos, n + 1, stamp, if pending then ids + [id] else ids)
  {
    var ids' := if pending then ids + [id] else ids;
    forall k | k in before.rows && Walked(videos, n + 1, before.rows[k].path)
      ensures after.rows[k].stamp >= stamp || k in ids'
    {
      WalkedMore(videos, n, before.rows[k].path);
      if before.rows[k].path == videos[n].path {
        assert k in mid.rows;
      }
    }
  }

  lemma PendingFurther<P>(mid: Media<P>, after: Media<P>, videos: seq<Video>, n: nat, stamp: int, ids: seq<int>,
                           id: int, pending: bool, failed: bool)
    requires n < |videos| && Carried(mid, after) && Pending(mid, videos, n, ids)
    requires Visited(mid, after, videos[n], stamp, id, pending, failed)
    ensures Pending(after, videos, n + 1, if pending then ids + [id] else ids)
  {
    forall k | k in ids ensures k in after.rows && Walked(videos, n + 1, after.rows[k].path) {
      WalkedMore(videos, n, mid.rows[k].path);
    }
    WalkedMore(videos, n, videos[n].path);
  }

  lemma ProgressFurther<P>(before: Media<P>, mid: Media<P>, after: Media<P>, videos: seq<Video>, n: nat, stamp: int,
                           ids: seq<int>, unreadable: bool, id: int, pending: bool, failed: bool)
    requires n < |videos| && Progress(before, mid, videos, n, stamp, ids, unreadable)
    requires Visited(mid, after, videos[n], stamp, id, pending, failed)
    ensures Progress(before, after, videos, n + 1, stamp, if pending then ids + [id] else ids, unreadable || failed)
  {
    CarriedFurther(before, mid, after, videos[n], stamp, id, pending, failed);
    OthersFurther(before, mid, after, videos, n, stamp, id, pending, failed);
    ArrivedFurther(before, mid, after, videos, n, stamp, id, pending, failed);
    PendingFurther(mid, after, videos, n, stamp, ids, id, pending, failed);
    if !unreadable && !failed {
      MarkedFurther(before, mid, after, videos, n, stamp, ids, id, pending);
    }
  }

  // ---- rows of videos that were scanned without any error ----

  ghost predicate DistinctPaths(videos: seq<Video>) {
    forall i, j | 0 <= i < j < |videos| :: videos[i].path != videos[j].path
  }

  /** The row tells the file as it is: size and mtime, links, sidecars, and the probe of those contents. */
  ghost predicate Current<P>(before: Media<P>, now: Media<P>, v: Video, contents: map<string, P>, id: int,
                             stamp: int, pending: seq<int>) {
    && HasPath(now.rows, id, v.path)
    && var row := now.rows[id];
       && row.fp == v.fp && row.nlink == v.nlink && row.summary == v.summary && row.probe.Some?
       && ((v.path in contents && row.probe == Some(contents[v.path]))
           || (id in before.rows && before.rows[id].path == v.path && before.rows[id].fp == v.fp
               && row.probe == before.rows[id].probe))
       && (row.stamp >= stamp || id in pending)
  }

  ghost predicate IsCurrent<P>(before: Media<P>, now: Media<P>, v: Video, contents: map<string, P>, stamp: int,
                               pending: seq<int>) {
    exists id :: Current(before, now, v, contents, id, stamp, pending)
  }

  ghost predicate AllCurrent<P>(before: Media<P>, now: Media<P>, videos: seq<Video>, n: nat, contents: map<string, P>,
                                stamp: int, pending: seq<int>)
    requires n <= |videos|
  {
    forall j | 0 <= j < n :: IsCurrent(before, now, videos[j], contents, stamp, pending)
  }

  lemma CurrentFurther<P>(before: Media<P>, mid: Media<P>, after: Media<P>, videos: seq<Video>, n: nat,
                          contents: map<string, P>, stamp: int, ids: seq<int>, unreadable: bool, id: int, pending: bool)
    requires n < |videos| && DistinctPaths(videos) && Progress(before, mid, videos, n, stamp, ids, unreadable)
    requires AllCurrent(before, mid, videos, n, contents, stamp, ids)
    requires Visited(mid, after, videos[n], stamp, id, pending, false) && UpToDate(mid, after, videos[n], contents, id)
    ensures AllCurrent(before, after, videos, n + 1, contents, stamp, if pending then ids + [id] else ids)
  {
    var ids' := if pending then ids + [id] else ids;
    forall j | 0 <= j < n + 1 ensures IsCurrent(before, after, videos[j], contents, stamp, ids') {
      if j < n {
        var k :| Current(before, mid, videos[j], contents, k, stamp, ids);
        assert after.rows[k] == mid.rows[k];
        assert Current(before, after, videos[j], contents, k, stamp, ids');
      } else {
        JustCurrent(before, mid, after, videos, n, contents, stamp, ids, unreadable, id, pending);
      }
    }
  }

  lemma JustCurrent<P>(before: Media<P>, mid: Media<P>, after: Media<P>, videos: seq<Video>, n: nat,
                       contents: map<string, P>, stamp: int, ids: seq<int>, unreadable: bool, id: int, pending: bool)
    requires n < |videos| && DistinctPaths(videos) && Progress(before, mid, videos, n, stamp, ids, unreadable)
    requires Visited(mid, after, videos[n], stamp, id, pending, false) && UpToDate(mid, after, videos[n], contents, id)
    ensures Current(before, after, videos[n], contents, id, stamp, if pending then ids + [id] else ids)
  {
    assert !Walked(videos, n, videos[n].path);
    if id in mid.rows {
      assert mid.rows[id].path == videos[n].path;
      assert id in before.rows ==> mid.rows[id] == before.rows[id];
    }
  }

  // ---- the end of ScanLibrary ----

  /** The rows a prune must keep: those of walked videos, other libraries', and those stamped since. */
  ghost predicate MustStay<P>(row: Row<P>, videos: seq<Video>, library: int, root: string, stamp: int) {
    || Walked(videos, |videos|, row.path)
    || row.library != library
    || (row.stamp >= stamp && !Paths.PrunedAsOutside(row.path, root))
  }

  ghost predicate AllInside(videos: seq<Video>, root: string) {
    forall j | 0 <= j < |videos| :: !Paths.PrunedAsOutside(videos[j].path, root)
  }

  /** Only rows outside the root may be gone. */
  ghost predicate InsideStay<P>(before: Media<P>, now: Media<P>, root: string) {
    forall k | k in before.rows && !Paths.PrunedAsOutside(before.rows[k].path, root) ::
      k in now.rows && now.rows[k].path == before.rows[k].path && now.rows[k].inc == before.rows[k].inc
  }

  ghost predicate OthersStay<P>(before: Media<P>, now: Media<P>, videos: seq<Video>, library: int) {
    forall k | k in before.rows && !Walked(videos, |videos|, before.rows[k].path) && before.rows[k].library != library ::
      k in now.rows && now.rows[k] == before.rows[k]
  }

  /** The state just before the guards: walked rows are stamped, rows outside the root are gone. */
  ghost predicate Swept<P>(before: Media<P>, now: Media<P>, videos: seq<Video>, library: int, root: string,
                           stamp: int, unreadable: bool) {
    && InsideStay(before, now, root) && OthersStay(before, now, videos, library)
    && (forall k | k in before.rows && k in now.rows && !Walked(videos, |videos|, before.rows[k].path) ::
         now.rows[k] == before.rows[k])
    && (!unreadable ==>
          forall k | k in before.rows && k in now.rows && Walked(videos, |videos|, before.rows[k].path) ::
            now.rows[k].stamp >= stamp)
    && (forall k | k in before.rows && k in now.rows :: !OutsideRoot(now.rows[k], library, root))
    && Arrived(before, now, stamp)
  }

  /** Only rows of the library that lie outside its root may be gone. */
  ghost predicate OnlyOutsideGo<P>(before: Media<P>, now: Media<P>, library: int, root: string) {
    forall k | k in before.rows && !OutsideRoot(before.rows[k], library, root) ::
      k in now.rows && now.rows[k].path == before.rows[k].path && now.rows[k].inc == before.rows[k].inc
  }

  lemma SweptOnlyOutside<P>(before: Media<P>, now: Media<P>, videos: seq<Video>, library: int, root: string,
                            stamp: int, unreadable: bool)
    requires Swept(before, now, videos, library, root, stamp, unreadable) && AllInside(videos, root)
    ensures OnlyOutsideGo(before, now, library, root)
  {
    forall k | k in before.rows && !OutsideRoot(before.rows[k], library, root)
      ensures k in now.rows && now.rows[k].path == before.rows[k].path && now.rows[k].inc == before.rows[k].inc
    {
      if Paths.PrunedAsOutside(before.rows[k].path, root) {
        assert !Walked(videos, |videos|, before.rows[k].path);
      }
    }
  }

  /** The old rows inside the root that are gone. */
  ghost function GoneInside<P>(before: map<int, Row<P>>, now: map<int, Row<P>>, root: string): set<int> {
    set k | k in before && k !in now && !Paths.PrunedAsOutside(before[k].path, root)
  }

  /** What the prune counted as stale is what it takes from inside the root. */
  lemma StaleAreGone<P>(before: Media<P>, now: Media<P>, videos: seq<Video>, library: int, root: string, stamp: int)
    requires Swept(before, now, videos, library, root, stamp, false)
    ensures StaleIds(now.rows, library, stamp) == GoneInside(before.rows, Prune(now, library, stamp).rows, root)
  {
    var pruned := Prune(now, library, stamp).rows;
    forall k ensures k in StaleIds(now.rows, library, stamp) <==> k in GoneInside(before.rows, pruned, root) {
      if k in now.rows && k in before.rows {
        assert k in pruned <==> !Stale(now.rows[k], library, stamp);
        assert !OutsideRoot(now.rows[k], library, root);
        StaleIsInside(before, now, videos, library, root, stamp, k);
      }
    }
  }

  lemma StaleIsInside<P>(before: Media<P>, now: Media<P>, videos: seq<Video>, library: int, root: string, stamp: int,
                         k: int)
    requires Swept(before, now, videos, library, root, stamp, false) && k in before.rows && k in now.rows
    ensures Stale(now.rows[k], library, stamp) ==> !Paths.PrunedAsOutside(before.rows[k].path, root)
  {
  }

  lemma TouchedAndSwept<P>(before: Media<P>, now: Media<P>, videos: seq<Video>, library: int, root: string, stamp: int,
                           pending: seq<int>, unreadable: bool)
    requires Progress(before, now, videos, |videos|, stamp, pending, unreadable) && AllInside(videos, root)
    ensures Swept(before, PruneOutside(TouchAll(now, pending, stamp), library, root), videos, library, root, stamp, unreadable)
  {
    var touched := TouchAll(now, pending, stamp);
    forall k | k in before.rows && !Walked(videos, |videos|, before.rows[k].path)
      ensures k in touched.rows && touched.rows[k] == before.rows[k]
    {
      assert now.rows[k].path == before.rows[k].path;
    }
  }

  /** After a prune exactly the rows that must stay are left. */
  lemma PrunedExactly<P>(before: Media<P>, now: Media<P>, videos: seq<Video>, library: int, root: string, stamp: int)
    requires Swept(before, now, videos, library, root, stamp, false) && AllInside(videos, root)
    ensures forall k | k in before.rows ::
              k in Prune(now, library, stamp).rows <==> MustStay(before.rows[k], videos, library, root, stamp)
  {
    forall k | k in before.rows
      ensures k in Prune(now, library, stamp).rows <==> MustStay(before.rows[k], videos, library, root, stamp)
    {
      if Walked(videos, |videos|, before.rows[k].path) {
        var j :| 0 <= j < |videos| && videos[j].path == before.rows[k].path;
      }
    }
  }

  lemma PrunedCount<P>(m: Media<P>, library: int, stamp: int)
    ensures |OfLibrary(Prune(m, library, stamp).rows, library)| + |StaleIds(m.rows, library, stamp)|
         == |OfLibrary(m.rows, library)|
  {
    var kept, stale := OfLibrary(Prune(m, library, stamp).rows, library), StaleIds(m.rows, library, stamp);
    var pruned := Prune(m, library, stamp).rows;
    assert forall id | id in pruned :: id in m.rows && pruned[id] == m.rows[id];
    forall id ensures id in kept + stale <==> id in OfLibrary(m.rows, library) {
      if id in m.rows && !Stale(m.rows[id], library, stamp) {
        assert id in pruned;
      }
    }
    assert kept !! stale;
    assert kept + stale == OfLibrary(m.rows, library);
  }

  /** The old rows inside the root that a prune is to take. */
  ghost function MustGo<P>(before: map<int, Row<P>>, videos: seq<Video>, library: int, root: string, stamp: int): set<int> {
    set k | k in before && !MustStay(before[k], videos, library, root, stamp) && !Paths.PrunedAsOutside(before[k].path, root)
  }

  lemma StaleMustGo<P>(before: Media<P>, now: Media<P>, videos: seq<Video>, library: int, root: string, stamp: int)
    requires Swept(before, now, videos, library, root, stamp, false) && AllInside(videos, root)
    ensures StaleIds(now.rows, library, stamp) == MustGo(before.rows, videos, library, root, stamp)
  {
    PrunedExactly(before, now, videos, library, root, stamp);
    StaleAreGone(before, now, videos, library, root, stamp);
    var pruned := Prune(now, library, stamp).rows;
    forall k ensures k in GoneInside(before.rows, pruned, root) <==> k in MustGo(before.rows, videos, library, root, stamp) {
      if k in before.rows {
        assert k in pruned <==> MustStay(before.rows[k], videos, library, root, stamp);
      }
    }
  }

  /** The old rows that the sweep before the guards takes: the library's, outside the root. */
  ghost predicate SweptExactly<P>(before: Media<P>, now: Media<P>, library: int, root: string) {
    forall k | k in before.rows :: k in now.rows <==> !OutsideRoot(before.rows[k], library, root)
  }

  lemma SweptIsExact<P>(before: Media<P>, now: Media<P>, videos: seq<Video>, library: int, root: string,
                        stamp: int, unreadable: bool)
    requires Swept(before, now, videos, library, root, stamp, unreadable) && AllInside(videos, root)
    ensures SweptExactly(before, now, library, root)
  {
    SweptOnlyOutside(before, now, videos, library, root, stamp, unreadable);
    forall k | k in before.rows && OutsideRoot(before.rows[k], library, root) ensures k !in now.rows {
      assert !Walked(videos, |videos|, before.rows[k].path);
    }
  }

  /** Stamping the pending rows and taking out others leaves the current ones current. */
  lemma StillCurrent<P>(before: Media<P>, now: Media<P>, videos: seq<Video>, library: int, root: string,
                        contents: map<string, P>, stamp: int, pending: seq<int>)
    requires AllCurrent(before, now, videos, |videos|, contents, stamp, pending) && AllInside(videos, root)
    ensures AllCurrent(before, PruneOutside(TouchAll(now, pending, stamp), library, root), videos, |videos|, contents, stamp, [])
  {
    var swept := PruneOutside(TouchAll(now, pending, stamp), library, root);
    forall j | 0 <= j < |videos| ensures IsCurrent(before, swept, videos[j], contents, stamp, []) {
      var k :| Current(before, now, videos[j], contents, k, stamp, pending);
      assert Current(before, swept, videos[j], contents, k, stamp, []);
    }
  }

  lemma PrunedCurrent<P>(before: Media<P>, now: Media<P>, videos: seq<Video>, library: int, contents: map<string, P>, stamp: int)
    requires AllCurrent(before, now, videos, |videos|, contents, stamp, [])
    ensures AllCurrent(before, Prune(now, library, stamp), videos, |videos|, contents, stamp, [])
  {
    forall j | 0 <= j < |videos| ensures IsCurrent(before, Prune(now, library, stamp), videos[j], contents, stamp, []) {
      var k :| Current(before, now, videos[j], contents, k, stamp, []);
      assert Current(before, Prune(now, library, stamp), videos[j], contents, k, stamp, []);
    }
  }

  class LibraryScanner<P(==)> {
    const store: MediaStore<P>
    const contents: map<string, P>   // what ffprobe reports of each file
    ghost var failedProbes: nat

    constructor (store: MediaStore<P>, contents: map<string, P>)
      ensures this.store == store && this.contents == contents
    {
      this.store := store;
      this.contents := contents;
      failedProbes := 0;
    }

    /** How many statements and probes have failed. */
    ghost function Failures(): nat
      reads this, store
    {
      store.failures + store.failedLookups + failedProbes
    }

    method Probe(path: string) returns (r: Option<P>)
      modifies this`failedProbes
      ensures failedProbes == old(failedProbes) + if r.None? then 1 else 0
      ensures r.Some? ==> path in contents && r.value == contents[path]
    {
      var fails: bool := *;
      if fails || path !in contents {
        failedProbes := failedProbes + 1;
        return None;
      }
      return Some(contents[path]);
    }

    /** id 0 stands for no row. An error is that of a statement or the probe. */
    method ScanOne(library: int, v: Video, stamp: int) returns (same: bool, id: int, err: Option<ScanError>)
      requires UniquePaths(store.rows) && PositiveIds(store.rows)
      modifies store, this`failedProbes
      ensures PositiveIds(store.rows)
      ensures err == Some(LookupFailed) ==> store.rows == old(store.rows) && id == 0
      ensures Visited(old(store.View()), store.View(), v, stamp, id,
                      same || (err.Some? && id != 0), err == Some(LookupFailed))
      ensures same ==> err.None? && store.View() == old(store.View())
      ensures err.None? ==> UpToDate(old(store.View()), store.View(), v, contents, id)
      ensures Failures() == old(Failures()) + if err.Some? then 1 else 0
      ensures store.failedLookups == old(store.failedLookups) + if err == Some(LookupFailed) then 1 else 0
      ensures store.failures >= old(store.failures) && failedProbes >= old(failedProbes)
    {
      var found := store.GetFileByPathMeta(v.path);
      if found.Failure? {
        return false, 0, Some(LookupFailed);
      }
      id := if found.value.Some? then found.value.value.id else 0;
      if found.value.Some? && found.value.value.hasProbe && found.value.value.fp == v.fp {
        var meta := found.value.value;
        if meta.nlink == v.nlink && meta.summary == v.summary {
          return true, id, None;
        }
        err := RefreshRow(v, stamp, id);
        return false, id, err;
      }
      id, err := StoreRow(library, v, stamp, id);
      return false, id, err;
    }

    /** The probe of the row is still right: TouchFile and ReplaceSidecars. */
    method RefreshRow(v: Video, stamp: int, id: int) returns (err: Option<ScanError>)
      requires UniquePaths(store.rows) && PositiveIds(store.rows) && HasPath(store.rows, id, v.path)
      requires store.rows[id].fp == v.fp && store.rows[id].probe.Some?
      modifies store
      ensures PositiveIds(store.rows) && err != Some(LookupFailed)
      ensures Visited(old(store.View()), store.View(), v, stamp, id, err.Some?, false)
      ensures err.None? ==> UpToDate(old(store.View()), store.View(), v, contents, id)
      ensures store.failures == old(store.failures) + if err.Some? then 1 else 0
      ensures store.failedLookups == old(store.failedLookups)
    {
      TouchVisits(store.View(), v, stamp, id);
      var ok := store.TouchFile(id, v.nlink, v.summary, stamp);
      if !ok {
        return Some(TouchFailed);
      }
      var replaced := store.ReplaceSidecars(id);
      return if replaced then None else Some(SidecarsFailed);
    }

    /** The file is new or has changed: the probe, UpsertMediaFile and ReplaceSidecars. */
    method StoreRow(library: int, v: Video, stamp: int, known: int) returns (id: int, err: Option<ScanError>)
      requires UniquePaths(store.rows) && PositiveIds(store.rows)
      requires if known == 0 then Absent(store.rows, v.path) else HasPath(store.rows, known, v.path)
      modifies store, this`failedProbes
      ensures PositiveIds(store.rows) && err != Some(LookupFailed)
      ensures Visited(old(store.View()), store.View(), v, stamp, id, err.Some? && id != 0, false)
      ensures err.None? ==> UpToDate(old(store.View()), store.View(), v, contents, id)
      ensures Failures() == old(Failures()) + if err.Some? then 1 else 0
      ensures store.failedLookups == old(store.failedLookups) && store.failures >= old(store.failures)
      ensures failedProbes >= old(failedProbes)
    {
      id := known;
      var res := Probe(v.path);
      if res.None? {
        return id, Some(ProbeFailed);
      }
      var r := store.UpsertMediaFile(Row(0, library, v.path, v.fp, v.nlink, v.summary, res, stamp));
      if r.Failure? {
        return id, Some(UpsertFailed);
      }
      UpsertVisits(old(store.View()), v, r.value, Row(0, library, v.path, v.fp, v.nlink, v.summary, res, stamp));
      var replaced := store.ReplaceSidecars(r.value);
      return r.value, if replaced then None else Some(SidecarsFailed);
    }

    /** The probing loop: which ids are left to stamp, and whether any lookup failed. */
    method ScanVideos(library: int, videos: seq<Video>, walkError: bool, start: int)
      returns (pending: seq<int>, unreadable: bool)
      requires UniquePaths(store.rows) && PositiveIds(store.rows)
      modifies store, this`failedProbes
      ensures Progress(old(store.View()), store.View(), videos, |videos|, start, pending, unreadable)
      ensures unreadable <==> walkError || store.failedLookups > old(store.failedLookups)
      ensures store.failures >= old(store.failures) && store.failedLookups >= old(store.failedLookups)
      ensures Failures() >= old(Failures()) && failedProbes >= old(failedProbes)
      ensures Failures() == old(Failures()) && DistinctPaths(videos) ==>
                AllCurrent(old(store.View()), store.View(), videos, |videos|, contents, start, pending)
    {
      unreadable := walkError;
      pending := [];
      var i := 0;
      while i < |videos|
        invariant 0 <= i <= |videos|
        invariant UniquePaths(store.rows) && PositiveIds(store.rows)
        invariant Progress(old(store.View()), store.View(), videos, i, start, pending, unreadable)
        invariant unreadable <==> walkError || store.failedLookups > old(store.failedLookups)
        invariant store.failures >= old(store.failures) && store.failedLookups >= old(store.failedLookups)
        invariant Failures() >= old(Failures()) && failedProbes >= old(failedProbes)
        invariant Failures() == old(Failures()) && DistinctPaths(videos) ==>
                    AllCurrent(old(store.View()), store.View(), videos, i, contents, start, pending)
      {
        pending, unreadable := ScanNext(library, videos, i, start, pending, unreadable, old(store.View()), old(Failures()));
        i := i + 1;
      }
    }

    /** The loop's body for video i; `before` are the rows before the loop, and `failures` what had failed by then. */
    method ScanNext(library: int, videos: seq<Video>, i: nat, start: int, pending: seq<int>, unreadable: bool,
                    ghost before: Media<P>, ghost failures: nat)
      returns (pending': seq<int>, unreadable': bool)
      requires i < |videos| && UniquePaths(store.rows) && PositiveIds(store.rows)
      requires Progress(before, store.View(), videos, i, start, pending, unreadable)
      requires Failures() >= failures
      requires Failures() == failures && DistinctPaths(videos) ==>
                 AllCurrent(before, store.View(), videos, i, contents, start, pending)
      modifies store, this`failedProbes
      ensures UniquePaths(store.rows) && PositiveIds(store.rows)
      ensures Progress(before, store.View(), videos, i + 1, start, pending', unreadable')
      ensures unreadable' <==> unreadable || store.failedLookups > old(store.failedLookups)
      ensures store.failures >= old(store.failures) && store.failedLookups >= old(store.failedLookups)
      ensures Failures() >= old(Failures()) && failedProbes >= old(failedProbes)
      ensures Failures() == failures && DistinctPaths(videos) ==>
                AllCurrent(before, store.View(), videos, i + 1, contents, start, pending')
    {
      ghost var mid := store.View();
      pending', unreadable' := pending, unreadable;
      var same, id, err := ScanOne(library, videos[i], start);
      ProgressFurther(before, mid, store.View(), videos, i, start, pending, unreadable, id,
                      same || (err.Some? && id != 0), err == Some(LookupFailed));
      if err.Some? {
        if id != 0 {
          pending' := pending + [id];
        } else if err.value.LookupFailed? {
          unreadable' := true;
        }
      } else {
        if same {
          pending' := pending + [id];
        }
        if Failures() == failures && DistinctPaths(videos) {
          CurrentFurther(before, mid, store.View(), videos, i, contents, start, pending, unreadable, id, same);
        }
      }
    }

    /** The guards and the prune, once walked rows are stamped and outside rows are gone. */
    method GuardedPrune(library: int, start: int, ratio: real) returns (outcome: Outcome, removed: nat)
      modifies store
      ensures outcome in {DbError, TooMany, Pruned}
      ensures store.View() == if outcome.Pruned? then Prune(old(store.View()), library, start) else old(store.View())
      ensures removed == if outcome.Pruned? then |StaleIds(old(store.rows), library, start)| else 0
      ensures store.failures == old(store.failures) + if outcome.DbError? then 1 else 0
      ensures store.failedLookups == old(store.failedLookups)
      ensures !outcome.DbError? ==>
                (outcome.TooMany? <==>
                   && |StaleIds(old(store.rows), library, start)| > 5
                   && |StaleIds(old(store.rows), library, start)| as real > ratio * |OfLibrary(old(store.rows), library)| as real)
    {
      var total := store.CountFilesByLibrary(library);
      if total.Failure? {
        return DbError, 0;
      }
      var stale := store.CountStaleFiles(library, start);
      if stale.Failure? {
        return DbError, 0;
      }
      StaleOfLibrary(store.rows, library, start);
      if total.value > 0 && stale.value > 5 && stale.value as real > ratio * total.value as real {
        return TooMany, 0;
      }
      var ok := store.PruneFiles(library, start);
      if !ok {
        return DbError, 0;
      }
      return Pruned, stale.value;
    }

    /**
     ScanLibrary from the end of the walk on. `walkError` is what the walk reported,
     `root` the library path it walked, and `current` what GetLibrary finds there
     afterwards (None: removed). `removed` is what the final prune reports. Every
     ending has its one cause, and says what it did to the rows.
     */
    method ScanLibrary(library: int, root: string, current: Result<Option<string>, ()>, videos: seq<Video>,
                       walkError: bool, start: int, ratio: real)
      returns (outcome: Outcome, removed: nat)
      requires UniquePaths(store.rows) && PositiveIds(store.rows) && AllInside(videos, root)
      modifies store, this`failedProbes
      ensures outcome.Moved? <==> current.Success? && current != Success(Some(root))
      ensures current.Failure? ==> outcome.DbError?
      ensures outcome.DbError? ==> current.Failure? || store.failures > old(store.failures)
      ensures outcome.Unreadable? ==> walkError || store.failedLookups > old(store.failedLookups)
      ensures walkError || store.failedLookups > old(store.failedLookups) ==> outcome !in {TooMany, Pruned}
      ensures outcome.FoundNothing? ==> videos == [] && OfLibrary(store.rows, library) != {}
      ensures videos == [] && outcome in {Unreadable, TooMany, Pruned} && Failures() == old(Failures()) ==>
                OfLibrary(store.rows, library) == {}
      ensures outcome in {TooMany, Pruned} ==>
                var stale := |MustGo(old(store.rows), videos, library, root, start)|;
                var total := |OfLibrary(store.rows, library)| + removed;
                outcome.TooMany? <==> stale > 5 && stale as real > ratio * total as real
      ensures outcome.Pruned? ==>
                && removed == |MustGo(old(store.rows), videos, library, root, start)|
                && forall k | k in old(store.rows) ::
                     k in store.rows <==> MustStay(old(store.rows)[k], videos, library, root, start)
      ensures outcome in {FoundNothing, Unreadable, TooMany} ==> SweptExactly(old(store.View()), store.View(), library, root)
      ensures Failures() == old(Failures()) && current == Success(Some(root)) && !walkError && videos != [] ==>
                var stale := |MustGo(old(store.rows), videos, library, root, start)|;
                var total := |OfLibrary(store.rows, library)| + removed;
                outcome.Pruned? <==> stale <= 5 || stale as real <= ratio * total as real
      ensures outcome.Moved? ==> forall k | k in old(store.rows) :: k in store.rows
      ensures !outcome.Pruned? ==> removed == 0 && OnlyOutsideGo(old(store.View()), store.View(), library, root)
      ensures Failures() == old(Failures()) && DistinctPaths(videos) && outcome in {TooMany, Pruned} ==>
                AllCurrent(old(store.View()), store.View(), videos, |videos|, contents, start, [])
    {
      ghost var before := store.View();
      var pending, unreadable := ScanVideos(library, videos, walkError, start);
      if current.Failure? {
        return DbError, 0;
      }
      if current.value != Some(root) {
        return Moved, 0;
      }
      var swept := TouchAndSweep(library, root, videos, pending, unreadable, start, before);
      if !swept {
        return DbError, 0;
      }
      outcome, removed := Guards(library, root, videos, unreadable, start, ratio, before);
    }

    /** TouchFilesBulk and PruneFilesOutside. */
    method TouchAndSweep(library: int, root: string, videos: seq<Video>, pending: seq<int>, unreadable: bool, start: int,
                         ghost before: Media<P>)
      returns (ok: bool)
      requires AllInside(videos, root) && Progress(before, store.View(), videos, |videos|, start, pending, unreadable)
      modifies store
      ensures store.failures == old(store.failures) + if ok then 0 else 1
      ensures store.failedLookups == old(store.failedLookups)
      ensures ok ==> Swept(before, store.View(), videos, library, root, start, unreadable)
      ensures !ok ==> forall k | k in before.rows ::
                        k in store.rows && store.rows[k].path == before.rows[k].path && store.rows[k].inc == before.rows[k].inc
      ensures ok && AllCurrent(before, old(store.View()), videos, |videos|, contents, start, pending) ==>
                AllCurrent(before, store.View(), videos, |videos|, contents, start, [])
    {
      TouchedAndSwept(before, store.View(), videos, library, root, start, pending, unreadable);
      if AllCurrent(before, store.View(), videos, |videos|, contents, start, pending) {
        StillCurrent(before, store.View(), videos, library, root, contents, start, pending);
      }
      var touched := store.TouchFilesBulk(pending, start);
      if !touched {
        return false;
      }
      ok := store.PruneFilesOutside(library, root);
    }

    /** The rest of ScanLibrary, from the guard on a walk that found no videos. */
    method Guards(library: int, root: string, videos: seq<Video>, unreadable: bool, start: int, ratio: real,
                  ghost before: Media<P>)
      returns (outcome: Outcome, removed: nat)
      requires AllInside(videos, root) && Swept(before, store.View(), videos, library, root, start, unreadable)
      modifies store
      ensures store.failures >= old(store.failures) && store.failedLookups == old(store.failedLookups)
      ensures outcome in {DbError, FoundNothing, Unreadable, TooMany, Pruned}
      ensures outcome.DbError? ==> store.failures > old(store.failures)
      ensures outcome.Unreadable? ==> unreadable
      ensures unreadable ==> outcome !in {TooMany, Pruned}
      ensures outcome.FoundNothing? ==> videos == [] && OfLibrary(store.rows, library) != {}
      ensures videos == [] && outcome in {Unreadable, TooMany, Pruned} && store.failures == old(store.failures) ==>
                OfLibrary(store.rows, library) == {}
      ensures outcome in {TooMany, Pruned} ==>
                var stale := |MustGo(before.rows, videos, library, root, start)|;
                var total := |OfLibrary(store.rows, library)| + removed;
                outcome.TooMany? <==> stale > 5 && stale as real > ratio * total as real
      ensures outcome.Pruned? ==>
                && removed == |MustGo(before.rows, videos, library, root, start)|
                && forall k | k in before.rows :: k in store.rows <==> MustStay(before.rows[k], videos, library, root, start)
      ensures outcome in {FoundNothing, Unreadable, TooMany} ==> SweptExactly(before, store.View(), library, root)
      ensures !outcome.Pruned? ==> removed == 0 && OnlyOutsideGo(before, store.View(), library, root)
      ensures AllCurrent(before, old(store.View()), videos, |videos|, contents, start, []) ==>
                AllCurrent(before, store.View(), videos, |videos|, contents, start, [])
    {
      ghost var now := store.View();
      SweptOnlyOutside(before, now, videos, library, root, start, unreadable);
      SweptIsExact(before, now, videos, library, root, start, unreadable);
      if |videos| == 0 {
        var existing := store.CountFilesByLibrary(library);
        if existing.Success? && existing.value > 0 {
          return FoundNothing, 0;
        }
      }
      if unreadable {
        return Unreadable, 0;
      }
      StaleMustGo(before, now, videos, library, root, start);
      PrunedExactly(before, now, videos, library, root, start);
      PrunedCount(now, library, start);
      if AllCurrent(before, now, videos, |videos|, contents, start, []) {
        PrunedCurrent(before, now, videos, library, contents, start);
      }
      outcome, removed := GuardedPrune(library, start, ratio);
    }
  }

  lemma StaleOfLibrary<P>(rows: map<int, Row<P>>, library: int, start: int)
    ensures |StaleIds(rows, library, start)| <= |OfLibrary(rows, library)|
  {
    assert forall id | id in StaleIds(rows, library, start) :: id in OfLibrary(rows, library);
    Sets.SubsetSize(StaleIds(rows, library, start), OfLibrary(rows, library));
  }
}
