/**
 The media_files table (internal/store/store.go). Each SQL statement is one
 function on the rows; the class `MediaStore` runs them, and any of its
 statements may fail and change nothing.
 */
module Catalogue {
  import opened Wrappers
  import JobTable
  import Paths
  import Sets

  type Fingerprint = JobTable.Fingerprint

  /** `inc` names the row's incarnation: an id may be handed out again after a delete. */
  datatype Row<P> = Row(inc: nat, library: int, path: string, fp: Fingerprint, nlink: nat, summary: string,
                        probe: Option<P>, stamp: int)

  datatype Media<P> = Media(rows: map<int, Row<P>>, nextInc: nat)

  function Max(a: int, b: int): int {
    if a < b then b else a
  }

  function Stamped<P>(row: Row<P>, stamp: int): Row<P> {
    row.(stamp := Max(row.stamp, stamp))
  }

  predicate HasPath<P>(rows: map<int, Row<P>>, id: int, path: string) {
    id in rows && rows[id].path == path
  }

  predicate Absent<P>(rows: map<int, Row<P>>, path: string) {
    forall id | id in rows :: rows[id].path != path
  }

  predicate UniquePaths<P>(rows: map<int, Row<P>>) {
    forall i, j | i in rows && j in rows && rows[i].path == rows[j].path :: i == j
  }

  // ---- the statements ----

  /** UPDATE ... SET scanned_at=max(...), nlink, sidecar_summary WHERE id. */
  function Touch<P>(m: Media<P>, id: int, nlink: nat, summary: string, stamp: int): Media<P> {
    if id in m.rows
    then m.(rows := m.rows[id := Stamped(m.rows[id], stamp).(nlink := nlink, summary := summary)])
    else m
  }

  function TouchAll<P>(m: Media<P>, ids: seq<int>, stamp: int): Media<P> {
    m.(rows := map id | id in m.rows :: if id in ids then Stamped(m.rows[id], stamp) else m.rows[id])
  }

  /** The id an upsert writes: the row of that path if there is one, otherwise a new id. */
  predicate UpsertId<P>(rows: map<int, Row<P>>, id: int, path: string) {
    if id in rows then rows[id].path == path
    else
      Absent(rows, path)
      && (if rows == map[] then id == 1 else id - 1 in rows && forall k | k in rows :: k < id)
  }

  /** INSERT ... ON CONFLICT(path) DO UPDATE; the row keeps its id and its stamp never goes down. */
  function Upsert<P>(m: Media<P>, id: int, new_: Row<P>): Media<P> {
    if id in m.rows
    then m.(rows := m.rows[id := new_.(inc := m.rows[id].inc, path := m.rows[id].path,
                                        stamp := Max(m.rows[id].stamp, new_.stamp))])
    else Media(m.rows[id := new_.(inc := m.nextInc)], m.nextInc + 1)
  }

  predicate Stale<P>(row: Row<P>, library: int, start: int) {
    row.library == library && row.stamp < start
  }

  function Prune<P>(m: Media<P>, library: int, start: int): Media<P> {
    m.(rows := map id | id in m.rows && !Stale(m.rows[id], library, start) :: m.rows[id])
  }

  predicate OutsideRoot<P>(row: Row<P>, library: int, root: string) {
    row.library == library && Paths.PrunedAsOutside(row.path, root)
  }

  function PruneOutside<P>(m: Media<P>, library: int, root: string): Media<P> {
    m.(rows := map id | id in m.rows && !OutsideRoot(m.rows[id], library, root) :: m.rows[id])
  }

  /** The rows of a library that was deleted or given another path. */
  function DropLibrary<P>(m: Media<P>, library: int): Media<P> {
    m.(rows := map id | id in m.rows && m.rows[id].library != library :: m.rows[id])
  }

  // ---- TouchFilesBulk's batches ----

  const BATCH := 500

  lemma TouchInTwo<P>(m: Media<P>, a: seq<int>, b: seq<int>, stamp: int)
    ensures TouchAll(TouchAll(m, a, stamp), b, stamp) == TouchAll(m, a + b, stamp)
  {
    var two, one := TouchAll(TouchAll(m, a, stamp), b, stamp).rows, TouchAll(m, a + b, stamp).rows;
    assert two.Keys == one.Keys;
    forall id | id in m.rows ensures two[id] == one[id] {
      assert id in a + b <==> id in a || id in b;
    }
  }

  datatype Meta = Meta(id: int, fp: Fingerprint, nlink: nat, summary: string, hasProbe: bool)

  class MediaStore<P(==)> {
    var rows: map<int, Row<P>>
    var nextInc: nat
    ghost var failedLookups: nat  // statements that failed so far: GetFileByPathMeta
    ghost var failures: nat       // and any other

    ghost function View(): Media<P>
      reads this
    {
      Media(rows, nextInc)
    }

    /** Failure is a database error; Success(None) is a path with no row. */
    method GetFileByPathMeta(path: string) returns (r: Result<Option<Meta>, ()>)
      modifies this`failedLookups
      ensures failedLookups == old(failedLookups) + if r.Failure? then 1 else 0
      ensures r == Success(None) ==> Absent(rows, path)
      ensures r.Success? && r.value.Some? ==>
                var meta := r.value.value;
                && HasPath(rows, meta.id, path)
                && var row := rows[meta.id];
                   meta == Meta(meta.id, row.fp, row.nlink, row.summary, row.probe.Some?)
    {
      var fails: bool := *;
      if fails {
        failedLookups := failedLookups + 1;
        return Failure(());
      }
      if id :| id in rows && rows[id].path == path {
        var row := rows[id];
        return Success(Some(Meta(id, row.fp, row.nlink, row.summary, row.probe.Some?)));
      }
      return Success(None);
    }

    method UpsertMediaFile(new_: Row<P>) returns (r: Result<int, ()>)
      modifies this`rows, this`nextInc, this`failures
      ensures failures == old(failures) + if r.Failure? then 1 else 0
      ensures r.Failure? ==> View() == old(View())
      ensures r.Success? ==> UpsertId(old(rows), r.value, new_.path) && View() == Upsert(old(View()), r.value, new_)
    {
      var fails: bool := *;
      if fails {
        failures := failures + 1;
        return Failure(());
      }
      if id :| id in rows && rows[id].path == new_.path {
        rows := rows[id := new_.(inc := rows[id].inc, path := rows[id].path, stamp := Max(rows[id].stamp, new_.stamp))];
        return Success(id);
      }
      var id := 1;
      if rows != map[] {
        Sets.Greatest(rows.Keys);
        var last :| last in rows.Keys && forall k | k in rows.Keys :: k <= last;
        id := last + 1;
      }
      rows := rows[id := new_.(inc := nextInc)];
      nextInc := nextInc + 1;
      return Success(id);
    }

    method TouchFile(id: int, nlink: nat, summary: string, stamp: int) returns (ok: bool)
      modifies this`rows, this`failures
      ensures failures == old(failures) + if ok then 0 else 1
      ensures View() == if ok then Touch(old(View()), id, nlink, summary, stamp) else old(View())
    {
      ok := *;
      if !ok {
        failures := failures + 1;
      } else if id in rows {
        rows := rows[id := Stamped(rows[id], stamp).(nlink := nlink, summary := summary)];
      }
    }

    /** One transaction of batched updates: all of the ids are stamped, or none. */
    method TouchFilesBulk(ids: seq<int>, stamp: int) returns (ok: bool)
      modifies this`rows, this`failures
      ensures failures == old(failures) + if ok then 0 else 1
      ensures View() == if ok then TouchAll(old(View()), ids, stamp) else old(View())
    {
      if |ids| == 0 {
        assert TouchAll(View(), ids, stamp).rows == rows;
        return true;
      }
      var before := rows;
      var i := 0;
      assert TouchAll(old(View()), ids[..0], stamp).rows == rows;
      while i < |ids|
        invariant 0 <= i <= |ids|
        invariant View() == TouchAll(old(View()), ids[..i], stamp) && failures == old(failures)
      {
        var end := i + BATCH;
        if end > |ids| {
          end := |ids|;
        }
        var batch := ids[i..end];
        var fails: bool := *;
        if fails {
          rows := before;
          failures := failures + 1;
          return false;
        }
        TouchInTwo(old(View()), ids[..i], batch, stamp);
        assert ids[..end] == ids[..i] + batch;
        rows := map id | id in rows :: if id in batch then Stamped(rows[id], stamp) else rows[id];
        i := end;
      }
      assert ids[..i] == ids;
      return true;
    }

    method PruneFiles(library: int, start: int) returns (ok: bool)
      modifies this`rows, this`failures
      ensures failures == old(failures) + if ok then 0 else 1
      ensures View() == if ok then Prune(old(View()), library, start) else old(View())
    {
      ok := *;
      if ok {
        rows := map id | id in rows && !Stale(rows[id], library, start) :: rows[id];
      } else {
        failures := failures + 1;
      }
    }

    method PruneFilesOutside(library: int, root: string) returns (ok: bool)
      modifies this`rows, this`failures
      ensures failures == old(failures) + if ok then 0 else 1
      ensures View() == if ok then PruneOutside(old(View()), library, root) else old(View())
    {
      ok := *;
      if ok {
        rows := map id | id in rows && !OutsideRoot(rows[id], library, root) :: rows[id];
      } else {
        failures := failures + 1;
      }
    }

    /** The sidecars are kept in another table. */
    method ReplaceSidecars(id: int) returns (ok: bool)
      modifies this`failures
      ensures failures == old(failures) + if ok then 0 else 1
    {
      ok := *;
      if !ok {
        failures := failures + 1;
      }
    }

    method CountFilesByLibrary(library: int) returns (r: Result<nat, ()>)
      modifies this`failures
      ensures failures == old(failures) + if r.Failure? then 1 else 0
      ensures r.Success? ==> r.value == |OfLibrary(rows, library)|
    {
      var fails: bool := *;
      if fails {
        failures := failures + 1;
        return Failure(());
      }
      return Success(|OfLibrary(rows, library)|);
    }

    method CountStaleFiles(library: int, start: int) returns (r: Result<nat, ()>)
      modifies this`failures
      ensures failures == old(failures) + if r.Failure? then 1 else 0
      ensures r.Success? ==> r.value == |StaleIds(rows, library, start)|
    {
      var fails: bool := *;
      if fails {
        failures := failures + 1;
        return Failure(());
      }
      return Success(|StaleIds(rows, library, start)|);
    }
  }

  function OfLibrary<P>(rows: map<int, Row<P>>, library: int): set<int> {
    set id | id in rows && rows[id].library == library
  }

  function StaleIds<P>(rows: map<int, Row<P>>, library: int, start: int): set<int> {
    set id | id in rows && Stale(rows[id], library, start)
  }

  // ---- what every statement keeps ----

  lemma UpsertKeepsPathsUnique<P>(m: Media<P>, id: int, new_: Row<P>)
    requires UniquePaths(m.rows) && UpsertId(m.rows, id, new_.path)
    ensures UniquePaths(Upsert(m, id, new_).rows)
    ensures HasPath(Upsert(m, id, new_).rows, id, new_.path)
  {
  }
}
