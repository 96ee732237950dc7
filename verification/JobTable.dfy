/**
 The jobs table (internal/store/store.go). Every SQL statement is one function
 on `Db`; the class `Store` holds the table and its methods run the statements.
 `inc` names a row's incarnation: SQLite hands out max(id)+1, so an id can come
 back after a delete while an incarnation never does.
 */
module JobTable {
  import opened Wrappers
  import Sets

  datatype Status = Queued | Running | Done | Failed | Skipped | Cancelled {
    predicate Terminal() {
      !Queued? && !Running?
    }

    predicate Retryable() {
      Failed? || Skipped? || Cancelled?
    }
  }

  /** size and mtime in seconds, as media_files and jobs store them. */
  datatype Fingerprint = Fingerprint(size: int, mtime: int)

  datatype Request = Request(kind: string, path: string, payload: string, fp: Option<Fingerprint>)

  datatype Job = Job(inc: nat, req: Request, attempts: nat, status: Status, log: string, saved: int)

  datatype Db = Db(rows: map<int, Job>, nextInc: nat)

  // ---- the statements ----

  /** The id SQLite gives the next row of an INTEGER PRIMARY KEY table. */
  predicate IsNewId(rows: map<int, Job>, id: int) {
    if rows == map[] then id == 1
    else id - 1 in rows && forall k | k in rows :: k < id
  }

  function Insert(db: Db, id: int, req: Request, attempts: nat): Db {
    Db(db.rows[id := Job(db.nextInc, req, attempts, Queued, "", 0)], db.nextInc + 1)
  }

  predicate IsNextQueued(rows: map<int, Job>, id: int) {
    && id in rows && rows[id].status.Queued?
    && forall k | k in rows && rows[k].status.Queued? :: id <= k
  }

  function SetStatus(db: Db, id: int, status: Status, log: string, saved: int): Db
    requires id in db.rows
  {
    db.(rows := db.rows[id := db.rows[id].(status := status, log := log, saved := saved)])
  }

  function Claim(db: Db, id: int): Db
    requires id in db.rows
  {
    db.(rows := db.rows[id := db.rows[id].(status := Running)])
  }

  /** No status guard: the UPDATE names only the id. */
  function Finish(db: Db, id: int, status: Status, log: string, saved: int): Db {
    if id in db.rows then SetStatus(db, id, status, log, saved) else db
  }

  function CancelQueued(db: Db, id: int): Db {
    if id in db.rows && db.rows[id].status.Queued?
    then db.(rows := db.rows[id := db.rows[id].(status := Cancelled, log := "cancelled by user")])
    else db
  }

  function Retry(db: Db, id: int, newId: int): Db {
    if id in db.rows && db.rows[id].status.Retryable()
    then Insert(db, newId, db.rows[id].req, db.rows[id].attempts + 1)
    else db
  }

  function Delete(db: Db, id: int): Db {
    if id in db.rows && !db.rows[id].status.Running? then db.(rows := db.rows - {id}) else db
  }

  function FailRunning(db: Db): Db {
    db.(rows := map id | id in db.rows ::
      if db.rows[id].status.Running?
      then db.rows[id].(status := Failed, log := "interrupted by restart")
      else db.rows[id])
  }

  // ---- the table as an object ----

  datatype StoreError = NotQueued | NotFound | NotRetryable(status: Status) | IsRunning

  lemma QueuedHasLeast(rows: map<int, Job>)
    requires exists id :: id in rows && rows[id].status.Queued?
    ensures exists id :: id in rows && IsNextQueued(rows, id)
  {
    var ids := set id | id in rows && rows[id].status.Queued?;
    var some :| some in rows && rows[some].status.Queued?;
    assert some in ids;
    var id := Sets.Least(ids);
    forall k | k in rows && rows[k].status.Queued? ensures id <= k {
      assert k in ids;
    }
    assert id in rows && IsNextQueued(rows, id);
  }

  class Store {
    var rows: map<int, Job>
    var nextInc: nat
    var media: map<int, Fingerprint>  // size and mtime of each media_files row

    ghost function View(): Db
      reads this
    {
      Db(rows, nextInc)
    }

    method NewId() returns (id: int)
      ensures IsNewId(rows, id)
    {
      if rows == map[] {
        id := 1;
      } else {
        Sets.Greatest(rows.Keys);
        var last :| last in rows.Keys && forall k | k in rows.Keys :: k <= last;
        id := last + 1;
      }
    }

    /** The recorded fingerprint is the catalogue's at the moment of the INSERT. */
    method CreateJob(kind: string, fileId: int, path: string, payload: string) returns (id: int)
      modifies this`rows, this`nextInc
      ensures IsNewId(old(rows), id) && id !in old(rows) && forall k | k in old(rows) :: k < id
      ensures var fp := if fileId in media then Some(media[fileId]) else None;
              id in rows && rows[id] == Job(old(nextInc), Request(kind, path, payload, fp), 0, Queued, "", 0)
      ensures var fp := if fileId in media then Some(media[fileId]) else None;
              View() == Insert(old(View()), id, Request(kind, path, payload, fp), 0)
    {
      var fp := if fileId in media then Some(media[fileId]) else None;
      id := NewId();
      rows := rows[id := Job(nextInc, Request(kind, path, payload, fp), 0, Queued, "", 0)];
      nextInc := nextInc + 1;
    }

    method ClaimNextJob() returns (claimed: Option<(int, Job)>)
      modifies this`rows
      ensures claimed.None? <==> forall id | id in old(rows) :: !old(rows)[id].status.Queued?
      ensures claimed.None? ==> rows == old(rows)
      ensures claimed.Some? ==>
                var (id, job) := claimed.value;
                && IsNextQueued(old(rows), id) && View() == Claim(old(View()), id) && job == rows[id]
                && id in old(rows) && old(rows)[id].status.Queued? && job == old(rows)[id].(status := Running)
                && forall k | k in old(rows) && old(rows)[k].status.Queued? :: id <= k
    {
      if exists id :: id in rows && rows[id].status.Queued? {
        QueuedHasLeast(rows);
        var next :| next in rows && IsNextQueued(rows, next);
        rows := rows[next := rows[next].(status := Running)];
        claimed := Some((next, rows[next]));
      } else {
        claimed := None;
      }
    }

    method FinishJob(id: int, status: Status, log: string, saved: int)
      modifies this`rows
      ensures View() == Finish(old(View()), id, status, log, saved)
      ensures id in old(rows) ==> rows == old(rows)[id := old(rows)[id].(status := status, log := log, saved := saved)]
    {
      if id in rows {
        rows := rows[id := rows[id].(status := status, log := log, saved := saved)];
      }
    }

    method CancelJob(id: int) returns (r: Result<(), StoreError>)
      modifies this`rows
      ensures View() == CancelQueued(old(View()), id)
      ensures r.Success? <==> id in old(rows) && old(rows)[id].status.Queued?
      ensures rows == if r.Success? then old(rows)[id := old(rows)[id].(status := Cancelled, log := "cancelled by user")]
                      else old(rows)
    {
      if id in rows && rows[id].status.Queued? {
        rows := rows[id := rows[id].(status := Cancelled, log := "cancelled by user")];
        r := Success(());
      } else {
        r := Failure(NotQueued);
      }
    }

    method RetryJob(id: int) returns (r: Result<int, StoreError>)
      modifies this`rows, this`nextInc
      ensures r.Success? <==> id in old(rows) && old(rows)[id].status.Retryable()
      ensures r.Success? ==> IsNewId(old(rows), r.value) && View() == Retry(old(View()), id, r.value)
      ensures r.Failure? ==> View() == old(View())
      ensures r == Failure(NotFound) <==> id !in old(rows)
      ensures r.Success? <==> id in old(rows) && old(rows)[id].status in {Failed, Skipped, Cancelled}
      ensures r.Success? ==>
                && r.value !in old(rows) && rows.Keys == old(rows).Keys + {r.value}
                && (forall k | k in old(rows) :: rows[k] == old(rows)[k])
                && rows[r.value] == Job(old(nextInc), old(rows)[id].req, old(rows)[id].attempts + 1, Queued, "", 0)
    {
      if id !in rows {
        return Failure(NotFound);
      }
      if !rows[id].status.Retryable() {
        return Failure(NotRetryable(rows[id].status));
      }
      var newId := NewId();
      rows := rows[newId := Job(nextInc, rows[id].req, rows[id].attempts + 1, Queued, "", 0)];
      nextInc := nextInc + 1;
      r := Success(newId);
    }

    method DeleteJob(id: int) returns (r: Result<(), StoreError>)
      modifies this`rows
      ensures View() == Delete(old(View()), id)
      ensures r.Success? <==> id in old(rows) && !old(rows)[id].status.Running?
      ensures rows == if r.Success? then old(rows) - {id} else old(rows)
    {
      if id in rows && !rows[id].status.Running? {
        rows := rows - {id};
        r := Success(());
      } else {
        r := Failure(IsRunning);
      }
    }

    method FailInterrupted() returns (n: nat)
      modifies this`rows
      ensures View() == FailRunning(old(View()))
      ensures rows.Keys == old(rows).Keys
      ensures forall id | id in old(rows) ::
                rows[id] == if old(rows)[id].status.Running?
                            then old(rows)[id].(status := Failed, log := "interrupted by restart") else old(rows)[id]
      ensures n == |set id | id in old(rows) && old(rows)[id].status.Running?|
    {
      n := |set id | id in rows && rows[id].status.Running?|;
      rows := map id | id in rows ::
        if rows[id].status.Running? then rows[id].(status := Failed, log := "interrupted by restart") else rows[id];
    }
  }
}
