/**
 Queued scans (scanInStatus and IsScanQueued in internal/store/store.go) and the
 monitor's enqueue (cmd/muxprune/main.go), which runs under one mutex.
 */
module ScanQueue {
  import opened Wrappers

  /** A queued job as the check sees it; a payload that does not decode names no library. */
  datatype Queued = ScanAll | ScanLibrary(library: Option<int>) | OtherJob

  predicate CoversBy(job: Queued, library: int) {
    job.ScanAll? || job == ScanLibrary(Some(library))
  }

  /** A queued scan that has not started yet will visit the library. */
  predicate Covered(queued: seq<Queued>, library: int) {
    exists i | 0 <= i < |queued| :: CoversBy(queued[i], library)
  }

  class Queue {
    var queued: seq<Queued>
    ghost var failures: nat  // how many statements have failed

    constructor ()
      ensures queued == []
    {
      queued, failures := [], 0;
    }

    method Fails() returns (fails: bool)
      modifies this`failures
      ensures failures == old(failures) + if fails then 1 else 0
    {
      fails := *;
      if fails {
        failures := failures + 1;
      }
    }

    /** First any scan of everything, then the scans of single libraries; either query may fail. */
    method IsScanQueued(library: int) returns (r: Result<bool, ()>)
      modifies this`failures
      ensures r.Success? ==> (r.value <==> Covered(queued, library))
      ensures r.Success? ==> (r.value <==> ScanAll in queued || ScanLibrary(Some(library)) in queued)
      ensures failures == old(failures) + if r.Failure? then 1 else 0
    {
      var fails := Fails();
      if fails {
        return Failure(());
      }
      for i := 0 to |queued|
        invariant forall k | 0 <= k < i :: !queued[k].ScanAll?
      {
        if queued[i].ScanAll? {
          assert CoversBy(queued[i], library);
          return Success(true);
        }
      }
      fails := Fails();
      if fails {
        return Failure(());
      }
      for i := 0 to |queued|
        invariant forall k | 0 <= k < i :: !CoversBy(queued[k], library)
      {
        if queued[i] == ScanLibrary(Some(library)) {
          assert CoversBy(queued[i], library);
          return Success(true);
        }
      }
      return Success(false);
    }

    /**
     enqueue. An error of the check counts as "not queued". `configured` is what
     GetLibrary finds; `failed` reports a database error on the way. Without one a
     configured library that is not covered gets exactly one scan.
     */
    method Enqueue(library: int, configured: bool) returns (failed: bool)
      modifies this
      ensures queued == old(queued) || queued == old(queued) + [ScanLibrary(Some(library))]
      ensures queued != old(queued) ==> Covered(queued, library) && configured
      ensures !failed && configured ==> Covered(queued, library)
      ensures !failed && Covered(old(queued), library) ==> queued == old(queued)
      ensures failed <==> failures > old(failures)
      ensures failures == old(failures) ==>
                (queued != old(queued) <==> configured && !Covered(old(queued), library))
    {
      var check := IsScanQueued(library);
      if check.Success? && check.value {
        return false;
      }
      var lookupFails := Fails();
      if lookupFails {
        return true;
      }
      if !configured {
        return check.Failure?;
      }
      var createFails := Fails();
      if createFails {
        return true;
      }
      queued := queued + [ScanLibrary(Some(library))];
      assert CoversBy(queued[|queued| - 1], library);
      return check.Failure?;
    }
  }
}
