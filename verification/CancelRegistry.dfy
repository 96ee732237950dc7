/**
 The runner's cancel bookkeeping (internal/jobs/runner.go): which running job
 can be cancelled, and which was. Every function is one section under cmu.
 The cancel handles are a type parameter.
 */
module CancelRegistry {
  import opened JobTable

  datatype Registry<!C> = Registry(cancels: map<int, C>, cancelled: set<int>)

  ghost function NoJobs<C>(): Registry<C> {
    Registry(map[], {})
  }

  function Add<C>(r: Registry<C>, id: int, handle: C): Registry<C> {
    r.(cancels := r.cancels[id := handle])
  }

  /** Runner.Cancel: refuses an id it does not run, and otherwise marks it. */
  function Mark<C>(r: Registry<C>, id: int): Registry<C> {
    if id in r.cancels then r.(cancelled := r.cancelled + {id}) else r
  }

  function Drop<C>(r: Registry<C>, id: int): Registry<C> {
    Registry(r.cancels - {id}, r.cancelled - {id})
  }

  datatype Outcome = Outcome(status: Status, log: string, saved: int)

  function FinalStatus(wasCancelled: bool, killed: bool, status: Status, log: string): (Status, string) {
    if wasCancelled && !status.Done? then (Cancelled, "cancelled by user")
    else if killed && status.Failed? then (Cancelled, "cancelled by shutdown")
    else (status, log)
  }

  /** What `run` hands to FinishJob: what execute returned, unless the job was cancelled or failed when it was killed. */
  function Final(wasCancelled: bool, killed: bool, o: Outcome): (f: Outcome)
    ensures wasCancelled && !o.status.Done? ==> f == Outcome(Cancelled, "cancelled by user", 0)
    ensures !wasCancelled && killed && o.status.Failed? ==> f == Outcome(Cancelled, "cancelled by shutdown", 0)
    ensures o.status.Done? || (!wasCancelled && !killed) || (!wasCancelled && !o.status.Failed?) ==>
              f.status == o.status && f.log == o.log && f.saved == if o.status.Cancelled? then 0 else o.saved
    ensures o.status.Done? ==> f == o
    ensures o.status.Terminal() ==> f.status.Terminal()
  {
    var (status, log) := FinalStatus(wasCancelled, killed, o.status, o.log);
    Outcome(status, log, if status.Cancelled? then 0 else o.saved)
  }

  class JobContext {
    var done: bool

    constructor ()
      ensures !done
    {
      done := false;
    }
  }

  class Runner {
    var cancels: map<int, JobContext>
    var cancelled: set<int>

    ghost function Abs(): Registry<JobContext>
      reads this
    {
      Registry(cancels, cancelled)
    }

    constructor ()
      ensures Abs() == NoJobs()
    {
      cancels, cancelled := map[], {};
    }

    method Cancel(id: int) returns (ok: bool)
      modifies this, cancels.Values
      ensures ok == (id in old(cancels)) && Abs() == Mark(old(Abs()), id)
      ensures ok ==> cancels[id].done
      ensures forall c | c in old(cancels).Values && (!ok || c != cancels[id]) :: c.done == old(c.done)
    {
      ok := id in cancels;
      if ok {
        cancelled := cancelled + {id};
        cancels[id].done := true;
      }
    }

    method Register(id: int) returns (ctx: JobContext)
      modifies this
      ensures fresh(ctx) && !ctx.done && Abs() == Add(old(Abs()), id, ctx)
    {
      ctx := new JobContext();
      cancels := cancels[id := ctx];
    }

    /** The end of `run`: reads the context, closes the entry, decides the status. */
    method Deregister(id: int, o: Outcome) returns (f: Outcome)
      requires id in cancels
      modifies this, cancels.Values
      ensures Abs() == Drop(old(Abs()), id)
      ensures f == Final(old(id in cancelled), old(cancels[id].done), o)
      ensures old(cancels[id]).done
    {
      var ctx := cancels[id];
      var killed := ctx.done;
      var wasCancelled := id in cancelled;
      cancels := cancels - {id};
      cancelled := cancelled - {id};
      ctx.done := true;
      var (status, log) := FinalStatus(wasCancelled, killed, o.status, o.log);
      f := Outcome(status, log, if status.Cancelled? then 0 else o.saved);
    }
  }
}
