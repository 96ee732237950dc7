/**
 The queue's owners as a protocol (cmd/muxprune/main.go, internal/jobs/runner.go,
 internal/store/store.go): any number of processes share one database and one
 lock file, run any number of workers, and may crash at any step. Every SQL
 statement, every section under a mutex and every lock attempt is one step.
 */
module QueueProtocol {
  import opened Wrappers
  import opened JobTable
  import opened CancelRegistry

  datatype Phase =
    | Waiting   // retrying the lock
    | Locked    // holds the lock, recovery not yet done
    | Serving   // recovery done, workers may run
    | Released  // Start returned and the lock file was closed

  datatype Worker = Worker(pid: nat, n: nat)

  datatype Stage =
    | Claimed
    | Executing(ctxDone: bool)
    | Returned(outcome: Outcome, killed: bool)  // execute returned, its context was read
    | Closing(final: Outcome)                   // entry dropped, FinishJob next

  datatype Work = Idle | Exited | Busy(id: int, inc: nat, stage: Stage)

  datatype State = State(
    db: Db,
    lock: Option<nat>,
    procs: map<nat, Phase>,
    stopping: set<nat>,
    workers: map<Worker, Work>,
    regs: map<nat, Registry<Worker>>,
    started: multiset<nat>,  // how often the execution of each incarnation began
    acked: set<nat>,         // incarnations for which Runner.Cancel returned true
    lost: set<nat>)          // incarnations closed by FailInterrupted

  ghost predicate Init(s: State) {
    && s.db == Db(map[], 0) && s.lock.None? && s.procs == map[] && s.stopping == {}
    && s.workers == map[] && s.regs == map[] && s.started == multiset{} && s.acked == {} && s.lost == {}
  }

  // ---- process steps ----

  ghost function Spawn(s: State, p: nat): State {
    s.(procs := s.procs[p := Waiting], regs := s.regs[p := NoJobs()])
  }

  /** The kernel drops a dead process's lock; its rows stay as they are. */
  ghost function Crash(s: State, p: nat): State {
    s.(procs := s.procs - {p},
       stopping := s.stopping - {p},
       regs := s.regs - {p},
       workers := map w | w in s.workers && w.pid != p :: s.workers[w],
       lock := if s.lock == Some(p) then None else s.lock)
  }

  ghost function TakeLock(s: State, p: nat): State {
    s.(procs := s.procs[p := Locked], lock := Some(p))
  }

  /** Start: FailInterrupted, whose error is ignored. */
  ghost function Recover(s: State, p: nat, ok: bool): State {
    s.(procs := s.procs[p := Serving],
       db := if ok then FailRunning(s.db) else s.db,
       lost := if ok then s.lost + RunningIncs(s.db) else s.lost)
  }

  ghost function RunningIncs(db: Db): set<nat> {
    set id | id in db.rows && db.rows[id].status.Running? :: db.rows[id].inc
  }

  ghost function Release(s: State, p: nat): State {
    s.(procs := s.procs[p := Released],
       workers := map w | w in s.workers && w.pid != p :: s.workers[w],
       lock := None)
  }

  // ---- worker steps ----

  ghost function Set(s: State, w: Worker, work: Work): State {
    s.(workers := s.workers[w := work])
  }

  ghost predicate IsBusy(s: State, w: Worker) {
    w in s.workers && s.workers[w].Busy?
  }

  ghost function ClaimJob(s: State, w: Worker, id: int): State
    requires id in s.db.rows
  {
    s.(db := Claim(s.db, id), workers := s.workers[w := Busy(id, s.db.rows[id].inc, Claimed)])
  }

  ghost function Register(s: State, w: Worker): State
    requires IsBusy(s, w) && w.pid in s.regs
  {
    var job := s.workers[w];
    s.(regs := s.regs[w.pid := Add(s.regs[w.pid], job.id, w)],
       workers := s.workers[w := job.(stage := Executing(false))],
       started := s.started + multiset{job.inc})
  }

  ghost function Return(s: State, w: Worker, outcome: Outcome): State
    requires IsBusy(s, w) && s.workers[w].stage.Executing?
  {
    Set(s, w, s.workers[w].(stage := Returned(outcome, s.workers[w].stage.ctxDone)))
  }

  ghost function Close(s: State, w: Worker): State
    requires IsBusy(s, w) && s.workers[w].stage.Returned? && w.pid in s.regs
  {
    var job, reg := s.workers[w], s.regs[w.pid];
    s.(regs := s.regs[w.pid := Drop(reg, job.id)],
       workers := s.workers[w := job.(stage :=
         Closing(Final(job.id in reg.cancelled, job.stage.killed, job.stage.outcome)))])
  }

  /** FinishJob; when the write fails the row stays running. */
  ghost function Write(s: State, w: Worker, ok: bool): State
    requires IsBusy(s, w) && s.workers[w].stage.Closing?
  {
    var job := s.workers[w];
    var f := job.stage.final;
    s.(db := if ok then Finish(s.db, job.id, f.status, f.log, f.saved) else s.db,
       workers := s.workers[w := Idle])
  }

  // ---- steps of the API ----

  /** Runner.Cancel in process p; true exactly when p runs the id. */
  ghost function CancelRunning(s: State, p: nat, id: int): State
    requires p in s.regs && id in s.regs[p].cancels
  {
    var w := s.regs[p].cancels[id];
    var marked := s.(regs := s.regs[p := Mark(s.regs[p], id)]);
    if !IsBusy(s, w) then marked
    else
      var job := s.workers[w];
      marked.(acked := s.acked + {job.inc},
              workers := if job.stage.Executing?
                         then s.workers[w := job.(stage := Executing(true))] else s.workers)
  }

  datatype Command =
    | CreateCmd(newId: int, req: Request)
    | CancelCmd(id: int)
    | RetryCmd(id: int, newId: int)
    | DeleteCmd(id: int)

  ghost predicate CanRun(db: Db, cmd: Command) {
    match cmd
    case CreateCmd(newId, req) => IsNewId(db.rows, newId)
    case CancelCmd(id) => true
    case RetryCmd(id, newId) => IsNewId(db.rows, newId)
    case DeleteCmd(id) => true
  }

  ghost function RunCommand(db: Db, cmd: Command): Db {
    match cmd
    case CreateCmd(newId, req) => Insert(db, newId, req, 0)
    case CancelCmd(id) => CancelQueued(db, id)
    case RetryCmd(id, newId) => Retry(db, id, newId)
    case DeleteCmd(id) => Delete(db, id)
  }

  // ---- the step relation ----

  datatype Step =
    | SpawnStep(p: nat)
    | CrashStep(p: nat)
    | LockStep(p: nat)
    | RecoverStep(p: nat, ok: bool)
    | ShutdownStep(p: nat)
    | ReleaseStep(p: nat)
    | StartWorkerStep(w: Worker)
    | ExitWorkerStep(w: Worker)
    | ClaimStep(w: Worker, id: int)
    | LostClaimStep(id: int)        // the UPDATE ran, its result never reached a worker
    | RegisterStep(w: Worker)
    | GraceStep(w: Worker)          // the shutdown grace period of the job is over
    | ReturnStep(w: Worker, outcome: Outcome)
    | CloseStep(w: Worker)
    | WriteStep(w: Worker, ok: bool)
    | CancelStep(p: nat, id: int)
    | CommandStep(cmd: Command)

  ghost predicate At(s: State, p: nat, phase: Phase) {
    p in s.procs && s.procs[p] == phase
  }

  /** What `execute` can return: only a finished job reports bytes. */
  predicate Returnable(o: Outcome) {
    o.status.Done? || ((o.status.Failed? || o.status.Skipped?) && o.saved == 0)
  }

  ghost predicate Enabled(s: State, step: Step) {
    match step
    case SpawnStep(p) => p !in s.procs
    case CrashStep(p) => p in s.procs
    case LockStep(p) => At(s, p, Waiting) && s.lock.None?
    case RecoverStep(p, ok) => At(s, p, Locked)
    case ShutdownStep(p) => p in s.procs
    case ReleaseStep(p) =>
      At(s, p, Serving) && p in s.stopping && forall w | w in s.workers && w.pid == p :: s.workers[w].Exited?
    case StartWorkerStep(w) => At(s, w.pid, Serving) && w !in s.workers
    case ExitWorkerStep(w) => w in s.workers && s.workers[w].Idle? && w.pid in s.stopping
    case ClaimStep(w, id) => w in s.workers && s.workers[w].Idle? && IsNextQueued(s.db.rows, id)
    case LostClaimStep(id) => IsNextQueued(s.db.rows, id) && exists w :: w in s.workers && s.workers[w].Idle?
    case RegisterStep(w) => IsBusy(s, w) && w.pid in s.regs && s.workers[w].stage.Claimed?
    case GraceStep(w) => IsBusy(s, w) && s.workers[w].stage.Executing? && w.pid in s.stopping
    case ReturnStep(w, outcome) => IsBusy(s, w) && s.workers[w].stage.Executing? && Returnable(outcome)
    case CloseStep(w) => IsBusy(s, w) && w.pid in s.regs && s.workers[w].stage.Returned?
    case WriteStep(w, ok) => IsBusy(s, w) && s.workers[w].stage.Closing?
    case CancelStep(p, id) => p in s.regs && id in s.regs[p].cancels
    case CommandStep(cmd) => CanRun(s.db, cmd)
  }

  ghost function Apply(s: State, step: Step): State
    requires Enabled(s, step)
  {
    match step
    case SpawnStep(p) => Spawn(s, p)
    case CrashStep(p) => Crash(s, p)
    case LockStep(p) => TakeLock(s, p)
    case RecoverStep(p, ok) => Recover(s, p, ok)
    case ShutdownStep(p) => s.(stopping := s.stopping + {p})
    case ReleaseStep(p) => Release(s, p)
    case StartWorkerStep(w) => Set(s, w, Idle)
    case ExitWorkerStep(w) => Set(s, w, Exited)
    case ClaimStep(w, id) => ClaimJob(s, w, id)
    case LostClaimStep(id) => s.(db := Claim(s.db, id))
    case RegisterStep(w) => Register(s, w)
    case GraceStep(w) => Set(s, w, s.workers[w].(stage := Executing(true)))
    case ReturnStep(w, outcome) => Return(s, w, outcome)
    case CloseStep(w) => Close(s, w)
    case WriteStep(w, ok) => Write(s, w, ok)
    case CancelStep(p, id) => CancelRunning(s, p, id)
    case CommandStep(cmd) => s.(db := RunCommand(s.db, cmd))
  }

  /** The part of a step that writes the jobs table. */
  ghost function DbAfter(s: State, step: Step): Db
    requires Enabled(s, step)
  {
    match step
    case RecoverStep(p, ok) => if ok then FailRunning(s.db) else s.db
    case ClaimStep(w, id) => Claim(s.db, id)
    case LostClaimStep(id) => Claim(s.db, id)
    case WriteStep(w, ok) =>
      var f := s.workers[w].stage.final;
      if ok then Finish(s.db, s.workers[w].id, f.status, f.log, f.saved) else s.db
    case CommandStep(cmd) => RunCommand(s.db, cmd)
    case _ => s.db
  }

  lemma WritesOnly(s: State, step: Step)
    requires Enabled(s, step)
    ensures Apply(s, step).db == DbAfter(s, step)
  {
  }

  ghost predicate Run(s: State, steps: seq<Step>, last: State)
    decreases |steps|
  {
    if steps == [] then last == s
    else Enabled(s, steps[0]) && Run(Apply(s, steps[0]), steps[1..], last)
  }
}
