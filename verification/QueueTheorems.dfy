/** What the queue protocol guarantees in every reachable state and over every run. */
module QueueTheorems {
  import opened Wrappers
  import opened JobTable
  import opened CancelRegistry
  import opened QueueProtocol
  import opened QueueInvariant

  ghost predicate Reachable(s: State) {
    exists s0, steps :: Init(s0) && Run(s0, steps, s)
  }

  lemma ReachableInv(s: State)
    requires Reachable(s)
    ensures Inv(s)
  {
    var s0, steps :| Init(s0) && Run(s0, steps, s);
    RunKeepsInv(s0, steps, s);
  }

  /** Workers exist in at most one process, and that process holds the lock. */
  lemma OnlyTheOwnerWorks(s: State)
    requires Reachable(s)
    ensures forall w | w in s.workers :: s.lock == Some(w.pid) && w.pid in s.procs
    ensures forall v, w | v in s.workers && w in s.workers :: v.pid == w.pid
  {
    ReachableInv(s);
  }

  /** When FailInterrupted can run, no process has a worker: no row it fails is being executed. */
  lemma RecoveryTouchesNoLiveJob(s: State, p: nat, ok: bool)
    requires Reachable(s) && Enabled(s, RecoverStep(p, ok))
    ensures s.workers == map[]
    ensures forall id | id in s.db.rows && Apply(s, RecoverStep(p, ok)).db.rows[id] != s.db.rows[id] ::
              forall w :: !(IsBusy(s, w) && s.workers[w].id == id)
  {
    ReachableInv(s);
    assert s.workers.Keys == {};
  }

  /** How often the execution of each incarnation begins during a run. */
  ghost function Begun(s: State, steps: seq<Step>): multiset<nat>
    decreases |steps|
  {
    if steps == [] || !Enabled(s, steps[0]) then multiset{}
    else
      (if steps[0].RegisterStep? then multiset{s.workers[steps[0].w].inc} else multiset{})
      + Begun(Apply(s, steps[0]), steps[1..])
  }

  lemma StartedGrows(s: State, step: Step)
    requires Enabled(s, step)
    ensures Apply(s, step).started
         == s.started + if step.RegisterStep? then multiset{s.workers[step.w].inc} else multiset{}
  {
  }

  lemma {:induction false} StartedIsBegun(s: State, steps: seq<Step>, last: State)
    requires Run(s, steps, last)
    ensures last.started == s.started + Begun(s, steps)
    decreases |steps|
  {
    if steps != [] {
      StartedGrows(s, steps[0]);
      StartedIsBegun(Apply(s, steps[0]), steps[1..], last);
    }
  }

  lemma ExecutedAtMostOnce(s0: State, steps: seq<Step>, s: State)
    requires Init(s0) && Run(s0, steps, s)
    ensures forall k :: Begun(s0, steps)[k] <= 1
    ensures forall id | id in s.db.rows && s.db.rows[id].status.Queued? :: Begun(s0, steps)[s.db.rows[id].inc] == 0
    ensures Begun(s0, steps) == s.started
  {
    StartedOnce(s);
    StartedIsBegun(s0, steps, s);
    assert multiset{} + Begun(s0, steps) == Begun(s0, steps);
  }

  lemma StartedOnce(s: State)
    requires Reachable(s)
    ensures forall k :: s.started[k] <= 1
    ensures forall id | id in s.db.rows && s.db.rows[id].status.Queued? :: s.started[s.db.rows[id].inc] == 0
  {
    ReachableInv(s);
    forall k ensures s.started[k] <= 1 {
      if k in s.started {}
    }
  }

  // ---- a shutdown ----

  /** The run tells process p to stop, and p does not crash afterwards. */
  ghost predicate ToldToStop(steps: seq<Step>, p: nat) {
    exists k :: 0 <= k < |steps| && steps[k] == ShutdownStep(p) && CrashStep(p) !in steps[k..]
  }

  lemma ToldLater(steps: seq<Step>, p: nat)
    requires steps != []
    ensures ToldToStop(steps, p) <==>
              ToldToStop(steps[1..], p) || (steps[0] == ShutdownStep(p) && CrashStep(p) !in steps)
  {
    if k :| 0 <= k < |steps| && steps[k] == ShutdownStep(p) && CrashStep(p) !in steps[k..] {
      if k > 0 {
        assert steps[1..][k - 1..] == steps[k..];
      } else {
        assert steps[0..] == steps;
      }
    }
    if k :| 0 <= k < |steps[1..]| && steps[1..][k] == ShutdownStep(p) && CrashStep(p) !in steps[1..][k..] {
      assert steps[k + 1..] == steps[1..][k..];
    }
    if steps[0] == ShutdownStep(p) && CrashStep(p) !in steps {
      assert steps[0..] == steps;
    }
  }

  lemma {:induction false} StoppingIsTold(s: State, steps: seq<Step>, last: State, p: nat)
    requires Run(s, steps, last)
    ensures p in last.stopping <==> ToldToStop(steps, p) || (p in s.stopping && CrashStep(p) !in steps)
    decreases |steps|
  {
    if steps != [] {
      StoppingIsTold(Apply(s, steps[0]), steps[1..], last, p);
      ToldLater(steps, p);
      assert CrashStep(p) in steps <==> steps[0] == CrashStep(p) || CrashStep(p) in steps[1..];
      assert p in Apply(s, steps[0]).stopping <==>
               steps[0] == ShutdownStep(p) || (p in s.stopping && steps[0] != CrashStep(p));
    }
  }

  ghost predicate LeaveOnlyStopping(s: State) {
    && (forall w | w in s.workers && s.workers[w].Exited? :: w.pid in s.stopping)
    && (forall p | At(s, p, Released) :: p in s.stopping)
  }

  lemma KeepLeaving(s: State, step: Step)
    requires LeaveOnlyStopping(s) && Enabled(s, step)
    ensures LeaveOnlyStopping(Apply(s, step))
  {
    var s' := Apply(s, step);
    forall w | w in s'.workers && s'.workers[w].Exited? ensures w.pid in s'.stopping {
      assert (w in s.workers && s.workers[w].Exited?) || step == ExitWorkerStep(w);
    }
    forall p | At(s', p, Released) ensures p in s'.stopping {
      assert At(s, p, Released) || step == ReleaseStep(p);
    }
  }

  lemma {:induction false} RunLeaving(s: State, steps: seq<Step>, last: State)
    requires LeaveOnlyStopping(s) && Run(s, steps, last)
    ensures LeaveOnlyStopping(last)
    decreases |steps|
  {
    if steps != [] {
      KeepLeaving(s, steps[0]);
      RunLeaving(Apply(s, steps[0]), steps[1..], last);
    }
  }

  /**
   A process is stopping exactly when the run told it to and it has not crashed
   since; only the workers of such a process exit, and only such a process
   gives the lock back, when all of them have.
   */
  lemma StopsOnlyWhenTold(s0: State, steps: seq<Step>, s: State, p: nat)
    requires Init(s0) && Run(s0, steps, s)
    ensures p in s.stopping <==> ToldToStop(steps, p)
    ensures (At(s, p, Released) || exists w :: w in s.workers && w.pid == p && s.workers[w].Exited?) ==> ToldToStop(steps, p)
    ensures At(s, p, Released) ==> forall w | w in s.workers :: w.pid != p
  {
    StoppingIsTold(s0, steps, s, p);
    RunLeaving(s0, steps, s);
    assert Reachable(s);
    OnlyTheOwnerWorks(s);
    ReachableInv(s);
  }

  /** FinishJob has no guard, yet always finds its own incarnation, still running. */
  lemma FinishFindsItsOwnRow(s: State, w: Worker, ok: bool)
    requires Reachable(s) && Enabled(s, WriteStep(w, ok))
    ensures var j := s.workers[w];
            j.id in s.db.rows && s.db.rows[j.id].inc == j.inc && s.db.rows[j.id].status.Running?
            && j.stage.final.status.Terminal()
  {
    ReachableInv(s);
  }

  // ---- terminal states are final ----

  /** From db to db' no terminal row changed, and no row took over an old incarnation. */
  ghost predicate SettledStays(db: Db, db': Db) {
    && db.nextInc <= db'.nextInc
    && (forall id | id in db'.rows && db'.rows[id].inc < db.nextInc ::
          id in db.rows && db.rows[id].inc == db'.rows[id].inc)
    && (forall id | id in db.rows && id in db'.rows && db.rows[id].inc == db'.rows[id].inc
                    && db.rows[id].status.Terminal() :: db'.rows[id] == db.rows[id])
  }

  lemma StepKeepsSettled(s: State, step: Step)
    requires RowHeld(s) && Incarnations(s.db) && Enabled(s, step)
    ensures SettledStays(s.db, Apply(s, step).db)
  {
    WritesOnly(s, step);
    SettledStep(s, step);
  }

  lemma SettledStep(s: State, step: Step)
    requires RowHeld(s) && Incarnations(s.db) && Enabled(s, step)
    ensures SettledStays(s.db, DbAfter(s, step))
  {
    match step
    case CommandStep(cmd) => SettledByCommand(s.db, cmd);
    case WriteStep(w, ok) => assert !s.db.rows[s.workers[w].id].status.Terminal();
    case _ =>
  }

  lemma SettledByCommand(db: Db, cmd: Command)
    requires Incarnations(db) && CanRun(db, cmd)
    ensures SettledStays(db, RunCommand(db, cmd))
  {
  }

  lemma SettledComposes(a: Db, b: Db, c: Db)
    requires SettledStays(a, b) && SettledStays(b, c) && Incarnations(a)
    ensures SettledStays(a, c)
  {
    forall id | id in a.rows && id in c.rows && a.rows[id].inc == c.rows[id].inc && a.rows[id].status.Terminal()
      ensures c.rows[id] == a.rows[id]
    {
      assert id in b.rows && b.rows[id].inc == c.rows[id].inc;
    }
  }

  lemma {:induction false} RunKeepsSettled(s: State, steps: seq<Step>, last: State)
    requires Inv(s) && Run(s, steps, last)
    ensures SettledStays(s.db, last.db)
    decreases |steps|
  {
    if steps != [] {
      var next := Apply(s, steps[0]);
      StepKeepsSettled(s, steps[0]);
      StepKeepsInv(s, steps[0]);
      RunKeepsSettled(next, steps[1..], last);
      SettledComposes(s.db, next.db, last.db);
    }
  }

  /**
   A row seen in a terminal state is, at any later point of any run, either
   deleted for good or exactly the same row: status, log and bytes included.
   */
  lemma TerminalIsFinal(s: State, steps: seq<Step>, last: State, id: int)
    requires Reachable(s) && Run(s, steps, last)
    requires id in s.db.rows && s.db.rows[id].status.Terminal()
    ensures forall k | k in last.db.rows && last.db.rows[k].inc == s.db.rows[id].inc ::
              k == id && last.db.rows[k] == s.db.rows[id]
  {
    ReachableInv(s);
    RunKeepsSettled(s, steps, last);
  }

  // ---- a job runs exactly what was asked for ----

  function Asked(steps: seq<Step>): set<Request> {
    if steps == [] then {} else AskedBy(steps[0]) + Asked(steps[1..])
  }

  function AskedBy(step: Step): set<Request> {
    if step.CommandStep? && step.cmd.CreateCmd? then {step.cmd.req} else {}
  }

  lemma StepAsks(s: State, step: Step, asked: set<Request>)
    requires Enabled(s, step) && forall id | id in s.db.rows :: s.db.rows[id].req in asked
    ensures forall id | id in DbAfter(s, step).rows :: DbAfter(s, step).rows[id].req in asked + AskedBy(step)
  {
  }

  lemma {:induction false} RequestsComeFrom(s: State, steps: seq<Step>, last: State, asked: set<Request>)
    requires Run(s, steps, last) && forall id | id in s.db.rows :: s.db.rows[id].req in asked
    ensures forall id | id in last.db.rows :: last.db.rows[id].req in asked + Asked(steps)
    decreases |steps|
  {
    if steps != [] {
      WritesOnly(s, steps[0]);
      StepAsks(s, steps[0], asked);
      RequestsComeFrom(Apply(s, steps[0]), steps[1..], last, asked + AskedBy(steps[0]));
      assert asked + Asked(steps) == asked + AskedBy(steps[0]) + Asked(steps[1..]);
    }
  }

  /**
   No claim, cancel, retry or restart alters a request: every row, retries
   included, carries the path, tracks and fingerprint some CreateJob recorded.
   */
  lemma RowsKeepTheirRequest(s0: State, steps: seq<Step>, s: State, id: int)
    requires Init(s0) && Run(s0, steps, s) && id in s.db.rows
    ensures s.db.rows[id].req in Asked(steps)
  {
    RequestsComeFrom(s0, steps, s, {});
  }

  // ---- cancelling ----

  lemma CancelMapsAreNested(s: State, p: nat)
    requires Reachable(s) && p in s.regs
    ensures s.regs[p].cancelled <= s.regs[p].cancels.Keys
    ensures forall id | id in s.regs[p].cancels :: id in s.db.rows && s.db.rows[id].status.Running?
    ensures (forall w | IsBusy(s, w) && w.pid == p :: !InRun(s.workers[w].stage)) ==> s.regs[p] == NoJobs()
  {
    ReachableInv(s);
    forall id | id in s.regs[p].cancels
      ensures exists w :: IsBusy(s, w) && w.pid == p && InRun(s.workers[w].stage)
    {
      var w := s.regs[p].cancels[id];
      assert IsBusy(s, w) && w.pid == p && InRun(s.workers[w].stage);
    }
  }

  /**
   Runner.Cancel(id) == true: the final status is done or cancelled exactly
   when the row was not closed by a restart; a restart leaves it failed.
   */
  lemma AcknowledgedCancel(s: State, id: int)
    requires Reachable(s) && id in s.db.rows
    requires s.db.rows[id].inc in s.acked && s.db.rows[id].status.Terminal()
    ensures Honoured(s.db.rows[id].status) <==> s.db.rows[id].inc !in s.lost
    ensures s.db.rows[id].inc in s.lost ==> s.db.rows[id].status.Failed?
  {
    ReachableInv(s);
  }

  /** No crash, no failed FinishJob write, no claim lost on its way to a worker. */
  predicate Clean(step: Step) {
    !step.CrashStep? && !step.LostClaimStep? && (step.WriteStep? ==> step.ok)
  }

  ghost predicate HasWorker(s: State, id: int) {
    exists w :: IsBusy(s, w) && s.workers[w].id == id
  }

  ghost predicate NoOrphans(s: State) {
    s.lost == {} && forall id | id in s.db.rows && s.db.rows[id].status.Running? :: HasWorker(s, id)
  }

  /** A row is running because it was, or because a worker has just claimed it. */
  lemma RunningCameFrom(s: State, step: Step, id: int)
    requires Enabled(s, step) && Clean(step) && id in DbAfter(s, step).rows && DbAfter(s, step).rows[id].status.Running?
    requires step.WriteStep? ==> s.workers[step.w].stage.final.status.Terminal()
    ensures (step.ClaimStep? && step.id == id)
         || (id in s.db.rows && s.db.rows[id].status.Running? && !(step.WriteStep? && s.workers[step.w].id == id))
  {
  }

  lemma WorkerStays(s: State, step: Step, w: Worker)
    requires Inv(s) && Enabled(s, step) && Clean(step) && IsBusy(s, w) && !(step.WriteStep? && step.w == w)
    ensures IsBusy(Apply(s, step), w) && Apply(s, step).workers[w].id == s.workers[w].id
  {
  }

  /** With every running row in a worker's hands, recovery finds nothing to close. */
  lemma NothingToRecover(s: State, step: Step)
    requires Inv(s) && NoOrphans(s) && Enabled(s, step)
    ensures Apply(s, step).lost == {}
  {
    if step.RecoverStep? {
      assert s.workers.Keys == {};
      assert forall id | id in s.db.rows && s.db.rows[id].status.Running? :: HasWorker(s, id);
      assert RunningIncs(s.db) == {};
    }
  }

  lemma CleanStepOrphansNothing(s: State, step: Step)
    requires Inv(s) && NoOrphans(s) && Enabled(s, step) && Clean(step)
    ensures NoOrphans(Apply(s, step))
  {
    var s' := Apply(s, step);
    WritesOnly(s, step);
    NothingToRecover(s, step);
    forall id | id in s'.db.rows && s'.db.rows[id].status.Running?
      ensures HasWorker(s', id)
    {
      RunningCameFrom(s, step, id);
      if step.ClaimStep? && id == step.id {
        assert IsBusy(s', step.w) && s'.workers[step.w].id == id;
      } else {
        assert HasWorker(s, id);
        var w :| IsBusy(s, w) && s.workers[w].id == id;
        WorkerStays(s, step, w);
      }
    }
  }

  lemma {:induction false} CleanRunOrphansNothing(s: State, steps: seq<Step>, last: State)
    requires Inv(s) && NoOrphans(s) && Run(s, steps, last) && forall step | step in steps :: Clean(step)
    ensures Inv(last) && NoOrphans(last)
    decreases |steps|
  {
    if steps != [] {
      StepKeepsInv(s, steps[0]);
      CleanStepOrphansNothing(s, steps[0]);
      CleanRunOrphansNothing(Apply(s, steps[0]), steps[1..], last);
    }
  }

  /** Without those faults an acknowledged cancel always ends done or cancelled, across restarts too. */
  lemma CleanRunHonoursCancels(s0: State, steps: seq<Step>, s: State, id: int)
    requires Init(s0) && Run(s0, steps, s) && forall step | step in steps :: Clean(step)
    requires id in s.db.rows && s.db.rows[id].inc in s.acked && s.db.rows[id].status.Terminal()
    ensures Honoured(s.db.rows[id].status)
  {
    CleanRunOrphansNothing(s0, steps, s);
  }

  lemma CancelledSavesNothing(s: State, id: int)
    requires Reachable(s) && id in s.db.rows && s.db.rows[id].status.Cancelled?
    ensures s.db.rows[id].saved == 0
  {
    ReachableInv(s);
  }

  // ---- the run in which an acknowledged cancel ends failed ----

  lemma {:induction false} RunExtends(s: State, steps: seq<Step>, mid: State, step: Step)
    requires Run(s, steps, mid) && Enabled(mid, step)
    ensures Run(s, steps + [step], Apply(mid, step))
    decreases |steps|
  {
    if steps != [] {
      RunExtends(Apply(s, steps[0]), steps[1..], mid, step);
      assert (steps + [step])[1..] == steps[1..] + [step];
    } else {
      assert (steps + [step])[1..] == [];
    }
  }

  lemma StepReaches(s: State, step: Step)
    requires Reachable(s) && Enabled(s, step)
    ensures Reachable(Apply(s, step))
  {
    var s0, steps :| Init(s0) && Run(s0, steps, s);
    RunExtends(s0, steps, s, step);
  }

  ghost function OneServer(db: Db, work: Work): State {
    State(db, Some(1), map[1 := Serving], {}, map[Worker(1, 0) := work], map[1 := NoJobs()], multiset{}, {}, {})
  }

  ghost function NoServer(lock: Option<nat>, phase: Phase): State {
    State(Db(map[], 0), lock, map[1 := phase], {}, map[], map[1 := NoJobs()], multiset{}, {}, {})
  }

  lemma ProcessLocks()
    ensures Reachable(NoServer(Some(1), Locked))
  {
    var s := State(Db(map[], 0), None, map[], {}, map[], map[], multiset{}, {}, {});
    assert Run(s, [], s);
    StepReaches(s, SpawnStep(1));
    assert Spawn(s, 1) == NoServer(None, Waiting);
    StepReaches(NoServer(None, Waiting), LockStep(1));
    assert TakeLock(NoServer(None, Waiting), 1) == NoServer(Some(1), Locked);
  }

  lemma ServerStarts()
    ensures Reachable(OneServer(Db(map[], 0), Idle))
  {
    ProcessLocks();
    StepReaches(NoServer(Some(1), Locked), RecoverStep(1, false));
    assert Recover(NoServer(Some(1), Locked), 1, false) == NoServer(Some(1), Serving);
    StepReaches(NoServer(Some(1), Serving), StartWorkerStep(Worker(1, 0)));
    assert Set(NoServer(Some(1), Serving), Worker(1, 0), Idle) == OneServer(Db(map[], 0), Idle);
  }

  lemma JobIsQueued(req: Request)
    ensures Reachable(OneServer(Db(map[1 := Job(0, req, 0, Queued, "", 0)], 1), Idle))
  {
    ServerStarts();
    var s := OneServer(Db(map[], 0), Idle);
    StepReaches(s, CommandStep(CreateCmd(1, req)));
    assert Insert(s.db, 1, req, 0) == Db(map[1 := Job(0, req, 0, Queued, "", 0)], 1);
  }

  lemma JobIsClaimed(req: Request)
    ensures Reachable(OneServer(Db(map[1 := Job(0, req, 0, Running, "", 0)], 1), Busy(1, 0, Claimed)))
  {
    JobIsQueued(req);
    var db := Db(map[1 := Job(0, req, 0, Queued, "", 0)], 1);
    var s := OneServer(db, Idle);
    StepReaches(s, ClaimStep(Worker(1, 0), 1));
    assert Claim(db, 1).rows == map[1 := Job(0, req, 0, Running, "", 0)];
    assert s.workers[Worker(1, 0) := Busy(1, 0, Claimed)] == map[Worker(1, 0) := Busy(1, 0, Claimed)];
    assert ClaimJob(s, Worker(1, 0), 1)
        == OneServer(Db(map[1 := Job(0, req, 0, Running, "", 0)], 1), Busy(1, 0, Claimed));
  }

  /** A process runs job 1 and acknowledges its cancel. */
  lemma CancelledJobRuns(req: Request) returns (s: State)
    ensures Reachable(s) && s.procs == map[1 := Serving] && s.lock == Some(1) && s.regs.Keys == {1}
    ensures s.db.rows == map[1 := Job(0, req, 0, Running, "", 0)] && s.acked == {0}
    ensures s.workers.Keys == {Worker(1, 0)}
  {
    JobIsClaimed(req);
    s := OneServer(Db(map[1 := Job(0, req, 0, Running, "", 0)], 1), Busy(1, 0, Claimed));
    var w := Worker(1, 0);
    StepReaches(s, RegisterStep(w));
    s := Register(s, w);
    assert s.workers[w] == Busy(1, 0, Executing(false)) && s.regs[1].cancels == map[1 := w];
    StepReaches(s, CancelStep(1, 1));
    s := CancelRunning(s, 1, 1);
  }

  lemma CrashLosesCancel(req: Request) returns (s: State)
    ensures Reachable(s) && 1 in s.db.rows && s.db.rows[1].inc in s.acked && s.db.rows[1].status == Failed
  {
    s := CancelledJobRuns(req);
    StepReaches(s, CrashStep(1));
    s := Crash(s, 1);
    StepReaches(s, SpawnStep(2));
    s := Spawn(s, 2);
    StepReaches(s, LockStep(2));
    s := TakeLock(s, 2);
    StepReaches(s, RecoverStep(2, true));
    s := Recover(s, 2, true);
  }
}
