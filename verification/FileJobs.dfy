/**
 Jobs that rewrite a media file (internal/jobs/runner.go, internal/engine/engine.go):
 each takes the per-path lock, compares the file with the fingerprint recorded
 when the job was queued, and only then works on the file. Any number of workers
 interleave with each other and with other programs that write, replace or
 delete the files at any moment. A version of a file is its fingerprint; every
 write is assumed to give a fingerprint the path never had before.
 */
module FileJobs {
  import opened Wrappers
  import opened JobTable
  import L = LockTable

  datatype Stage =
    | Queueing                                // blocked in Lock
    | Locked
    | Checked                                 // staleFingerprint found no change
    | Stated(base: Fingerprint)               // statReplaceable saw this version
    | Cleared(base: Fingerprint, hit: bool)   // the identity check passed; hit: written to since
    | Finished

  /** `disturbed`: another program wrote the file between the check and statReplaceable. */
  datatype Task = Task(req: Request, stage: Stage, disturbed: bool)

  datatype Rewrite = Rewrite(req: Request, base: Fingerprint, replaced: Option<Fingerprint>, disturbed: bool, hit: bool)

  datatype State = State(
    locks: L.Table<string, nat>,
    files: map<string, Fingerprint>,
    used: set<(string, Fingerprint)>,  // every version each path ever had
    tasks: map<nat, Task>,
    log: seq<Rewrite>)

  ghost predicate Init(s: State) {
    && s.locks == L.EmptyTable() && s.tasks == map[] && s.log == []
    && forall p | p in s.files :: (p, s.files[p]) in s.used
  }

  datatype Step =
    | Begin(t: nat, req: Request, spare: nat)
    | GetLock(t: nat)
    | Check(t: nat)
    | Stat(t: nat)
    | Identity(t: nat)
    | Rename(t: nat, v: Fingerprint)
    | EditInPlace(t: nat, v: Fingerprint)
    | GiveUp(t: nat)                      // any error or policy refusal on the way
    | Unlock(t: nat)
    | Exit(t: nat)
    | OtherWrite(path: string, v: Fingerprint)
    | OtherDelete(path: string)

  /** staleFingerprint: a job without a recorded fingerprint is never stale. */
  predicate Fresh(files: map<string, Fingerprint>, req: Request) {
    req.fp.Some? ==> req.path in files && files[req.path] == req.fp.value
  }

  ghost predicate Enabled(s: State, step: Step) {
    match step
    case Begin(t, req, spare) => t !in s.tasks && L.CanEnter(s.locks, t, req.path, spare)
    case GetLock(t) => t in s.tasks && s.tasks[t].stage.Queueing? && L.CanAcquire(s.locks, t)
    case Check(t) => t in s.tasks && s.tasks[t].stage.Locked?
    case Stat(t) => t in s.tasks && s.tasks[t].stage.Checked? && s.tasks[t].req.path in s.files
    case Identity(t) => t in s.tasks && s.tasks[t].stage.Stated?
    case Rename(t, v) => t in s.tasks && s.tasks[t].stage.Cleared? && (s.tasks[t].req.path, v) !in s.used
    case EditInPlace(t, v) =>
      t in s.tasks && s.tasks[t].stage.Checked? && s.tasks[t].req.path in s.files
      && (s.tasks[t].req.path, v) !in s.used
    case GiveUp(t) => t in s.tasks && !s.tasks[t].stage.Queueing?
    case Unlock(t) => t in s.tasks && s.tasks[t].stage.Finished? && L.At(s.locks, t, L.Holding)
    case Exit(t) => t !in s.tasks && L.CanExit(s.locks, t)
    case OtherWrite(path, v) => (path, v) !in s.used
    case OtherDelete(path) => true
  }

  ghost function SetStage(s: State, t: nat, stage: Stage): State
    requires t in s.tasks
  {
    s.(tasks := s.tasks[t := s.tasks[t].(stage := stage)])
  }

  ghost function Put(s: State, path: string, v: Fingerprint): State {
    s.(files := s.files[path := v], used := s.used + {(path, v)})
  }

  /** What another program's write means for a task in flight. */
  ghost function Disturb(task: Task, path: string): Task {
    if task.req.path != path then task
    else if task.stage.Checked? then task.(disturbed := true)
    else if task.stage.Cleared? then task.(stage := Cleared(task.stage.base, true))
    else task
  }

  ghost function DisturbAll(s: State, path: string): State {
    s.(tasks := map t | t in s.tasks :: Disturb(s.tasks[t], path))
  }

  ghost function Replaced(s: State, path: string): Option<Fingerprint> {
    if path in s.files then Some(s.files[path]) else None
  }

  ghost function Apply(s: State, step: Step): State
    requires Enabled(s, step)
  {
    match step
    case Begin(t, req, spare) =>
      s.(locks := L.Enter(s.locks, t, req.path, spare), tasks := s.tasks[t := Task(req, Queueing, false)])
    case GetLock(t) => SetStage(s.(locks := L.Acquire(s.locks, t)), t, Locked)
    case Check(t) => SetStage(s, t, if Fresh(s.files, s.tasks[t].req) then Checked else Finished)
    case Stat(t) => SetStage(s, t, Stated(s.files[s.tasks[t].req.path]))
    case Identity(t) =>
      var task := s.tasks[t];
      SetStage(s, t, if Replaced(s, task.req.path) == Some(task.stage.base) then Cleared(task.stage.base, false) else Finished)
    case Rename(t, v) =>
      var task := s.tasks[t];
      var entry := Rewrite(task.req, task.stage.base, Replaced(s, task.req.path), task.disturbed, task.stage.hit);
      SetStage(Put(s, task.req.path, v), t, Finished).(log := s.log + [entry])
    case EditInPlace(t, v) =>
      var task := s.tasks[t];
      var cur := s.files[task.req.path];
      var entry := Rewrite(task.req, cur, Some(cur), task.disturbed, false);
      SetStage(Put(s, task.req.path, v), t, Finished).(log := s.log + [entry])
    case GiveUp(t) => SetStage(s, t, Finished)
    case Unlock(t) => s.(locks := L.Unlock(s.locks, t), tasks := s.tasks - {t})
    case Exit(t) => s.(locks := L.Exit(s.locks, t))
    case OtherWrite(path, v) => Put(DisturbAll(s, path), path, v)
    case OtherDelete(path) => DisturbAll(s, path).(files := s.files - {path})
  }

  ghost predicate Run(s: State, steps: seq<Step>, last: State)
    decreases |steps|
  {
    if steps == [] then last == s
    else Enabled(s, steps[0]) && Run(Apply(s, steps[0]), steps[1..], last)
  }

  // ---- the invariant ----

  /** A task past Queueing holds its path's lock. */
  ghost predicate Ticketed(s: State) {
    forall t | t in s.tasks ::
      t in s.locks.threads && s.locks.threads[t].key == s.tasks[t].req.path
      && s.locks.threads[t].stage == (if s.tasks[t].stage.Queueing? then L.Waiting else L.Holding)
  }

  ghost predicate VersionsUsed(s: State) {
    forall p | p in s.files :: (p, s.files[p]) in s.used
  }

  ghost predicate Matches(fp: Option<Fingerprint>, base: Fingerprint, disturbed: bool) {
    fp.Some? ==> (base == fp.value <==> !disturbed)
  }

  ghost predicate TaskOk(s: State, task: Task) {
    match task.stage
    case Checked =>
      task.req.fp.Some? ==>
        && (task.req.path, task.req.fp.value) in s.used
        && (Replaced(s, task.req.path) == task.req.fp <==> !task.disturbed)
    case Stated(base) =>
      && (task.req.path, base) in s.used
      && Matches(task.req.fp, base, task.disturbed)
    case Cleared(base, hit) =>
      && (task.req.path, base) in s.used
      && Matches(task.req.fp, base, task.disturbed)
      && (Replaced(s, task.req.path) == Some(base) <==> !hit)
    case _ => !task.disturbed || task.stage.Finished?
  }

  ghost predicate TasksOk(s: State) {
    forall t | t in s.tasks :: TaskOk(s, s.tasks[t])
  }

  /** No logged rewrite of the path was based on this version. */
  ghost predicate NotLogged(log: seq<Rewrite>, path: string, base: Fingerprint) {
    forall i | 0 <= i < |log| && log[i].req.path == path :: log[i].base != base
  }

  ghost predicate BasesNew(s: State) {
    forall t | t in s.tasks && (s.tasks[t].stage.Stated? || s.tasks[t].stage.Cleared?) ::
      NotLogged(s.log, s.tasks[t].req.path, s.tasks[t].stage.base)
  }

  ghost predicate EntryOk(s: State, e: Rewrite) {
    && (e.req.path, e.base) in s.used
    && Matches(e.req.fp, e.base, e.disturbed)
    && Replaced(s, e.req.path) != Some(e.base)
    && (e.replaced == Some(e.base) <==> !e.hit)
  }

  ghost predicate LogOk(s: State) {
    && (forall i | 0 <= i < |s.log| :: EntryOk(s, s.log[i]))
    && (forall i, j | 0 <= i < j < |s.log| && s.log[i].req.path == s.log[j].req.path :: s.log[i].base != s.log[j].base)
  }

  ghost predicate Inv(s: State) {
    L.Inv(s.locks) && Ticketed(s) && VersionsUsed(s) && TasksOk(s) && BasesNew(s) && LogOk(s)
  }

  lemma KeepLocks(s: State, step: Step)
    requires L.Inv(s.locks) && Enabled(s, step)
    ensures L.Inv(Apply(s, step).locks)
  {
    match step
    case Begin(t, req, spare) => L.EnterKeepsInv(s.locks, t, req.path, spare);
    case GetLock(t) => L.AcquireKeepsInv(s.locks, t);
    case Unlock(t) => L.UnlockKeepsInv(s.locks, t);
    case Exit(t) => L.ExitKeepsInv(s.locks, t);
    case _ =>
  }

  lemma KeepTickets(s: State, step: Step)
    requires Ticketed(s) && Enabled(s, step)
    ensures Ticketed(Apply(s, step))
  {
    match step
    case OtherWrite(path, v) =>
    case OtherDelete(path) =>
    case _ => KeepTicketsOwn(s, step);
  }

  lemma KeepTicketsOwn(s: State, step: Step)
    requires Ticketed(s) && Enabled(s, step) && !step.OtherWrite? && !step.OtherDelete?
    ensures Ticketed(Apply(s, step))
  {
  }

  lemma KeepVersions(s: State, step: Step)
    requires VersionsUsed(s) && Enabled(s, step)
    ensures VersionsUsed(Apply(s, step))
  {
  }

  /** Two tasks past Queueing never work on the same path. */
  ghost predicate Exclusive(s: State) {
    forall t, u | t in s.tasks && u in s.tasks && !s.tasks[t].stage.Queueing? && !s.tasks[u].stage.Queueing?
                  && s.tasks[t].req.path == s.tasks[u].req.path :: t == u
  }

  lemma LocksExclude(s: State)
    requires L.Inv(s.locks) && Ticketed(s)
    ensures Exclusive(s)
  {
    forall t, u | t in s.tasks && u in s.tasks && !s.tasks[t].stage.Queueing? && !s.tasks[u].stage.Queueing?
                  && s.tasks[t].req.path == s.tasks[u].req.path
      ensures t == u
    {
      L.MutualExclusion(s.locks, t, u);
    }
  }

  predicate Writes(step: Step) {
    step.Rename? || step.EditInPlace?
  }

  lemma KeepTasksQuiet(s: State, step: Step)
    requires VersionsUsed(s) && TasksOk(s) && Enabled(s, step) && !Writes(step)
    ensures TasksOk(Apply(s, step))
  {
    match step
    case OtherWrite(path, v) => KeepTasksForeign(s, step);
    case OtherDelete(path) => KeepTasksForeign(s, step);
    case _ =>
  }

  lemma KeepTasksForeign(s: State, step: Step)
    requires VersionsUsed(s) && TasksOk(s) && Enabled(s, step) && (step.OtherWrite? || step.OtherDelete?)
    ensures TasksOk(Apply(s, step))
  {
  }

  lemma KeepTasksWrite(s: State, step: Step)
    requires Exclusive(s) && TasksOk(s) && Enabled(s, step) && Writes(step)
    ensures TasksOk(Apply(s, step))
  {
  }

  lemma KeepBasesQuiet(s: State, step: Step)
    requires LogOk(s) && BasesNew(s) && Enabled(s, step) && !Writes(step)
    ensures BasesNew(Apply(s, step))
  {
  }

  lemma KeepBasesWrite(s: State, step: Step)
    requires Exclusive(s) && BasesNew(s) && Enabled(s, step) && Writes(step)
    ensures BasesNew(Apply(s, step))
  {
  }

  lemma KeepLog(s: State, step: Step)
    requires VersionsUsed(s) && TasksOk(s) && BasesNew(s) && LogOk(s) && Enabled(s, step)
    ensures LogOk(Apply(s, step))
  {
  }

  lemma StepKeepsInv(s: State, step: Step)
    requires Inv(s) && Enabled(s, step)
    ensures Inv(Apply(s, step))
  {
    KeepLocks(s, step);
    KeepTickets(s, step);
    KeepVersions(s, step);
    KeepLog(s, step);
    LocksExclude(s);
    if Writes(step) {
      KeepTasksWrite(s, step);
      KeepBasesWrite(s, step);
    } else {
      KeepTasksQuiet(s, step);
      KeepBasesQuiet(s, step);
    }
  }

  lemma {:induction false} RunKeepsInv(s: State, steps: seq<Step>, last: State)
    requires Inv(s) && Run(s, steps, last)
    ensures Inv(last)
    decreases |steps|
  {
    if steps != [] {
      StepKeepsInv(s, steps[0]);
      RunKeepsInv(Apply(s, steps[0]), steps[1..], last);
    }
  }

  // ---- the results ----

  /** At most one worker is between the fingerprint check and the end of its work on a path. */
  lemma OneWorkerPerPath(s0: State, steps: seq<Step>, s: State)
    requires Init(s0) && Run(s0, steps, s)
    ensures Exclusive(s)
  {
    RunKeepsInv(s0, steps, s);
    LocksExclude(s);
  }

  /**
   Every rewrite of a job with a recorded fingerprint worked from exactly that
   version, unless another program wrote the file between the check and
   statReplaceable; and it replaced the version it worked from, unless another
   program wrote between the identity check and the rename. Both are exact.
   */
  lemma RewritesTheRecordedVersion(s0: State, steps: seq<Step>, s: State, i: nat)
    requires Init(s0) && Run(s0, steps, s) && i < |s.log|
    ensures s.log[i].req.fp.Some? ==> (s.log[i].base == s.log[i].req.fp.value <==> !s.log[i].disturbed)
    ensures s.log[i].replaced == Some(s.log[i].base) <==> !s.log[i].hit
  {
    RunKeepsInv(s0, steps, s);
  }

  /** No version of a file is ever rewritten twice, whoever else writes in between. */
  lemma NoVersionRewrittenTwice(s0: State, steps: seq<Step>, s: State, i: nat, j: nat)
    requires Init(s0) && Run(s0, steps, s) && i < |s.log| && j < |s.log|
    requires s.log[i].req.path == s.log[j].req.path && s.log[i].base == s.log[j].base
    ensures i == j
  {
    RunKeepsInv(s0, steps, s);
  }

  /**
   Among all jobs and retries recorded against one fingerprint of one path, at
   most one rewrites the file undisturbed.
   */
  lemma AtMostOneRewritePerFingerprint(s0: State, steps: seq<Step>, s: State, i: nat, j: nat)
    requires Init(s0) && Run(s0, steps, s) && i < |s.log| && j < |s.log|
    requires s.log[i].req.path == s.log[j].req.path && s.log[i].req.fp == s.log[j].req.fp && s.log[i].req.fp.Some?
    requires !s.log[i].disturbed && !s.log[j].disturbed
    ensures i == j
  {
    RewritesTheRecordedVersion(s0, steps, s, i);
    RewritesTheRecordedVersion(s0, steps, s, j);
    NoVersionRewrittenTwice(s0, steps, s, i, j);
  }

  /** How many steps of a run rewrite a file. */
  ghost function Writings(steps: seq<Step>): nat {
    if steps == [] then 0 else (if Writes(steps[0]) then 1 else 0) + Writings(steps[1..])
  }

  lemma {:induction false} RunLogs(s: State, steps: seq<Step>, last: State)
    requires Run(s, steps, last)
    ensures |last.log| == |s.log| + Writings(steps) && s.log <= last.log
    decreases |steps|
  {
    if steps != [] {
      RunLogs(Apply(s, steps[0]), steps[1..], last);
    }
  }

  /**
   The log is the rewrites of the run, one entry each, with what was at the path
   before and the job it was done for; nothing else that a job does touches a file.
   */
  lemma EveryRewriteIsLogged(s0: State, steps: seq<Step>, s: State, step: Step)
    requires Init(s0) && Run(s0, steps, s) && Enabled(s, step)
    ensures |s.log| == Writings(steps)
    ensures !step.OtherWrite? && !step.OtherDelete? && !Writes(step) ==> Apply(s, step).files == s.files
    ensures Writes(step) ==>
              var after, req := Apply(s, step), s.tasks[step.t].req;
              && after.files == s.files[req.path := step.v] && |after.log| == |s.log| + 1
              && var e := after.log[|s.log|];
                 e.req == req && e.replaced == if req.path in s.files then Some(s.files[req.path]) else None
  {
    RunLogs(s0, steps, s);
  }

  // ---- and a job that may rewrite can ----

  /**
   What the check decides: a job whose file is there as recorded, or that has no
   recorded fingerprint, goes on, and any other is over.
   */
  lemma CheckedExactly(s: State, t: nat)
    requires Enabled(s, Check(t))
    ensures var req, after := s.tasks[t].req, Apply(s, Check(t)).tasks[t].stage;
            && (after.Checked? <==> req.fp.None? || (req.path in s.files && s.files[req.path] == req.fp.value))
            && (after.Finished? <==> !after.Checked?)
  {
  }

  /** And the identity check: the path still holds the version that statReplaceable saw. */
  lemma IdentityExactly(s: State, t: nat)
    requires Enabled(s, Identity(t))
    ensures var task, after := s.tasks[t], Apply(s, Identity(t)).tasks[t].stage;
            && (after == Cleared(task.stage.base, false)
                <==> task.req.path in s.files && s.files[task.req.path] == task.stage.base)
            && (after.Finished? <==> !after.Cleared?)
  {
  }

  /** Left alone, a job that is let in rewrites the file: from the version there, and undisturbed. */
  lemma UndisturbedJobRewrites(s: State, t: nat, v: Fingerprint) returns (last: State)
    requires t in s.tasks && s.tasks[t].stage.Locked? && !s.tasks[t].disturbed && s.tasks[t].req.path in s.files
    requires s.tasks[t].req.fp.Some? ==> s.files[s.tasks[t].req.path] == s.tasks[t].req.fp.value
    requires (s.tasks[t].req.path, v) !in s.used
    ensures Run(s, [Check(t), Stat(t), Identity(t), Rename(t, v)], last)
    ensures var req := s.tasks[t].req;
            && last.files == s.files[req.path := v] && last.locks == s.locks
            && last.tasks == s.tasks[t := Task(req, Finished, false)]
            && last.log == s.log + [Rewrite(req, s.files[req.path], Some(s.files[req.path]), false, false)]
  {
    var s1 := Apply(s, Check(t));
    var s2 := Apply(s1, Stat(t));
    var s3 := Apply(s2, Identity(t));
    last := Apply(s3, Rename(t, v));
    RunOfFour(s, Check(t), Stat(t), Identity(t), Rename(t, v), s1, s2, s3, last);
  }

  lemma {:induction false} RunAppend(s: State, steps: seq<Step>, mid: State, more: seq<Step>, last: State)
    requires Run(s, steps, mid) && Run(mid, more, last)
    ensures Run(s, steps + more, last)
    decreases |steps|
  {
    if steps == [] {
      assert [] + more == more;
    } else {
      RunAppend(Apply(s, steps[0]), steps[1..], mid, more, last);
      assert (steps + more)[1..] == steps[1..] + more;
    }
  }

  lemma RunOfTwo(s: State, a: Step, b: Step, s1: State, last: State)
    requires Enabled(s, a) && Apply(s, a) == s1 && Enabled(s1, b) && Apply(s1, b) == last
    ensures Run(s, [a, b], last)
  {
    assert [a, b][1..] == [b] && [b][1..] == [];
    assert Run(last, [], last);
    assert Run(s1, [b], last);
  }

  ghost predicate NobodyAt(s: State, path: string) {
    forall t | t in s.locks.threads :: s.locks.threads[t].key != path
  }

  /** What a task does to the locks alone, when it enters a path nobody is at. */
  ghost predicate Alone(s: State, t: nat, path: string, spare: nat) {
    Inv(s) && t !in s.tasks && t !in s.locks.threads && spare !in s.locks.refs && NobodyAt(s, path)
  }

  ghost predicate Free(locks: L.Table<string, nat>, t: nat, path: string, spare: nat) {
    t !in locks.threads && path !in locks.m && spare !in locks.refs && spare !in locks.owner
  }

  lemma FreePath(s: State, t: nat, path: string, spare: nat)
    requires Alone(s, t, path, spare)
    ensures t !in s.tasks && Free(s.locks, t, path, spare)
  {
    if path in s.locks.m {
      L.MappedKeyHasUser(s.locks, path);
    }
  }

  ghost function Held(locks: L.Table<string, nat>, t: nat, path: string, spare: nat): L.Table<string, nat>
    requires Free(locks, t, path, spare)
  {
    L.AlonePasses(locks, t, path, spare);
    L.Acquire(L.Enter(locks, t, path, spare), t)
  }

  lemma GetsTheLock(s: State, t: nat, req: Request, spare: nat) returns (last: State)
    requires t !in s.tasks && Free(s.locks, t, req.path, spare)
    ensures Run(s, [Begin(t, req, spare), GetLock(t)], last)
    ensures last == s.(tasks := s.tasks[t := Task(req, Locked, false)], locks := Held(s.locks, t, req.path, spare))
  {
    L.AlonePasses(s.locks, t, req.path, spare);
    var s1 := s.(locks := L.Enter(s.locks, t, req.path, spare), tasks := s.tasks[t := Task(req, Queueing, false)]);
    last := Apply(s1, GetLock(t));
    assert s1.tasks[t := Task(req, Locked, false)] == s.tasks[t := Task(req, Locked, false)];
    RunOfTwo(s, Begin(t, req, spare), GetLock(t), s1, last);
  }

  lemma GivesTheLockBack(locks: L.Table<string, nat>, s: State, t: nat, path: string, spare: nat) returns (last: State)
    requires Free(locks, t, path, spare) && s.locks == Held(locks, t, path, spare)
    requires t in s.tasks && s.tasks[t].stage.Finished?
    ensures Run(s, [Unlock(t), Exit(t)], last)
    ensures last == s.(tasks := s.tasks - {t}, locks := locks.(refs := locks.refs[spare := 0]))
  {
    L.AlonePasses(locks, t, path, spare);
    var s1 := Apply(s, Unlock(t));
    last := Apply(s1, Exit(t));
    RunOfTwo(s, Unlock(t), Exit(t), s1, last);
  }

  /** The steps of a job from its entry to its exit. */
  ghost function JobSteps(t: nat, req: Request, spare: nat, v: Fingerprint): seq<Step> {
    [Begin(t, req, spare), GetLock(t)] + [Check(t), Stat(t), Identity(t), Rename(t, v)] + [Unlock(t), Exit(t)]
  }

  /**
   Whatever goes on at other paths, a job for a path nobody is at, whose file is
   as recorded, can run to its end: it rewrites the file, and leaves the lock
   table and the tasks as they were.
   */
  lemma JobRuns(s: State, t: nat, req: Request, spare: nat, v: Fingerprint) returns (last: State)
    requires Alone(s, t, req.path, spare) && req.path in s.files && (req.path, v) !in s.used
    requires req.fp.Some? ==> s.files[req.path] == req.fp.value
    ensures Run(s, JobSteps(t, req, spare, v), last)
    ensures last.files == s.files[req.path := v] && last.tasks == s.tasks
    ensures last.log == s.log + [Rewrite(req, s.files[req.path], Some(s.files[req.path]), false, false)]
    ensures last.locks == s.locks.(refs := s.locks.refs[spare := 0])
  {
    FreePath(s, t, req.path, spare);
    var begun := GetsTheLock(s, t, req, spare);
    var done := UndisturbedJobRewrites(begun, t, v);
    last := GivesTheLockBack(s.locks, done, t, req.path, spare);
    assert last.tasks == s.tasks;
    JoinThree(s, [Begin(t, req, spare), GetLock(t)], begun, [Check(t), Stat(t), Identity(t), Rename(t, v)], done,
              [Unlock(t), Exit(t)], last);
  }

  lemma JoinThree(s: State, a: seq<Step>, s1: State, b: seq<Step>, s2: State, c: seq<Step>, last: State)
    requires Run(s, a, s1) && Run(s1, b, s2) && Run(s2, c, last)
    ensures Run(s, a + b + c, last)
  {
    RunAppend(s, a, s1, b, s2);
    RunAppend(s, a + b, s2, c, last);
  }

  lemma RunOfFour(s: State, a: Step, b: Step, c: Step, d: Step, s1: State, s2: State, s3: State, last: State)
    requires Enabled(s, a) && Apply(s, a) == s1 && Enabled(s1, b) && Apply(s1, b) == s2
    requires Enabled(s2, c) && Apply(s2, c) == s3 && Enabled(s3, d) && Apply(s3, d) == last
    ensures Run(s, [a, b, c, d], last)
  {
    assert [a, b, c, d][1..] == [b, c, d] && [b, c, d][1..] == [c, d] && [c, d][1..] == [d] && [d][1..] == [];
    assert Run(last, [], last);
    assert Run(s3, [d], last);
    assert Run(s2, [c, d], last);
    assert Run(s1, [b, c, d], last);
  }
}
