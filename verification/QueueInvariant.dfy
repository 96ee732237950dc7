/** The invariant of the queue protocol, and that every step keeps it. */
module QueueInvariant {
  import opened Wrappers
  import opened JobTable
  import opened QueueProtocol

  ghost predicate RegistryEach(s: State) {
    s.regs.Keys == s.procs.Keys
  }

  /** Only the lock holder is past the lock. */
  ghost predicate OneHolder(s: State) {
    && (forall p | p in s.procs && (s.procs[p].Locked? || s.procs[p].Serving?) :: s.lock == Some(p))
    && (s.lock.Some? ==> At(s, s.lock.value, Locked) || At(s, s.lock.value, Serving))
  }

  /** Only a serving process has workers. */
  ghost predicate WorkersServed(s: State) {
    forall w | w in s.workers :: At(s, w.pid, Serving)
  }

  ghost predicate OwnerOnly(s: State) {
    RegistryEach(s) && OneHolder(s) && WorkersServed(s)
  }

  /** The row of a job in a worker's hands is that incarnation, and running. */
  ghost predicate RowHeld(s: State) {
    forall w | IsBusy(s, w) ::
      var j := s.workers[w];
      j.id in s.db.rows && s.db.rows[j.id].inc == j.inc && s.db.rows[j.id].status.Running?
  }

  ghost predicate Alone(s: State) {
    forall v, w | IsBusy(s, v) && IsBusy(s, w) && s.workers[v].id == s.workers[w].id :: v == w
  }

  ghost predicate Incarnations(db: Db) {
    && (forall id | id in db.rows :: db.rows[id].inc < db.nextInc)
    && (forall a, b | a in db.rows && b in db.rows && db.rows[a].inc == db.rows[b].inc :: a == b)
  }

  /** No incarnation's execution begins twice. */
  ghost predicate Once(s: State) {
    forall k | k in s.started :: s.started[k] == 1 && k < s.db.nextInc
  }

  ghost predicate QueuedNotBegun(s: State) {
    forall id | id in s.db.rows && s.db.rows[id].status.Queued? :: s.db.rows[id].inc !in s.started
  }

  ghost predicate ClaimedNotBegun(s: State) {
    forall w | IsBusy(s, w) && s.workers[w].stage.Claimed? :: s.workers[w].inc !in s.started
  }

  predicate InRun(stage: Stage) {
    stage.Executing? || stage.Returned?
  }

  /** A cancel entry belongs to a worker inside the registered part of `run`. */
  ghost predicate EntriesLive(s: State) {
    forall p, id | p in s.regs && id in s.regs[p].cancels ::
      var w := s.regs[p].cancels[id];
      w.pid == p && IsBusy(s, w) && s.workers[w].id == id && InRun(s.workers[w].stage)
  }

  ghost predicate Entered(s: State, w: Worker) {
    && w.pid in s.regs && IsBusy(s, w) && s.workers[w].id in s.regs[w.pid].cancels
    && s.regs[w.pid].cancels[s.workers[w].id] == w
  }

  /** Every worker inside that part has its entry. */
  ghost predicate WorkersEntered(s: State) {
    forall w | IsBusy(s, w) && InRun(s.workers[w].stage) :: Entered(s, w)
  }

  ghost predicate MarksNested(s: State) {
    forall p | p in s.regs :: s.regs[p].cancelled <= s.regs[p].cancels.Keys
  }

  predicate BytesFit(status: Status, saved: int) {
    status.Queued? || status.Running? || status.Cancelled? ==> saved == 0
  }

  ghost predicate RowBytes(db: Db) {
    forall id | id in db.rows :: BytesFit(db.rows[id].status, db.rows[id].saved)
  }

  predicate StageBytes(stage: Stage) {
    match stage
    case Returned(outcome, killed) => Returnable(outcome)
    case Closing(f) => f.status.Terminal() && BytesFit(f.status, f.saved)
    case _ => true
  }

  ghost predicate WorkBytes(s: State) {
    forall w | IsBusy(s, w) :: StageBytes(s.workers[w].stage)
  }

  ghost predicate Bytes(s: State) {
    RowBytes(s.db) && WorkBytes(s)
  }

  predicate Honoured(status: Status) {
    status.Done? || status.Cancelled?
  }

  ghost predicate AckBounds(s: State) {
    && (forall k | k in s.acked || k in s.lost :: k < s.db.nextInc)
    && (forall w | IsBusy(s, w) :: s.workers[w].inc !in s.lost)
  }

  ghost predicate Remembered(s: State, w: Worker)
    requires IsBusy(s, w)
  {
    var j := s.workers[w];
    if j.stage.Closing? then Honoured(j.stage.final.status)
    else InRun(j.stage) && w.pid in s.regs && j.id in s.regs[w.pid].cancelled
  }

  /** A cancel that was acknowledged is remembered until the final status is decided. */
  ghost predicate AckPending(s: State) {
    forall w | IsBusy(s, w) && s.workers[w].inc in s.acked :: Remembered(s, w)
  }

  /** Once written it is done or cancelled, unless a restart closed the row. */
  ghost predicate AckWritten(s: State) {
    forall id | id in s.db.rows && s.db.rows[id].inc in s.acked ::
      var row := s.db.rows[id];
      !row.status.Queued? && (row.status.Terminal() && row.inc !in s.lost ==> Honoured(row.status))
  }

  ghost predicate LostFailed(s: State) {
    forall id | id in s.db.rows && s.db.rows[id].inc in s.lost :: s.db.rows[id].status.Failed?
  }

  ghost predicate Inv(s: State) {
    && OwnerOnly(s) && RowHeld(s) && Alone(s) && Incarnations(s.db)
    && Once(s) && QueuedNotBegun(s) && ClaimedNotBegun(s) && EntriesLive(s) && WorkersEntered(s) && MarksNested(s)
       && Bytes(s)
    && AckBounds(s) && AckPending(s) && AckWritten(s) && LostFailed(s)
  }

  lemma KeepOwner(s: State, step: Step)
    requires OwnerOnly(s) && Enabled(s, step)
    ensures OwnerOnly(Apply(s, step))
  {
    KeepRegistries(s, step);
    KeepHolder(s, step);
    KeepServed(s, step);
  }

  lemma KeepRegistries(s: State, step: Step)
    requires RegistryEach(s) && Enabled(s, step)
    ensures RegistryEach(Apply(s, step))
  {
  }

  lemma KeepHolder(s: State, step: Step)
    requires OneHolder(s) && Enabled(s, step)
    ensures OneHolder(Apply(s, step))
  {
  }

  lemma KeepServed(s: State, step: Step)
    requires OneHolder(s) && WorkersServed(s) && Enabled(s, step)
    ensures WorkersServed(Apply(s, step))
  {
  }

  /** What happens to a job in a worker's hands: it is claimed, kept with its row, or let go. */
  lemma BusyCameFrom(s: State, step: Step, w: Worker)
    requires Enabled(s, step) && IsBusy(Apply(s, step), w)
    ensures (step.ClaimStep? && step.w == w)
         || (IsBusy(s, w) && Apply(s, step).workers[w].id == s.workers[w].id
            && Apply(s, step).workers[w].inc == s.workers[w].inc)
  {
  }

  lemma KeepRows(s: State, step: Step)
    requires OwnerOnly(s) && RowHeld(s) && Alone(s) && Enabled(s, step)
    ensures RowHeld(Apply(s, step))
  {
    var s' := Apply(s, step);
    WritesOnly(s, step);
    forall w | IsBusy(s', w)
      ensures var j := s'.workers[w];
              j.id in s'.db.rows && s'.db.rows[j.id].inc == j.inc && s'.db.rows[j.id].status.Running?
    {
      BusyCameFrom(s, step, w);
    }
  }

  lemma KeepAlone(s: State, step: Step)
    requires RowHeld(s) && Alone(s) && Enabled(s, step)
    ensures Alone(Apply(s, step))
  {
  }

  lemma KeepIncarnations(s: State, step: Step)
    requires Incarnations(s.db) && Enabled(s, step)
    ensures Incarnations(Apply(s, step).db)
  {
    WritesOnly(s, step);
  }

  /** Only registering begins an execution, and only that of the registered row. */
  lemma BegunBy(s: State, step: Step)
    requires Enabled(s, step)
    ensures forall k | !(step.RegisterStep? && k == s.workers[step.w].inc) ::
              Apply(s, step).started[k] == s.started[k]
  {
  }

  lemma KeepOnce(s: State, step: Step)
    requires RowHeld(s) && Incarnations(s.db) && Once(s) && ClaimedNotBegun(s) && Enabled(s, step)
    ensures Once(Apply(s, step))
  {
    BegunBy(s, step);
  }

  lemma KeepQueued(s: State, step: Step)
    requires RowHeld(s) && Incarnations(s.db) && Once(s) && QueuedNotBegun(s) && Bytes(s) && Enabled(s, step)
    ensures QueuedNotBegun(Apply(s, step))
  {
    BegunBy(s, step);
    assert s.db.nextInc !in s.started;
  }

  lemma KeepClaimed(s: State, step: Step)
    requires RowHeld(s) && Alone(s) && Incarnations(s.db) && Enabled(s, step)
    requires QueuedNotBegun(s) && ClaimedNotBegun(s)
    ensures ClaimedNotBegun(Apply(s, step))
  {
    BegunBy(s, step);
  }

  lemma KeepEntries(s: State, step: Step)
    requires OwnerOnly(s) && RowHeld(s) && Alone(s) && EntriesLive(s) && WorkersEntered(s) && Enabled(s, step)
    ensures EntriesLive(Apply(s, step))
  {
    match step
    case RegisterStep(w) => EntriesAfterRegister(s, step);
    case CloseStep(w) => EntriesAfterClose(s, step);
    case CancelStep(p, id) => EntriesAfterCancel(s, step);
    case _ => EntriesElsewhere(s, step);
  }

  lemma EntriesAfterRegister(s: State, step: Step)
    requires OwnerOnly(s) && RowHeld(s) && Alone(s) && EntriesLive(s) && WorkersEntered(s) && Enabled(s, step)
    requires step.RegisterStep?
    ensures EntriesLive(Apply(s, step))
  {
  }

  lemma EntriesAfterClose(s: State, step: Step)
    requires OwnerOnly(s) && RowHeld(s) && Alone(s) && EntriesLive(s) && WorkersEntered(s) && Enabled(s, step)
    requires step.CloseStep?
    ensures EntriesLive(Apply(s, step))
  {
  }

  lemma EntriesAfterCancel(s: State, step: Step)
    requires OwnerOnly(s) && RowHeld(s) && Alone(s) && EntriesLive(s) && WorkersEntered(s) && Enabled(s, step)
    requires step.CancelStep?
    ensures EntriesLive(Apply(s, step))
  {
  }

  lemma EntriesElsewhere(s: State, step: Step)
    requires OwnerOnly(s) && RowHeld(s) && Alone(s) && EntriesLive(s) && WorkersEntered(s) && Enabled(s, step)
    requires !step.RegisterStep? && !step.CloseStep? && !step.CancelStep?
    ensures EntriesLive(Apply(s, step))
  {
  }

  lemma KeepEntered(s: State, step: Step)
    requires OwnerOnly(s) && RowHeld(s) && Alone(s) && EntriesLive(s) && WorkersEntered(s) && Enabled(s, step)
    ensures WorkersEntered(Apply(s, step))
  {
  }

  lemma KeepMarks(s: State, step: Step)
    requires MarksNested(s) && Enabled(s, step)
    ensures MarksNested(Apply(s, step))
  {
  }

  lemma KeepRowBytes(s: State, step: Step)
    requires Bytes(s) && Enabled(s, step)
    ensures RowBytes(DbAfter(s, step))
  {
  }

  lemma KeepWorkBytes(s: State, step: Step)
    requires WorkBytes(s) && Enabled(s, step)
    ensures WorkBytes(Apply(s, step))
  {
  }

  lemma KeepBytes(s: State, step: Step)
    requires Bytes(s) && Enabled(s, step)
    ensures Bytes(Apply(s, step))
  {
    WritesOnly(s, step);
    KeepRowBytes(s, step);
    KeepWorkBytes(s, step);
  }

  lemma KeepAckBounds(s: State, step: Step)
    requires OwnerOnly(s) && RowHeld(s) && Incarnations(s.db) && EntriesLive(s) && AckBounds(s) && LostFailed(s)
    requires Enabled(s, step)
    ensures AckBounds(Apply(s, step))
  {
  }

  lemma KeepAckPending(s: State, step: Step)
    requires OwnerOnly(s) && RowHeld(s) && Alone(s) && Incarnations(s.db) && EntriesLive(s) && WorkersEntered(s)
    requires AckBounds(s) && AckPending(s) && AckWritten(s) && Enabled(s, step)
    ensures AckPending(Apply(s, step))
  {
    var s' := Apply(s, step);
    forall w | IsBusy(s', w) && s'.workers[w].inc in s'.acked ensures Remembered(s', w) {
      match step
      case CancelStep(p, id) => AckedByCancel(s, p, id, w);
      case CloseStep(v) => AckedByClose(s, v, w);
      case RegisterStep(v) => AckedByRegister(s, v, w);
      case ClaimStep(v, id) => AckedByClaim(s, v, id, w);
      case _ => AckedElsewhere(s, step, w);
    }
  }

  lemma AckedByCancel(s: State, p: nat, id: int, w: Worker)
    requires RowHeld(s) && Alone(s) && Incarnations(s.db) && EntriesLive(s) && AckPending(s)
    requires Enabled(s, CancelStep(p, id))
    requires IsBusy(Apply(s, CancelStep(p, id)), w)
             && Apply(s, CancelStep(p, id)).workers[w].inc in Apply(s, CancelStep(p, id)).acked
    ensures Remembered(Apply(s, CancelStep(p, id)), w)
  {
  }

  lemma AckedByClose(s: State, v: Worker, w: Worker)
    requires Alone(s) && AckPending(s) && Enabled(s, CloseStep(v))
    requires IsBusy(Apply(s, CloseStep(v)), w) && s.workers[w].inc in s.acked
    ensures Remembered(Apply(s, CloseStep(v)), w)
  {
  }

  lemma AckedByRegister(s: State, v: Worker, w: Worker)
    requires AckPending(s) && Enabled(s, RegisterStep(v))
    requires IsBusy(Apply(s, RegisterStep(v)), w) && s.workers[w].inc in s.acked
    ensures Remembered(Apply(s, RegisterStep(v)), w)
  {
  }

  /** A queued row was never acknowledged, so a fresh claim has nothing to remember. */
  lemma AckedByClaim(s: State, v: Worker, id: int, w: Worker)
    requires AckPending(s) && AckWritten(s) && Enabled(s, ClaimStep(v, id))
    requires IsBusy(Apply(s, ClaimStep(v, id)), w) && Apply(s, ClaimStep(v, id)).workers[w].inc in s.acked
    ensures Remembered(Apply(s, ClaimStep(v, id)), w)
  {
  }

  lemma AckedElsewhere(s: State, step: Step, w: Worker)
    requires OwnerOnly(s) && AckPending(s) && Enabled(s, step)
    requires !step.CancelStep? && !step.CloseStep? && !step.RegisterStep? && !step.ClaimStep?
    requires IsBusy(Apply(s, step), w) && Apply(s, step).workers[w].inc in Apply(s, step).acked
    ensures Remembered(Apply(s, step), w)
  {
  }

  lemma KeepAckWritten(s: State, step: Step)
    requires OwnerOnly(s) && RowHeld(s) && Incarnations(s.db) && EntriesLive(s)
    requires AckBounds(s) && AckPending(s) && AckWritten(s) && Enabled(s, step)
    ensures AckWritten(Apply(s, step))
  {
    if step.CancelStep? || step.CommandStep? {
      WrittenAfterApi(s, step);
    } else {
      WrittenAfterWork(s, step);
    }
  }

  lemma WrittenAfterApi(s: State, step: Step)
    requires OwnerOnly(s) && RowHeld(s) && Incarnations(s.db) && EntriesLive(s)
    requires AckBounds(s) && AckPending(s) && AckWritten(s) && Enabled(s, step)
    requires step.CancelStep? || step.CommandStep?
    ensures AckWritten(Apply(s, step))
  {
  }

  lemma WrittenAfterWork(s: State, step: Step)
    requires OwnerOnly(s) && RowHeld(s) && Incarnations(s.db) && EntriesLive(s)
    requires AckBounds(s) && AckPending(s) && AckWritten(s) && Enabled(s, step)
    requires !step.CancelStep? && !step.CommandStep?
    ensures AckWritten(Apply(s, step))
  {
  }

  lemma KeepLost(s: State, step: Step)
    requires RowHeld(s) && Incarnations(s.db) && AckBounds(s) && LostFailed(s) && Enabled(s, step)
    ensures LostFailed(Apply(s, step))
  {
  }

  lemma StepKeepsInv(s: State, step: Step)
    requires Inv(s) && Enabled(s, step)
    ensures Inv(Apply(s, step))
  {
    KeepOwner(s, step);
    KeepRows(s, step);
    KeepAlone(s, step);
    KeepIncarnations(s, step);
    KeepOnce(s, step);
    KeepQueued(s, step);
    KeepClaimed(s, step);
    KeepEntries(s, step);
    KeepEntered(s, step);
    KeepMarks(s, step);
    KeepBytes(s, step);
    KeepAckBounds(s, step);
    KeepAckPending(s, step);
    KeepAckWritten(s, step);
    KeepLost(s, step);
  }

  lemma {:induction false} RunKeepsInv(s: State, steps: seq<Step>, last: State)
    requires Inv(s) && Run(s, steps, last)
    ensures Inv(last)
    decreases |steps|
  {
    if steps != [] {
      StepKeepsInv(s, steps[0]);
      RunKeepsInv(Apply(s, steps[0]), steps[1..], last);
    }
  }
}
