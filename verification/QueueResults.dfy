/**
 What a finished job's row says about its execution. The history of a run
 records what execute returned for each incarnation, and whose grace period
 ended at a shutdown.
 */
module QueueResults {
  import opened Wrappers
  import opened JobTable
  import opened CancelRegistry
  import opened QueueProtocol
  import opened QueueInvariant

  /** `killed`: the job's context was done when execute returned. */
  datatype Execution = Execution(outcome: Outcome, killed: bool)

  datatype History = History(returned: map<nat, Execution>, graceOver: set<nat>)

  ghost function Note(h: History, s: State, step: Step): History
    requires Enabled(s, step)
  {
    match step
    case ReturnStep(w, outcome) =>
      h.(returned := h.returned[s.workers[w].inc := Execution(outcome, s.workers[w].stage.ctxDone)])
    case GraceStep(w) => h.(graceOver := h.graceOver + {s.workers[w].inc})
    case _ => h
  }

  /** The history after a run. */
  ghost function After(h: History, s: State, steps: seq<Step>): History
    decreases |steps|
  {
    if steps == [] || !Enabled(s, steps[0]) then h else After(Note(h, s, steps[0]), Apply(s, steps[0]), steps[1..])
  }

  // ---- what connects the history with the state ----

  ghost predicate StageTold(s: State, h: History, w: Worker)
    requires IsBusy(s, w)
  {
    var j := s.workers[w];
    match j.stage
    case Claimed => j.inc !in h.returned
    case Executing(ctxDone) => j.inc !in h.returned && (ctxDone ==> j.inc in s.acked || j.inc in h.graceOver)
    case Returned(outcome, killed) => j.inc in h.returned && h.returned[j.inc] == Execution(outcome, killed)
    case Closing(final) => j.inc in h.returned && final == Decided(s, h, j.inc)
  }

  /** What the row of this incarnation is to say. */
  ghost function Decided(s: State, h: History, inc: nat): Outcome
    requires inc in h.returned
  {
    Final(inc in s.acked, h.returned[inc].killed, h.returned[inc].outcome)
  }

  ghost predicate StagesTold(s: State, h: History) {
    forall w | IsBusy(s, w) :: StageTold(s, h, w)
  }

  ghost predicate RowTold(s: State, h: History, id: int)
    requires id in s.db.rows
  {
    var row := s.db.rows[id];
    && (row.status.Queued? ==> row.inc !in h.returned)
    && (row.status.Terminal() && row.inc in s.started && row.inc !in s.lost ==>
          row.inc in h.returned && Outcome(row.status, row.log, row.saved) == Decided(s, h, row.inc))
  }

  ghost predicate RowsTold(s: State, h: History) {
    forall id | id in s.db.rows :: RowTold(s, h, id)
  }

  /** A mark is an acknowledged cancel of the job that holds the entry. */
  ghost predicate MarksAcked(s: State) {
    forall p, id :: MarkAcked(s, p, id)
  }

  ghost predicate KilledTold(s: State, h: History) {
    && (forall k | k in h.returned :: k < s.db.nextInc)
    && forall k | k in h.returned && h.returned[k].killed :: k in s.acked || k in h.graceOver
  }

  ghost predicate Told(s: State, h: History) {
    StagesTold(s, h) && RowsTold(s, h) && MarksAcked(s) && KilledTold(s, h)
  }

  // ---- every step keeps it ----

  lemma KeepMarksAcked(s: State, step: Step)
    requires Inv(s) && MarksAcked(s) && Enabled(s, step)
    ensures MarksAcked(Apply(s, step))
  {
    var s' := Apply(s, step);
    forall p, id ensures MarkAcked(s', p, id) {
      KeepMarkAcked(s, step, p, id);
    }
  }

  ghost predicate MarkAcked(s: State, p: nat, id: int) {
    p in s.regs && id in s.regs[p].cancelled && id in s.regs[p].cancels && IsBusy(s, s.regs[p].cancels[id]) ==>
      s.workers[s.regs[p].cancels[id]].inc in s.acked
  }

  lemma KeepMarkAcked(s: State, step: Step, p: nat, id: int)
    requires Inv(s) && MarksAcked(s) && Enabled(s, step)
    ensures MarkAcked(Apply(s, step), p, id)
  {
    assert MarkAcked(s, p, id);
    if step.RegisterStep? {
      MarkAfterRegister(s, step, p, id);
    } else if step.CancelStep? {
      MarkAfterCancel(s, step, p, id);
    } else {
      MarkElsewhere(s, step, p, id);
    }
  }

  lemma MarkAfterRegister(s: State, step: Step, p: nat, id: int)
    requires Inv(s) && MarkAcked(s, p, id) && step.RegisterStep? && Enabled(s, step)
    ensures MarkAcked(Apply(s, step), p, id)
  {
    var s' := Register(s, step.w);
    if p in s'.regs && id in s'.regs[p].cancelled && id in s'.regs[p].cancels {
      assert id in s.regs[p].cancelled && id in s.regs[p].cancels;
      var v := s.regs[p].cancels[id];
      assert IsBusy(s, v) && s.workers[v].id == id && InRun(s.workers[v].stage);
    }
  }

  lemma MarkAfterCancel(s: State, step: Step, p: nat, id: int)
    requires Inv(s) && MarkAcked(s, p, id) && step.CancelStep? && Enabled(s, step)
    ensures MarkAcked(Apply(s, step), p, id)
  {
    var v := s.regs[step.p].cancels[step.id];
    assert IsBusy(s, v) && s.workers[v].id == step.id && v.pid == step.p;
    if p in s.regs && id in s.regs[p].cancels {
      var w := s.regs[p].cancels[id];
      assert IsBusy(s, w) && s.workers[w].id == id && w.pid == p;
    }
  }

  lemma MarkElsewhere(s: State, step: Step, p: nat, id: int)
    requires Inv(s) && MarkAcked(s, p, id) && Enabled(s, step) && !step.RegisterStep? && !step.CancelStep?
    ensures MarkAcked(Apply(s, step), p, id)
  {
    var s' := Apply(s, step);
    AckedGrows(s, step);
    if p in s'.regs && id in s'.regs[p].cancelled && id in s'.regs[p].cancels {
      MarksFromBefore(s, step, p, id);
      var v := s.regs[p].cancels[id];
      assert IsBusy(s, v) && InRun(s.workers[v].stage);
      IncStays(s, step, v);
    }
  }

  lemma MarksFromBefore(s: State, step: Step, p: nat, id: int)
    requires Enabled(s, step) && !step.RegisterStep? && !step.CancelStep? && p in Apply(s, step).regs
    requires id in Apply(s, step).regs[p].cancelled && id in Apply(s, step).regs[p].cancels
    ensures p in s.regs && id in s.regs[p].cancelled && id in s.regs[p].cancels
    ensures Apply(s, step).regs[p].cancels[id] == s.regs[p].cancels[id]
  {
  }

  lemma IncStays(s: State, step: Step, v: Worker)
    requires Enabled(s, step) && IsBusy(s, v) && IsBusy(Apply(s, step), v)
    ensures Apply(s, step).workers[v].inc == s.workers[v].inc
  {
  }

  lemma KeepKilled(s: State, h: History, step: Step)
    requires Inv(s) && StagesTold(s, h) && KilledTold(s, h) && Enabled(s, step)
    ensures KilledTold(Apply(s, step), Note(h, s, step))
  {
    WritesOnly(s, step);
    AckedGrows(s, step);
    if step.ReturnStep? {
      assert StageTold(s, h, step.w);
    }
  }

  lemma AckedGrows(s: State, step: Step)
    requires Enabled(s, step)
    ensures s.acked <= Apply(s, step).acked
    ensures s.db.nextInc <= Apply(s, step).db.nextInc
  {
  }

  /** Two jobs in the hands of workers are different incarnations. */
  lemma IncsDiffer(s: State, v: Worker, w: Worker)
    requires RowHeld(s) && Alone(s) && Incarnations(s.db) && IsBusy(s, v) && IsBusy(s, w) && v != w
    ensures s.workers[v].inc != s.workers[w].inc
  {
  }

  lemma KeepStages(s: State, h: History, step: Step)
    requires Inv(s) && Told(s, h) && Enabled(s, step)
    ensures StagesTold(Apply(s, step), Note(h, s, step))
  {
    forall w | IsBusy(Apply(s, step), w) ensures StageTold(Apply(s, step), Note(h, s, step), w) {
      if step.ClaimStep? {
        StageAfterClaim(s, h, step, w);
      } else if step.RegisterStep? || step.GraceStep? {
        StageAfterOwn(s, h, step, w);
      } else if step.ReturnStep? {
        StageAfterReturn(s, h, step, w);
      } else if step.CloseStep? {
        StageAfterClose(s, h, step, w);
      } else if step.CancelStep? {
        StageAfterCancel(s, h, step, w);
      } else {
        StageElsewhere(s, h, step, w);
      }
    }
  }

  lemma StageAfterClaim(s: State, h: History, step: Step, w: Worker)
    requires Inv(s) && Told(s, h) && step.ClaimStep? && Enabled(s, step) && IsBusy(Apply(s, step), w)
    ensures StageTold(Apply(s, step), Note(h, s, step), w)
  {
    if w == step.w {
      assert RowTold(s, h, step.id);
    } else {
      assert StageTold(s, h, w);
    }
  }

  lemma StageAfterOwn(s: State, h: History, step: Step, w: Worker)
    requires Told(s, h) && (step.RegisterStep? || step.GraceStep?) && Enabled(s, step) && IsBusy(Apply(s, step), w)
    ensures StageTold(Apply(s, step), Note(h, s, step), w)
  {
    assert StageTold(s, h, w);
  }

  lemma StageAfterReturn(s: State, h: History, step: Step, w: Worker)
    requires Inv(s) && Told(s, h) && step.ReturnStep? && Enabled(s, step) && IsBusy(Apply(s, step), w)
    ensures StageTold(Apply(s, step), Note(h, s, step), w)
  {
    assert StageTold(s, h, w);
    if w != step.w {
      IncsDiffer(s, step.w, w);
    }
  }

  /** The mark read at the end of `run` says whether a cancel was acknowledged. */
  lemma MarkedIsAcked(s: State, v: Worker)
    requires Inv(s) && MarksAcked(s) && IsBusy(s, v) && InRun(s.workers[v].stage)
    ensures v.pid in s.regs && (s.workers[v].id in s.regs[v.pid].cancelled <==> s.workers[v].inc in s.acked)
  {
    assert Entered(s, v);
    assert MarkAcked(s, v.pid, s.workers[v].id);
    assert s.workers[v].inc in s.acked ==> Remembered(s, v);
  }

  lemma StageAfterClose(s: State, h: History, step: Step, w: Worker)
    requires Inv(s) && Told(s, h) && step.CloseStep? && Enabled(s, step) && IsBusy(Apply(s, step), w)
    ensures StageTold(Apply(s, step), Note(h, s, step), w)
  {
    assert StageTold(s, h, w);
    if w == step.w {
      MarkedIsAcked(s, w);
    }
  }

  lemma StageAfterCancel(s: State, h: History, step: Step, w: Worker)
    requires Inv(s) && Told(s, h) && step.CancelStep? && Enabled(s, step) && IsBusy(Apply(s, step), w)
    ensures StageTold(Apply(s, step), Note(h, s, step), w)
  {
    var v := s.regs[step.p].cancels[step.id];
    assert IsBusy(s, v) && InRun(s.workers[v].stage);
    assert StageTold(s, h, w);
    if w != v {
      IncsDiffer(s, v, w);
    }
  }

  lemma StageElsewhere(s: State, h: History, step: Step, w: Worker)
    requires Told(s, h) && Enabled(s, step) && IsBusy(Apply(s, step), w)
    requires !step.ClaimStep? && !step.RegisterStep? && !step.GraceStep? && !step.ReturnStep? && !step.CloseStep?
             && !step.CancelStep?
    ensures StageTold(Apply(s, step), Note(h, s, step), w)
  {
    assert IsBusy(s, w) && Apply(s, step).workers[w] == s.workers[w] && Apply(s, step).acked == s.acked;
    assert StageTold(s, h, w);
  }

  lemma KeepRowsTold(s: State, h: History, step: Step)
    requires Inv(s) && Told(s, h) && Enabled(s, step)
    ensures RowsTold(Apply(s, step), Note(h, s, step))
  {
    forall id | id in Apply(s, step).db.rows ensures RowTold(Apply(s, step), Note(h, s, step), id) {
      if step.WriteStep? {
        RowAfterWrite(s, h, step, id);
      } else if step.RegisterStep? || step.ReturnStep? {
        RowAfterOwn(s, h, step, id);
      } else if step.CancelStep? {
        RowAfterCancel(s, h, step, id);
      } else if step.CommandStep? {
        RowAfterCommand(s, h, step, id);
      } else if step.RecoverStep? {
        RowAfterRecovery(s, h, step, id);
      } else {
        RowElsewhere(s, h, step, id);
      }
    }
  }

  lemma RowAfterWrite(s: State, h: History, step: Step, id: int)
    requires Inv(s) && Told(s, h) && step.WriteStep? && Enabled(s, step) && id in Apply(s, step).db.rows
    ensures RowTold(Apply(s, step), Note(h, s, step), id)
  {
    assert StageTold(s, h, step.w);
    assert RowTold(s, h, id);
  }

  lemma RowAfterOwn(s: State, h: History, step: Step, id: int)
    requires Inv(s) && Told(s, h) && (step.RegisterStep? || step.ReturnStep?) && Enabled(s, step) && id in s.db.rows
    ensures id in Apply(s, step).db.rows && RowTold(Apply(s, step), Note(h, s, step), id)
  {
    assert RowTold(s, h, id);
  }

  lemma RowAfterCancel(s: State, h: History, step: Step, id: int)
    requires Inv(s) && Told(s, h) && step.CancelStep? && Enabled(s, step) && id in s.db.rows
    ensures id in Apply(s, step).db.rows && RowTold(Apply(s, step), Note(h, s, step), id)
  {
    var v := s.regs[step.p].cancels[step.id];
    assert IsBusy(s, v);
    assert RowTold(s, h, id);
  }

  lemma RowAfterCommand(s: State, h: History, step: Step, id: int)
    requires Inv(s) && Told(s, h) && step.CommandStep? && Enabled(s, step) && id in Apply(s, step).db.rows
    ensures RowTold(Apply(s, step), Note(h, s, step), id)
  {
    if id in s.db.rows && Apply(s, step).db.rows[id].inc == s.db.rows[id].inc {
      assert RowTold(s, h, id);
    }
  }

  lemma RowAfterRecovery(s: State, h: History, step: Step, id: int)
    requires Inv(s) && Told(s, h) && step.RecoverStep? && Enabled(s, step) && id in s.db.rows
    ensures id in Apply(s, step).db.rows && RowTold(Apply(s, step), Note(h, s, step), id)
  {
    assert RowTold(s, h, id);
  }

  lemma RowElsewhere(s: State, h: History, step: Step, id: int)
    requires Told(s, h) && Enabled(s, step) && id in Apply(s, step).db.rows
    requires !step.WriteStep? && !step.RegisterStep? && !step.ReturnStep? && !step.CancelStep? && !step.CommandStep?
             && !step.RecoverStep?
    ensures RowTold(Apply(s, step), Note(h, s, step), id)
  {
    WritesOnly(s, step);
    assert RowTold(s, h, id);
  }

  lemma KeepTold(s: State, h: History, step: Step)
    requires Inv(s) && Told(s, h) && Enabled(s, step)
    ensures Told(Apply(s, step), Note(h, s, step))
  {
    KeepStages(s, h, step);
    KeepRowsTold(s, h, step);
    KeepMarksAcked(s, step);
    KeepKilled(s, h, step);
  }

  lemma {:induction false} RunTold(s: State, h: History, steps: seq<Step>, last: State)
    requires Inv(s) && Told(s, h) && Run(s, steps, last)
    ensures Inv(last) && Told(last, After(h, s, steps))
    decreases |steps|
  {
    if steps != [] {
      StepKeepsInv(s, steps[0]);
      KeepTold(s, h, steps[0]);
      RunTold(Apply(s, steps[0]), Note(h, s, steps[0]), steps[1..], last);
    }
  }

  // ---- the main result ----

  ghost function Nothing(): History {
    History(map[], {})
  }

  /**
   The row of a job that was executed and not closed by a restart tells what
   execute returned, its status, log and bytes, unless the job was cancelled by
   the user or failed after the grace period of a shutdown was over; then it is
   cancelled, with the log that says which, and no bytes.
   */
  lemma RowTellsTheResult(s0: State, steps: seq<Step>, s: State, id: int)
    requires Init(s0) && Run(s0, steps, s) && id in s.db.rows
    requires s.db.rows[id].status.Terminal() && s.db.rows[id].inc in s.started && s.db.rows[id].inc !in s.lost
    ensures var h, row := After(Nothing(), s0, steps), s.db.rows[id];
            && row.inc in h.returned
            && var o, cancelled, killed := h.returned[row.inc].outcome, row.inc in s.acked, h.returned[row.inc].killed;
               && (killed ==> cancelled || row.inc in h.graceOver)
               && ((o.status.Done? || (!cancelled && !killed) || (!cancelled && !o.status.Failed?)) && !o.status.Cancelled? ==>
                     row.status == o.status && row.log == o.log && row.saved == o.saved)
               && (cancelled && !o.status.Done? ==>
                     row.status == Cancelled && row.log == "cancelled by user" && row.saved == 0)
               && (!cancelled && killed && o.status.Failed? ==>
                     row.status == Cancelled && row.log == "cancelled by shutdown" && row.saved == 0)
  {
    RunKeepsInv(s0, [], s0);
    RunTold(s0, Nothing(), steps, s);
    assert RowTold(s, After(Nothing(), s0, steps), id);
  }
}
