/**
 Which held rescan debts get served: when timers expire, fire() and enqueue
 succeed and Reconcile runs to its end, a queued scan is reached exactly if the
 library is watched and known to the pass under way, or something other than the
 monitor's own memory of it is under way already. A catch-up flag of a library
 that is not watched is a dead end.
 */
module WatchProgress {
  import opened Watch
  import Sets

  /** Steps muxprune takes by itself when nothing fails and the user does nothing. */
  predicate Benign(step: Step) {
    match step
    case At(w, local) => local.Expires? || local.OrphanExpires? || local.FireLocks? || local.FireChecks?
    case Queue(a) => a.Creates?
    case Rec(a) => !a.StartFails? && (a.DropWatchers? ==> a.moved == {})
    case _ => false
  }

  ghost predicate AllBenign(steps: seq<Step>) {
    forall k | 0 <= k < |steps| :: Benign(steps[k])
  }

  ghost predicate Leads(s: State, s': State) {
    exists steps :: Run(s, steps, s') && AllBenign(steps)
  }

  lemma LeadsNowhere(s: State)
    ensures Leads(s, s)
  {
    assert Run(s, [], s) && AllBenign([]);
  }

  lemma {:induction false} RunsJoin(s: State, a: seq<Step>, mid: State, b: seq<Step>, last: State)
    requires Run(s, a, mid) && Run(mid, b, last)
    ensures Run(s, a + b, last)
    decreases |a|
  {
    if a == [] {
      assert a + b == b;
    } else {
      RunsJoin(Apply(s, a[0]), a[1..], mid, b, last);
      assert (a + b)[1..] == a[1..] + b;
    }
  }

  lemma LeadsOn(s: State, mid: State, last: State)
    requires Leads(s, mid) && Leads(mid, last)
    ensures Leads(s, last)
  {
    var a :| Run(s, a, mid) && AllBenign(a);
    var b :| Run(mid, b, last) && AllBenign(b);
    RunsJoin(s, a, mid, b, last);
    assert AllBenign(a + b);
  }

  /** One step more; the invariant comes along. */
  lemma Next(s: State, mid: State, step: Step) returns (s': State)
    requires Leads(s, mid) && Inv(mid) && CanStep(mid, step) && Benign(step)
    ensures s' == Apply(mid, step) && Leads(s, s') && Inv(s')
  {
    s' := Apply(mid, step);
    KeepInv(mid, step);
    OneStepLeads(mid, step);
    LeadsOn(s, mid, s');
  }

  lemma OneStepLeads(s: State, step: Step)
    requires CanStep(s, step) && Benign(step)
    ensures Leads(s, Apply(s, step))
  {
    var s' := Apply(s, step);
    assert Run(s', [], s');
    assert [step][1..] == [];
    assert Run(s, [step], s') && AllBenign([step]);
  }

  // ---- debts stay owed and held on the way ----

  ghost predicate Pending(s: State, lib: int) {
    Inv(s) && Owed(s, lib) && Held(s, lib) && !Late(s, lib)
  }

  lemma BenignKeeps(s: State, step: Step, lib: int)
    requires CanStep(s, step) && Benign(step) && Pending(s, lib)
    ensures Pending(Apply(s, step), lib) && Apply(s, step).watched == s.watched
  {
    KeepInv(s, step);
    BenignKeepsListed(s, step, lib);
    LosesListedExactly(s, step, lib);
  }

  lemma BenignKeepsListed(s: State, step: Step, lib: int)
    requires CanStep(s, step) && Benign(step) && Owed(s, lib) && !Late(s, lib)
    ensures !Late(Apply(s, step), lib) && Owed(Apply(s, step), lib) && Apply(s, step).watched == s.watched
    ensures !Takes(s, step, lib)
  {
    match step
    case Rec(a) =>
      RecKeepsSettings(s, a);
      RecKeepsListed(s, a, lib);
    case At(w, local) => assert !Incurs(s.watchers[w], local);
    case Queue(a) => assert a.Creates?;
  }

  lemma RecKeepsSettings(s: State, a: Reconciling)
    requires CanReconcile(s, a)
    ensures ApplyRec(s, a).watched == s.watched && ApplyRec(s, a).configured == s.configured
    ensures s.debt <= ApplyRec(s, a).debt
  {
  }

  lemma RecKeepsListed(s: State, a: Reconciling, lib: int)
    requires CanReconcile(s, a) && !Late(s, lib) && lib in s.configured
    ensures !Late(ApplyRec(s, a), lib)
  {
  }

  lemma {:induction false} RunKeeps(s: State, steps: seq<Step>, last: State, lib: int)
    requires Run(s, steps, last) && AllBenign(steps) && Pending(s, lib)
    ensures Pending(last, lib) && last.watched == s.watched
    decreases |steps|
  {
    if steps != [] {
      BenignKeeps(s, steps[0], lib);
      RunKeeps(Apply(s, steps[0]), steps[1..], last, lib);
    }
  }

  lemma LeadsKeeps(s: State, last: State, lib: int)
    requires Leads(s, last) && Pending(s, lib)
    ensures Pending(last, lib) && last.watched == s.watched
  {
    var steps :| Run(s, steps, last) && AllBenign(steps);
    RunKeeps(s, steps, last, lib);
  }

  // ---- a timer, a fire() or an enqueue call leads to a queued scan ----

  lemma CallServes(s: State, mid: State, lib: int) returns (s': State)
    requires Leads(s, mid) && Inv(mid) && lib in mid.calls
    ensures Leads(s, s') && ScanQueued(s', lib)
  {
    s' := Next(s, mid, Queue(Creates(lib)));
  }

  lemma CheckServes(s: State, mid: State, w: nat) returns (s': State)
    requires Leads(s, mid) && Inv(mid) && Has(mid, w) && Passes(mid.watchers[w]) && mid.watchers[w].checking > 0
    ensures Leads(s, s') && ScanQueued(s', mid.watchers[w].lib)
  {
    var s1 := Next(s, mid, At(w, FireChecks));
    assert mid.watchers[w].lib in s1.calls;
    s' := CallServes(s, s1, mid.watchers[w].lib);
  }

  lemma FireServes(s: State, mid: State, w: nat) returns (s': State)
    requires Leads(s, mid) && Inv(mid) && Has(mid, w) && Passes(mid.watchers[w]) && mid.watchers[w].fires > 0
    ensures Leads(s, s') && ScanQueued(s', mid.watchers[w].lib)
  {
    var s1 := Next(s, mid, At(w, FireLocks));
    s' := CheckServes(s, s1, w);
  }

  lemma ExpiryServes(s: State, mid: State, w: nat, local: Local) returns (s': State)
    requires Leads(s, mid) && Inv(mid) && Has(mid, w) && Passes(mid.watchers[w]) && CanLocal(mid.watchers[w], local)
    requires local.Expires? || local.OrphanExpires?
    ensures Leads(s, s') && ScanQueued(s', mid.watchers[w].lib)
  {
    var s1 := Next(s, mid, At(w, local));
    s' := FireServes(s, s1, w);
  }

  lemma TimerServes(s: State, mid: State, lib: int) returns (s': State)
    requires Leads(s, mid) && Inv(mid) && TimerHolds(mid, lib)
    ensures Leads(s, s') && ScanQueued(s', lib)
  {
    var w :| w in mid.watchers && mid.watchers[w].lib == lib && WillTrigger(mid.watchers[w]);
    if mid.watchers[w].checking > 0 {
      s' := CheckServes(s, mid, w);
    } else if mid.watchers[w].fires > 0 {
      s' := FireServes(s, mid, w);
    } else {
      s' := ExpiryServes(s, mid, w, if mid.watchers[w].armed then Expires else OrphanExpires);
    }
  }

  // ---- Reconcile can always be finished ----

  /** The library has a sound registered watcher and nothing left for Reconcile to do. */
  ghost predicate Settled(s: State, lib: int) {
    lib in s.registered && Has(s, s.registered[lib]) && !Broken(s.watchers[s.registered[lib]]) && lib !in s.catchup
  }

  lemma UnusedName(used: set<nat>) returns (w: nat)
    ensures w !in used
  {
    var ints := set k | k in used :: k as int;
    if ints == {} {
      w := 0;
      assert w in used ==> (w as int) in ints;
    } else {
      Sets.Greatest(ints);
      var last :| last in ints && forall k | k in ints :: k <= last;
      w := last + 1;
      assert w in used ==> (w as int) in ints;
    }
  }

  /** The same pass, with these visits left. */
  ghost predicate VisitingAt(s: State, pass: Reconcile, todo: set<int>, h: Handling)
    requires !pass.Off?
  {
    s.rec == Visiting(pass.libs, pass.watch, todo, h)
  }

  /** What the visit of one library leaves of the others. */
  ghost predicate OthersSettled(s: State, s': State, lib: int) {
    forall l | l != lib && Settled(s, l) :: Settled(s', l)
  }

  lemma FinishCreating(s: State, mid: State, lib: int) returns (s': State)
    requires Leads(s, mid) && Inv(mid) && mid.rec.Visiting? && mid.rec.handling == Creating(lib)
    ensures Leads(s, s') && Inv(s') && VisitingAt(s', mid.rec, mid.rec.todo, Nothing)
    ensures Settled(s', lib) && OthersSettled(mid, s', lib)
  {
    var w := UnusedName(mid.watchers.Keys);
    var s1 := Next(s, mid, Rec(StartWatcher(w)));
    s' := FinishStarted(s, s1, lib, w);
  }

  lemma FinishStarted(s: State, mid: State, lib: int, w: nat) returns (s': State)
    requires Leads(s, mid) && Inv(mid) && mid.rec.Visiting? && mid.rec.handling == Started(lib, w)
             && !Broken(mid.watchers[w])
    ensures Leads(s, s') && Inv(s') && VisitingAt(s', mid.rec, mid.rec.todo, Nothing)
    ensures Settled(s', lib) && OthersSettled(mid, s', lib)
  {
    var s1 := Next(s, mid, Rec(Register));
    if s1.rec.handling.CatchingUp? {
      s' := Next(s, s1, Rec(CatchUp));
    } else {
      s' := s1;
    }
  }

  lemma FinishStopped(s: State, mid: State, lib: int) returns (s': State)
    requires Leads(s, mid) && Inv(mid) && mid.rec.Visiting? && mid.rec.handling == Stopped(lib)
    ensures Leads(s, s') && Inv(s') && VisitingAt(s', mid.rec, mid.rec.todo, Nothing)
    ensures Settled(s', lib) && OthersSettled(mid, s', lib)
  {
    var s1 := Next(s, mid, Rec(FlagCatchup));
    s' := FinishCreating(s, s1, lib);
  }

  lemma StopsForGood(s: State, mid: State) returns (s': State)
    requires Leads(s, mid) && Inv(mid) && mid.rec.Visiting? && mid.rec.handling.Replacing?
    ensures Leads(s, s') && Inv(s') && VisitingAt(s', mid.rec, mid.rec.todo, Stopped(mid.rec.handling.lib))
    ensures OthersSettled(mid, s', mid.rec.handling.lib)
  {
    var s1 := mid;
    if !s1.rec.handling.half {
      s1 := Next(s, mid, Rec(ReplaceTimer));
    }
    s' := Next(s, s1, Rec(ReplaceContext));
  }

  lemma FinishReplacing(s: State, mid: State, lib: int) returns (s': State)
    requires Leads(s, mid) && Inv(mid) && mid.rec.Visiting?
    requires mid.rec.handling.Replacing? && mid.rec.handling.lib == lib
    ensures Leads(s, s') && Inv(s') && VisitingAt(s', mid.rec, mid.rec.todo, Nothing)
    ensures Settled(s', lib) && OthersSettled(mid, s', lib)
  {
    var s1 := StopsForGood(s, mid);
    s' := FinishStopped(s, s1, lib);
  }

  lemma VisitOne(s: State, mid: State, lib: int) returns (s': State)
    requires Leads(s, mid) && Inv(mid) && Idle(mid) && lib in mid.rec.todo
    ensures Leads(s, s') && Inv(s') && VisitingAt(s', mid.rec, mid.rec.todo - {lib}, Nothing)
    ensures (lib in mid.rec.watch ==> Settled(s', lib)) && OthersSettled(mid, s', lib)
  {
    if lib !in mid.rec.watch {
      s' := Next(s, mid, Rec(SkipLibrary(lib)));
    } else if lib in mid.registered && Broken(mid.watchers[mid.registered[lib]]) {
      var s1 := Next(s, mid, Rec(FindBroken(lib)));
      s' := FinishReplacing(s, s1, lib);
    } else if lib in mid.registered {
      s' := Next(s, mid, Rec(SkipLibrary(lib)));
    } else {
      var s1 := Next(s, mid, Rec(FindNone(lib)));
      s' := FinishCreating(s, s1, lib);
    }
  }

  lemma {:induction false} FinishVisits(s: State, mid: State) returns (s': State)
    requires Leads(s, mid) && Inv(mid) && Idle(mid)
    ensures Leads(s, s') && Inv(s') && s'.rec.Off? && s'.registered.Keys <= mid.rec.watch
    ensures forall l | (l in mid.rec.todo && l in mid.rec.watch) || Settled(mid, l) :: Settled(s', l)
    decreases |mid.rec.todo|
  {
    if mid.rec.todo == {} {
      s' := Next(s, mid, Rec(EndReconcile));
    } else {
      var lib := Sets.Pick(mid.rec.todo);
      var s1 := VisitOne(s, mid, lib);
      s' := FinishVisits(s, s1);
    }
  }

  /** Both halves of stop() for one watcher of the first loop. */
  lemma StopOne(s: State, mid: State, w: nat) returns (s': State)
    requires Leads(s, mid) && Inv(mid) && mid.rec.Stopping? && w in mid.rec.toStop
    ensures Leads(s, s') && Inv(s') && s'.rec.Stopping? && s'.rec.libs == mid.rec.libs && s'.rec.watch == mid.rec.watch
            && s'.rec.toStop == mid.rec.toStop - {w}
  {
    var s1 := mid;
    if w !in mid.rec.half {
      s1 := Next(s, mid, Rec(StopsTimer(w)));
    }
    s' := Next(s, s1, Rec(StopsContext(w)));
  }

  lemma {:induction false} FinishStops(s: State, mid: State) returns (s': State)
    requires Leads(s, mid) && Inv(mid) && mid.rec.Stopping?
    ensures Leads(s, s') && Inv(s') && VisitingAt(s', mid.rec, mid.rec.libs, Nothing)
    decreases |mid.rec.toStop|
  {
    if mid.rec.toStop == {} {
      s' := Next(s, mid, Rec(BeginVisits));
    } else {
      var w := Sets.Pick(mid.rec.toStop);
      var s1 := StopOne(s, mid, w);
      s' := FinishStops(s, s1);
    }
  }

  /** The pass is still to visit a library it wants watched, or is replacing or creating its watcher. */
  ghost predicate ToSettle(s: State, lib: int) {
    match s.rec
    case Off => false
    case Listed(libs, watch) => lib in watch
    case Stopping(libs, watch, toStop, half) => lib in watch
    case Visiting(libs, watch, todo, h) =>
      (lib in watch && lib in todo) || ((h.Replacing? || h.Stopped? || h.Creating?) && h.lib == lib)
  }

  /**
   From any point of Reconcile its pass can be finished. Every library it wants
   watched and is not yet past ends with a sound watcher and no flag, and no
   library it does not want watched has a watcher.
   */
  lemma FinishPass(s: State, mid: State) returns (s': State)
    requires Leads(s, mid) && Inv(mid)
    ensures Leads(s, s') && Inv(s') && s'.rec.Off?
    ensures forall l | ToSettle(mid, l) :: Settled(s', l)
    ensures !mid.rec.Off? ==> s'.registered.Keys <= mid.rec.watch
  {
    match mid.rec
    case Off => s' := mid;
    case Listed(libs, watch) =>
      var s1 := Next(s, mid, Rec(DropWatchers({})));
      var s2 := FinishStops(s, s1);
      s' := FinishVisits(s, s2);
    case Stopping(libs, watch, toStop, half) =>
      var s1 := FinishStops(s, mid);
      s' := FinishVisits(s, s1);
    case Visiting(libs, watch, todo, handling) =>
      var s1 := FinishHandling(s, mid);
      s' := FinishVisits(s, s1);
  }

  lemma FinishHandling(s: State, mid: State) returns (s': State)
    requires Leads(s, mid) && Inv(mid) && mid.rec.Visiting?
    ensures Leads(s, s') && Inv(s') && VisitingAt(s', mid.rec, mid.rec.todo, Nothing)
    ensures forall l | ToSettle(mid, l) :: (l in mid.rec.watch && l in mid.rec.todo) || Settled(s', l)
  {
    match mid.rec.handling
    case Nothing => s' := mid;
    case Replacing(lib, w, half) => s' := FinishReplacing(s, mid, lib);
    case Stopped(lib) => s' := FinishStopped(s, mid, lib);
    case Creating(lib) => s' := FinishCreating(s, mid, lib);
    case Started(lib, w) =>
      s' := Next(s, mid, Rec(Register));
      if s'.rec.handling.CatchingUp? {
        s' := Next(s, s', Rec(CatchUp));
      }
    case CatchingUp(lib, w) => s' := Next(s, mid, Rec(CatchUp));
  }

  // ---- the exact condition ----

  /** Nothing but a timer, a fire(), a call or a queued scan can hold a settled library's debt while Reconcile is off. */
  lemma SettledHolders(s: State, lib: int)
    requires Held(s, lib) && Settled(s, lib) && s.rec.Off?
    ensures TimerHolds(s, lib) || lib in s.calls || ScanQueued(s, lib)
  {
  }

  lemma HoldersServe(s: State, mid: State, lib: int) returns (s': State)
    requires Leads(s, mid) && Inv(mid) && (TimerHolds(mid, lib) || lib in mid.calls || ScanQueued(mid, lib))
    ensures Leads(s, s') && ScanQueued(s', lib)
  {
    if ScanQueued(mid, lib) {
      s' := mid;
    } else if lib in mid.calls {
      s' := CallServes(s, mid, lib);
    } else {
      s' := TimerServes(s, mid, lib);
    }
  }

  /** The pass has started a watcher that can still schedule, and has a catch-up to schedule on it. */
  ghost predicate ToCatchUp(s: State, lib: int) {
    s.rec.Visiting? &&
    match s.rec.handling
    case Started(l, w) => l == lib && lib in s.catchup && Has(s, w) && !s.watchers[w].dead
    case CatchingUp(l, w) => l == lib && Has(s, w) && !s.watchers[w].dead
    case _ => false
  }

  /** What makes a held debt reach a queued scan: all of it can be read off the present state. */
  ghost predicate Servable(s: State, lib: int) {
    || TimerHolds(s, lib) || lib in s.calls || ScanQueued(s, lib)
    || (lib in s.watched && !Late(s, lib)) || ToSettle(s, lib) || ToCatchUp(s, lib)
  }

  /** The debt has a holder, one way or another. */
  ghost predicate HeldDebt(s: State, lib: int) {
    Inv(s) && Owed(s, lib) && Held(s, lib)
  }

  lemma ListedIsNotLate(s: State, lib: int)
    requires RecOk(s) && (ToSettle(s, lib) || ToCatchUp(s, lib))
    ensures !Late(s, lib)
  {
  }

  lemma CatchUpServes(s: State, mid: State, lib: int) returns (s': State)
    requires Leads(s, mid) && Inv(mid) && ToCatchUp(mid, lib)
    ensures Leads(s, s') && ScanQueued(s', lib)
  {
    var w, s1 := mid.rec.handling.w, mid;
    if mid.rec.handling.Started? {
      s1 := Next(s, mid, Rec(Register));
    }
    var s2 := Next(s, s1, Rec(CatchUp));
    assert WillTrigger(s2.watchers[w]) && s2.watchers[w].lib == lib;
    s' := TimerServes(s, s2, lib);
  }

  lemma PassServes(s: State, mid: State, lib: int) returns (s': State)
    requires Leads(s, mid) && Pending(s, lib) && Inv(mid) && ToSettle(mid, lib)
    ensures Leads(s, s') && ScanQueued(s', lib)
  {
    var done := FinishPass(s, mid);
    LeadsKeeps(s, done, lib);
    SettledHolders(done, lib);
    s' := HoldersServe(s, done, lib);
  }

  /** A watched library: after the present pass the next one lists it. */
  lemma WatchedServes(s: State, lib: int) returns (s': State)
    requires Pending(s, lib) && lib in s.watched
    ensures Leads(s, s') && ScanQueued(s', lib)
  {
    LeadsNowhere(s);
    var off := FinishPass(s, s);
    LeadsKeeps(s, off, lib);
    var listed := Next(s, off, Rec(ListLibraries));
    s' := PassServes(s, listed, lib);
  }

  lemma ServableServes(s: State, lib: int) returns (s': State)
    requires HeldDebt(s, lib) && Servable(s, lib)
    ensures Leads(s, s') && ScanQueued(s', lib)
  {
    LeadsNowhere(s);
    if lib in s.watched && !Late(s, lib) {
      s' := WatchedServes(s, lib);
    } else if ToSettle(s, lib) {
      ListedIsNotLate(s, lib);
      s' := PassServes(s, s, lib);
    } else if ToCatchUp(s, lib) {
      s' := CatchUpServes(s, s, lib);
    } else {
      s' := HoldersServe(s, s, lib);
    }
  }

  // ---- and nothing else does ----

  ghost predicate NoTrigger(s: State, lib: int) {
    !TimerHolds(s, lib) && lib !in s.calls && !ScanQueued(s, lib)
  }

  /** The library is not watched, and the pass does not see to it either. */
  ghost predicate Ignored(s: State, lib: int) {
    NoTrigger(s, lib) && lib !in s.watched && !ToSettle(s, lib) && !ToCatchUp(s, lib)
  }

  /** The pass did not list the library, and takes out whatever watcher or flag it has. */
  ghost predicate PassedBy(s: State, lib: int) {
    NoTrigger(s, lib) && Late(s, lib)
  }

  /** The debt is forgotten: the library is watched like one that owes nothing. */
  ghost predicate Forgotten(s: State, lib: int) {
    && NoTrigger(s, lib) && !MonitorHolds(s, lib) && lib in s.watched && lib in s.configured
    && (!s.rec.Off? ==> lib in s.rec.watch)
  }

  ghost predicate Stuck(s: State, lib: int) {
    Ignored(s, lib) || (lib in s.watched && lib in s.configured && PassedBy(s, lib)) || Forgotten(s, lib)
  }

  lemma NotServableIsStuck(s: State, lib: int)
    requires Owed(s, lib) && !Servable(s, lib)
    ensures Stuck(s, lib)
  {
  }

  lemma LocalKeepsNoTrigger(s: State, w: nat, local: Local, lib: int)
    requires Has(s, w) && CanLocal(s.watchers[w], local) && Benign(At(w, local)) && NoTrigger(s, lib)
    ensures NoTrigger(ApplyLocal(s, w, local), lib)
  {
    var s' := ApplyLocal(s, w, local);
    LocalKeeps(s.watchers[w], local);
    forall u | u in s'.watchers && s'.watchers[u].lib == lib ensures !WillTrigger(s'.watchers[u]) {
      assert s.watchers[u].lib == lib && !WillTrigger(s.watchers[u]);
    }
  }

  lemma LocalStaysStuck(s: State, w: nat, local: Local, lib: int)
    requires Has(s, w) && CanLocal(s.watchers[w], local) && Benign(At(w, local)) && Stuck(s, lib)
    ensures Stuck(ApplyLocal(s, w, local), lib)
  {
    var s' := ApplyLocal(s, w, local);
    LocalKeepsNoTrigger(s, w, local, lib);
    LocalKeepsBroken(s.watchers[w], local);
    assert BrokenHolds(s', lib) <==> BrokenHolds(s, lib);
    assert ReconcileHolds(s', lib) <==> ReconcileHolds(s, lib);
  }

  lemma LocalKeepsBroken(w: Watcher, local: Local)
    requires CanLocal(w, local) && (local.Expires? || local.OrphanExpires? || local.FireLocks? || local.FireChecks?)
    ensures LocalAfter(w, local).dead == w.dead && LocalAfter(w, local).rootLost == w.rootLost
  {
  }

  lemma NoTimerThrough(s: State, a: Reconciling, lib: int)
    requires CanReconcile(s, a) && Shape(s) && NoTrigger(s, lib) && !ToCatchUp(s, lib)
    ensures NoTrigger(ApplyRec(s, a), lib)
  {
    var s' := ApplyRec(s, a);
    forall u | u in s'.watchers && s'.watchers[u].lib == lib ensures !WillTrigger(s'.watchers[u]) {
      assert u in s.watchers ==> s.watchers[u].lib == lib && !WillTrigger(s.watchers[u]);
      assert a.CatchUp? && s.rec.handling.w == u ==> s.rec.handling.lib == lib;
    }
  }

  lemma IgnoredStays(s: State, a: Reconciling, lib: int)
    requires CanReconcile(s, a) && Shape(s) && Benign(Rec(a)) && Ignored(s, lib)
    ensures Ignored(ApplyRec(s, a), lib)
  {
    NoTimerThrough(s, a, lib);
  }

  lemma PassedByStays(s: State, a: Reconciling, lib: int)
    requires CanReconcile(s, a) && Shape(s) && Benign(Rec(a)) && PassedBy(s, lib)
    requires lib in s.watched && lib in s.configured
    ensures PassedBy(ApplyRec(s, a), lib) || Forgotten(ApplyRec(s, a), lib)
  {
    LateHolders(s, lib);
    NoTimerThrough(s, a, lib);
  }

  lemma ForgottenStays(s: State, a: Reconciling, lib: int)
    requires CanReconcile(s, a) && Shape(s) && Benign(Rec(a)) && Forgotten(s, lib)
    ensures Forgotten(ApplyRec(s, a), lib)
  {
    NoTimerThrough(s, a, lib);
  }

  lemma StaysStuck(s: State, step: Step, lib: int)
    requires Inv(s) && CanStep(s, step) && Benign(step) && Stuck(s, lib)
    ensures Stuck(Apply(s, step), lib)
  {
    match step
    case At(w, local) => LocalStaysStuck(s, w, local, lib);
    case Rec(a) => RecStaysStuck(s, a, lib);
    case Queue(a) => CreatesStaysStuck(s, a, lib);
  }

  lemma RecStaysStuck(s: State, a: Reconciling, lib: int)
    requires Shape(s) && CanReconcile(s, a) && Benign(Rec(a)) && Stuck(s, lib)
    ensures Stuck(ApplyRec(s, a), lib)
  {
    if Ignored(s, lib) {
      IgnoredStays(s, a, lib);
    } else if Forgotten(s, lib) {
      ForgottenStays(s, a, lib);
    } else {
      PassedByStays(s, a, lib);
      RecKeepsSettings(s, a);
    }
  }

  lemma CreatesStaysStuck(s: State, a: Queueing, lib: int)
    requires CanQueue(s, a) && a.Creates? && Stuck(s, lib)
    ensures Stuck(ApplyQueue(s, a), lib)
  {
    SameMonitorHolds(s, ApplyQueue(s, a), lib);
    SameTimers(s, ApplyQueue(s, a), lib);
  }

  lemma {:induction false} RunStaysStuck(s: State, steps: seq<Step>, last: State, lib: int)
    requires Inv(s) && Run(s, steps, last) && AllBenign(steps) && Stuck(s, lib)
    ensures Stuck(last, lib)
    decreases |steps|
  {
    if steps != [] {
      KeepInv(s, steps[0]);
      StaysStuck(s, steps[0], lib);
      RunStaysStuck(Apply(s, steps[0]), steps[1..], last, lib);
    }
  }

  /**
   A held debt of a configured library can be served by benign steps exactly if
   a live timer, a fire(), a call or a queued scan holds it, or the pass under way
   still sees to the library, or it is watched and was not added with a used id
   since that pass listed the libraries.
   */
  lemma ServedExactly(s: State, lib: int)
    requires Reachable(s) && Owed(s, lib) && Held(s, lib)
    ensures (exists s' :: Leads(s, s') && ScanQueued(s', lib)) <==> Servable(s, lib)
  {
    ReachableInv(s);
    if Servable(s, lib) {
      var s' := ServableServes(s, lib);
    } else {
      NotServableIsStuck(s, lib);
      forall s' | Leads(s, s') ensures !ScanQueued(s', lib) {
        var steps :| Run(s, steps, s') && AllBenign(steps);
        RunStaysStuck(s, steps, s', lib);
      }
    }
  }

  // ---- a debt nothing serves ----

  /** A change has been seen, and then watching is switched off: library 1 is listed and not wanted. */
  ghost function Off1(rec: Reconcile): State {
    With(Schedule(NewWatcher(1)), multiset{}, {1}).(watched := {}, rec := rec)
  }

  /** Its watcher, in this state, is dropped, and the library flagged. */
  ghost function Flagged(w: Watcher, rec: Reconcile): State {
    State({1}, {}, {1}, map[0 := w], map[], {1}, rec, multiset{}, multiset{}, false, {1})
  }

  lemma SwitchedOff()
    ensures Reachable(Off1(Listed({1}, {})))
  {
    ChangeSeen();
    var s := With(Schedule(NewWatcher(1)), multiset{}, {1});
    StepReaches(s, SetWatch(1, false), Off1(Off));
    assert {1} * {} == {} && {1} - {1} == {};
    StepReaches(Off1(Off), Rec(ListLibraries), Off1(Listed({1}, {})));
  }

  lemma WatcherDropped()
    ensures Reachable(Flagged(Schedule(NewWatcher(1)), Stopping({1}, {}, {0}, {})))
  {
    SwitchedOff();
    var s, s' := Off1(Listed({1}, {})), Flagged(Schedule(NewWatcher(1)), Stopping({1}, {}, {0}, {}));
    var dropped := ApplyRec(s, DropWatchers({}));
    assert Dropped(s, {}) == {1};
    assert dropped.rec.toStop == {0} && dropped.registered == map[] && dropped.catchup == {1} && dropped.debt == {1};
    StepReaches(s, Rec(DropWatchers({})), s');
  }

  lemma WatcherStopped()
    ensures Reachable(Flagged(Cancel(NewWatcher(1)), Stopping({1}, {}, {}, {})))
  {
    WatcherDropped();
    var w := Schedule(NewWatcher(1));
    var s0 := Flagged(w, Stopping({1}, {}, {0}, {}));
    var s1 := Flagged(NewWatcher(1), Stopping({1}, {}, {0}, {0}));
    assert s0.watchers[0 := NewWatcher(1)] == s1.watchers && {} + {0} == {0};
    StepReaches(s0, Rec(StopsTimer(0)), s1);
    var s2 := Flagged(Cancel(NewWatcher(1)), Stopping({1}, {}, {}, {}));
    assert s1.watchers[0 := Cancel(NewWatcher(1))] == s2.watchers && {0} - {0} == {};
    StepReaches(s1, Rec(StopsContext(0)), s2);
  }

  lemma PassEnds()
    ensures Reachable(Flagged(Cancel(NewWatcher(1)), Off))
  {
    WatcherStopped();
    var w := Cancel(NewWatcher(1));
    StepReaches(Flagged(w, Stopping({1}, {}, {}, {})), Rec(BeginVisits), Flagged(w, Visiting({1}, {}, {1}, Nothing)));
    assert {1} - {1} == {};
    StepReaches(Flagged(w, Visiting({1}, {}, {1}, Nothing)), Rec(SkipLibrary(1)), Flagged(w, Visiting({1}, {}, {}, Nothing)));
    StepReaches(Flagged(w, Visiting({1}, {}, {}, Nothing)), Rec(EndReconcile), Flagged(w, Off));
  }

  /** A change was seen, watching is switched off, and only a flag remembers the change: nothing serves it. */
  lemma UnwatchedFlagIsStuck() returns (s: State)
    ensures Reachable(s) && Owed(s, 1) && Held(s, 1)
    ensures forall s' | Leads(s, s') :: !ScanQueued(s', 1)
  {
    PassEnds();
    s := Flagged(Cancel(NewWatcher(1)), Off);
    assert forall w | w in s.watchers :: !WillTrigger(s.watchers[w]);
    assert !Servable(s, 1);
    ServedExactly(s, 1);
  }
}
