/**
 Filesystem watchers and the monitor that owns them (internal/watch/watcher.go,
 internal/watch/monitor.go), with the enqueue function of cmd/muxprune/main.go.
 Every mutex section is one step. Timers are Go's: several can be outstanding,
 because fire() forgets a timer that a Reset has armed again, and because an
 expired timer's fire() may still be waiting for the lock.
 */
module Watch {

  /**
   `timer` is the field w.timer being non-nil, `armed` that this timer will still
   expire. `orphans` are armed timers no longer in the field, `fires` are fire()
   calls before their lock section and `checking` those past it.
   */
  datatype Watcher = Watcher(lib: int, timer: bool, armed: bool, orphans: nat, fires: nat, checking: nat,
                             stopped: bool, dead: bool, rootLost: bool)

  function NewWatcher(lib: int): Watcher {
    Watcher(lib, false, false, 0, 0, 0, false, false, false)
  }

  // ---- the critical sections of a watcher ----

  /** schedule(): Reset the timer in the field, or start one. */
  function Schedule(w: Watcher): Watcher {
    w.(timer := true, armed := true)
  }

  function Expire(w: Watcher): Watcher {
    w.(armed := false, fires := w.fires + 1)
  }

  function ExpireOrphan(w: Watcher): Watcher
    requires w.orphans > 0
  {
    w.(orphans := w.orphans - 1, fires := w.fires + 1)
  }

  /** fire()'s lock section sets the field to nil, whatever timer is in it by now. */
  function Forget(w: Watcher): Watcher
    requires w.fires > 0
  {
    w.(timer := false, armed := false, orphans := if w.armed then w.orphans + 1 else w.orphans,
       fires := w.fires - 1, checking := w.checking + 1)
  }

  predicate Passes(w: Watcher) {
    !w.stopped && !w.dead
  }

  function Checked(w: Watcher): Watcher
    requires w.checking > 0
  {
    w.(checking := w.checking - 1)
  }

  /** stop()'s lock section. */
  function StopTimer(w: Watcher): Watcher {
    w.(timer := false, armed := false)
  }

  function Cancel(w: Watcher): Watcher {
    w.(stopped := true)
  }

  function Die(w: Watcher): Watcher {
    w.(dead := true)
  }

  function LoseRoot(w: Watcher): Watcher {
    w.(rootLost := true)
  }

  /** Some timer or fire() of a live watcher will still reach trigger. */
  predicate WillTrigger(w: Watcher) {
    Passes(w) && (w.armed || w.orphans > 0 || w.fires > 0 || w.checking > 0)
  }

  predicate Broken(w: Watcher) {
    w.dead || w.rootLost
  }

  // ---- the monitor ----

  /** What Reconcile's second loop is doing with library `lib`. */
  datatype Handling =
    | Nothing
    | Replacing(lib: int, w: nat, half: bool)  // inside existing.stop(); half: the timer is stopped
    | Stopped(lib: int)                        // stopped, not yet deleted and flagged
    | Creating(lib: int)
    | Started(lib: int, w: nat)                // running, not yet registered
    | CatchingUp(lib: int, w: nat)             // registered; schedule() is still to be called

  datatype Reconcile =
    | Off
    | Listed(libs: set<int>, watch: set<int>)
    | Stopping(libs: set<int>, watch: set<int>, toStop: set<nat>, half: set<nat>)
    | Visiting(libs: set<int>, watch: set<int>, todo: set<int>, handling: Handling)

  /**
   `watched` are the libraries shouldWatch holds of, and `rec.watch` those of
   them that the current pass listed. `calls` are enqueue calls in progress.
   `debt` and `ever` are history: the libraries owed a rescan, and every id there
   has been. The id of a removed library can be given to a new one.
   */
  datatype State = State(
    configured: set<int>, watched: set<int>, ever: set<int>,
    watchers: map<nat, Watcher>, registered: map<int, nat>, catchup: set<int>, rec: Reconcile,
    calls: multiset<int>, queued: multiset<int>, allQueued: bool,
    debt: set<int>)

  ghost predicate Init(s: State) {
    && s.watchers == map[] && s.registered == map[] && s.catchup == {} && s.rec == Off
    && s.calls == multiset{} && s.debt == {} && s.configured <= s.ever
  }

  /** The critical sections of one watcher's goroutines and timers, and what befalls it. */
  datatype Local = Schedules | Expires | OrphanExpires | FireLocks | FireChecks | Dies | RootGoes

  /** enqueue, and the job queue. QueueScan stands for the API's and tick's requests. */
  datatype Queueing =
    | SeesQueued(lib: int)
    | Creates(lib: int)
    | EnqueueFails(lib: int)          // the database failed
    | QueueScan(lib: int)
    | QueueScanAll
    | ClaimScan(lib: int)
    | ClaimScanAll
    | WithdrawScan(lib: int)          // cancelled or deleted while queued
    | WithdrawScanAll

  datatype Reconciling =
    | ListLibraries
    | DropWatchers(moved: set<int>)   // `moved`: watched elsewhere than at the library's path
    | StopsTimer(w: nat)
    | StopsContext(w: nat)
    | BeginVisits
    | SkipLibrary(lib: int)           // not to be watched, or its watcher is fine
    | FindBroken(lib: int)            // dead, or no longer watching its root
    | ReplaceTimer
    | ReplaceContext
    | FlagCatchup
    | FindNone(lib: int)
    | StartFails
    | StartWatcher(w: nat)
    | Register
    | CatchUp
    | EndReconcile

  /** SetWatch: a library's setting, the global one or its filesystem changes. */
  datatype Step =
    | AddLibrary(lib: int)
    | RemoveLibrary(lib: int)
    | SetWatch(lib: int, on: bool)
    | At(w: nat, local: Local)
    | Queue(queueing: Queueing)
    | Rec(reconciling: Reconciling)

  ghost predicate Has(s: State, w: nat) {
    w in s.watchers
  }

  ghost predicate ScanQueued(s: State, lib: int) {
    s.allQueued || lib in s.queued
  }

  predicate CanLocal(w: Watcher, local: Local) {
    match local
    case Schedules => true
    case Expires => w.armed
    case OrphanExpires => w.orphans > 0
    case FireLocks => w.fires > 0
    case FireChecks => w.checking > 0
    case Dies => !w.stopped
    case RootGoes => true
  }

  ghost predicate CanQueue(s: State, a: Queueing) {
    match a
    case SeesQueued(lib) => lib in s.calls && ScanQueued(s, lib)
    case Creates(lib) => lib in s.calls
    case EnqueueFails(lib) => lib in s.calls
    case QueueScan(lib) => true
    case QueueScanAll => true
    case ClaimScan(lib) => lib in s.queued
    case ClaimScanAll => s.allQueued
    case WithdrawScan(lib) => lib in s.queued
    case WithdrawScanAll => s.allQueued
  }

  ghost predicate Idle(s: State) {
    s.rec.Visiting? && s.rec.handling.Nothing?
  }

  ghost predicate CanReconcile(s: State, a: Reconciling) {
    match a
    case ListLibraries => s.rec.Off?
    case DropWatchers(moved) => s.rec.Listed? && moved <= s.registered.Keys
    case StopsTimer(w) => s.rec.Stopping? && w in s.rec.toStop && w !in s.rec.half && Has(s, w)
    case StopsContext(w) => s.rec.Stopping? && w in s.rec.half && Has(s, w)
    case BeginVisits => s.rec.Stopping? && s.rec.toStop == {}
    case SkipLibrary(lib) =>
      && Idle(s) && lib in s.rec.todo
      && (lib in s.rec.watch ==>
            lib in s.registered && Has(s, s.registered[lib]) && !Broken(s.watchers[s.registered[lib]]))
    case FindBroken(lib) => Idle(s) && lib in s.rec.todo && lib in s.rec.watch && BrokenHolds(s, lib)
    case ReplaceTimer => s.rec.Visiting? && s.rec.handling.Replacing? && !s.rec.handling.half && Has(s, s.rec.handling.w)
    case ReplaceContext => s.rec.Visiting? && s.rec.handling.Replacing? && s.rec.handling.half && Has(s, s.rec.handling.w)
    case FlagCatchup => s.rec.Visiting? && s.rec.handling.Stopped?
    case FindNone(lib) => Idle(s) && lib in s.rec.todo && lib in s.rec.watch && lib !in s.registered
    case StartFails => s.rec.Visiting? && s.rec.handling.Creating?
    case StartWatcher(w) => s.rec.Visiting? && s.rec.handling.Creating? && w !in s.watchers
    case Register => s.rec.Visiting? && s.rec.handling.Started?
    case CatchUp => s.rec.Visiting? && s.rec.handling.CatchingUp? && Has(s, s.rec.handling.w)
    case EndReconcile => Idle(s) && s.rec.todo == {}
  }

  ghost predicate CanStep(s: State, step: Step) {
    match step
    case AddLibrary(lib) => lib !in s.configured
    case RemoveLibrary(lib) => lib in s.configured
    case SetWatch(lib, on) => true
    case At(w, local) => Has(s, w) && CanLocal(s.watchers[w], local)
    case Queue(a) => CanQueue(s, a)
    case Rec(a) => CanReconcile(s, a)
  }

  // ---- who still owes a library its rescan ----

  ghost predicate TimerHolds(s: State, lib: int) {
    exists w :: w in s.watchers && s.watchers[w].lib == lib && WillTrigger(s.watchers[w])
  }

  ghost predicate BrokenHolds(s: State, lib: int) {
    lib in s.registered && Has(s, s.registered[lib]) && Broken(s.watchers[s.registered[lib]])
  }

  ghost predicate ReconcileHolds(s: State, lib: int) {
    s.rec.Visiting? &&
    match s.rec.handling
    case Replacing(l, w, half) => l == lib
    case Stopped(l) => l == lib
    case CatchingUp(l, w) => l == lib
    case Started(l, w) => l == lib && Has(s, w) && Broken(s.watchers[w])
    case _ => false
  }

  /** A timer or fire() of a live watcher, a catch-up flag, a broken watcher still to be replaced, or Reconcile midway. */
  ghost predicate MonitorHolds(s: State, lib: int) {
    TimerHolds(s, lib) || lib in s.catchup || BrokenHolds(s, lib) || ReconcileHolds(s, lib)
  }

  /** The monitor, an enqueue call in progress or a queued scan. */
  ghost predicate Held(s: State, lib: int) {
    MonitorHolds(s, lib) || lib in s.calls || ScanQueued(s, lib)
  }

  ghost function Owe(s: State, libs: set<int>): State {
    s.(debt := s.debt + libs * s.configured)
  }

  // ---- the effect of each step ----

  function LocalAfter(w: Watcher, local: Local): Watcher
    requires CanLocal(w, local)
  {
    match local
    case Schedules => Schedule(w)
    case Expires => Expire(w)
    case OrphanExpires => ExpireOrphan(w)
    case FireLocks => Forget(w)
    case FireChecks => Checked(w)
    case Dies => Die(w)
    case RootGoes => LoseRoot(w)
  }

  /** A schedule() and a loss of events are debts, unless the watcher was already stopped. */
  predicate Incurs(w: Watcher, local: Local) {
    (local.Schedules? || local.Dies? || local.RootGoes?) && !w.stopped
  }

  ghost function ApplyLocal(s: State, w: nat, local: Local): State
    requires Has(s, w) && CanLocal(s.watchers[w], local)
  {
    var w0 := s.watchers[w];
    var s1 := s.(watchers := s.watchers[w := LocalAfter(w0, local)]);
    if Incurs(w0, local) then Owe(s1, {w0.lib})
    else if local.FireChecks? && Passes(w0) then s1.(calls := s1.calls + multiset{w0.lib})
    else s1
  }

  predicate Loses(a: Queueing) {
    a.EnqueueFails? || a.WithdrawScan? || a.WithdrawScanAll?
  }

  ghost function CallsAfter(s: State, a: Queueing): multiset<int> {
    if a.SeesQueued? || a.Creates? || a.EnqueueFails? then s.calls - multiset{a.lib} else s.calls
  }

  ghost function QueuedAfter(s: State, a: Queueing): multiset<int> {
    if a.Creates? || a.QueueScan? then s.queued + multiset{a.lib}
    else if a.ClaimScan? || a.WithdrawScan? then s.queued - multiset{a.lib}
    else s.queued
  }

  ghost function AllQueuedAfter(s: State, a: Queueing): bool {
    a.QueueScanAll? || (s.allQueued && !a.ClaimScanAll? && !a.WithdrawScanAll?)
  }

  /** A started scan repays what was owed. */
  ghost function DebtAfter(s: State, a: Queueing): set<int> {
    if a.ClaimScan? then s.debt - {a.lib} else if a.ClaimScanAll? then {} else s.debt
  }

  ghost function ApplyQueue(s: State, a: Queueing): State
    requires CanQueue(s, a)
  {
    s.(calls := CallsAfter(s, a), queued := QueuedAfter(s, a), allQueued := AllQueuedAfter(s, a), debt := DebtAfter(s, a))
  }

  ghost function SetW(s: State, w: nat, to: Watcher): State {
    s.(watchers := s.watchers[w := to])
  }

  ghost function Handle(s: State, h: Handling): State
    requires s.rec.Visiting?
  {
    s.(rec := Visiting(s.rec.libs, s.rec.watch, s.rec.todo, h))
  }

  ghost function Take(s: State, lib: int, h: Handling): State
    requires s.rec.Visiting?
  {
    s.(rec := Visiting(s.rec.libs, s.rec.watch, s.rec.todo - {lib}, h))
  }

  /** The libraries whose watchers are taken out; those that were not listed get no flag, and lose the one they have. */
  ghost function Dropped(s: State, moved: set<int>): (drop: set<int>)
    requires s.rec.Listed? && moved <= s.registered.Keys
    ensures drop <= s.registered.Keys
  {
    (s.registered.Keys - s.rec.watch) + moved
  }

  ghost function ApplyRec(s: State, a: Reconciling): State
    requires CanReconcile(s, a)
  {
    match a
    case ListLibraries => s.(rec := Listed(s.configured, s.configured * s.watched))
    case DropWatchers(moved) =>
      var drop := Dropped(s, moved);
      Owe(s.(registered := s.registered - drop, catchup := (s.catchup + drop) * s.rec.libs,
             rec := Stopping(s.rec.libs, s.rec.watch, set l | l in drop :: s.registered[l], {})), drop * s.rec.libs)
    case StopsTimer(w) =>
      SetW(s, w, StopTimer(s.watchers[w])).(rec := Stopping(s.rec.libs, s.rec.watch, s.rec.toStop, s.rec.half + {w}))
    case StopsContext(w) =>
      SetW(s, w, Cancel(s.watchers[w])).(rec := Stopping(s.rec.libs, s.rec.watch, s.rec.toStop - {w}, s.rec.half - {w}))
    case BeginVisits => s.(rec := Visiting(s.rec.libs, s.rec.watch, s.rec.libs, Nothing))
    case SkipLibrary(lib) => Take(s, lib, Nothing)
    case FindBroken(lib) => Take(s, lib, Replacing(lib, s.registered[lib], false))
    case ReplaceTimer =>
      var h := s.rec.handling;
      Handle(SetW(s, h.w, StopTimer(s.watchers[h.w])), Replacing(h.lib, h.w, true))
    case ReplaceContext =>
      var h := s.rec.handling;
      Handle(SetW(s, h.w, Cancel(s.watchers[h.w])), Stopped(h.lib))
    case FlagCatchup =>
      var lib := s.rec.handling.lib;
      Owe(Handle(s, Creating(lib)).(registered := s.registered - {lib}, catchup := s.catchup + {lib}), {lib})
    case FindNone(lib) => Take(s, lib, Creating(lib))
    case StartFails => Handle(s, Nothing)
    case StartWatcher(w) =>
      var lib := s.rec.handling.lib;
      Handle(SetW(s, w, NewWatcher(lib)), Started(lib, w))
    case Register =>
      var h := s.rec.handling;
      Handle(s, if h.lib in s.catchup then CatchingUp(h.lib, h.w) else Nothing)
      .(registered := s.registered[h.lib := h.w], catchup := s.catchup - {h.lib})
    case CatchUp =>
      var h := s.rec.handling;
      Handle(SetW(s, h.w, Schedule(s.watchers[h.w])), Nothing)
    case EndReconcile => s.(rec := Off)
  }

  ghost function Apply(s: State, step: Step): State
    requires CanStep(s, step)
  {
    match step
    case AddLibrary(lib) => s.(configured := s.configured + {lib}, ever := s.ever + {lib})
    case RemoveLibrary(lib) => s.(configured := s.configured - {lib}, debt := s.debt - {lib})
    case SetWatch(lib, on) => s.(watched := if on then s.watched + {lib} else s.watched - {lib})
    case At(w, local) => ApplyLocal(s, w, local)
    case Queue(a) => ApplyQueue(s, a)
    case Rec(a) => ApplyRec(s, a)
  }

  ghost predicate Run(s: State, steps: seq<Step>, last: State)
    decreases |steps|
  {
    if steps == [] then last == s
    else CanStep(s, steps[0]) && Run(Apply(s, steps[0]), steps[1..], last)
  }

  // ---- the shape every run keeps ----

  ghost predicate RegisteredOk(s: State) {
    && s.catchup !! s.registered.Keys
    && forall l | l in s.registered ::
      && Has(s, s.registered[l]) && s.watchers[s.registered[l]].lib == l
      && (s.watchers[s.registered[l]].stopped ==> s.rec.Visiting? && s.rec.handling == Stopped(l))
  }

  ghost predicate RecOk(s: State) {
    match s.rec
    case Off => true
    case Listed(libs, watch) => watch <= libs
    case Stopping(libs, watch, toStop, half) =>
      && watch <= libs && s.registered.Keys <= watch && s.catchup <= libs
      && toStop <= s.watchers.Keys && half <= toStop
      && forall w | w in toStop ::
           s.watchers[w].lib !in s.registered && (s.watchers[w].lib in libs ==> s.watchers[w].lib in s.catchup)
    case Visiting(libs, watch, todo, handling) =>
      && watch <= libs && s.registered.Keys <= watch && s.catchup <= libs && todo <= libs && HandlingOk(s, watch, handling)
  }

  ghost predicate HandlingOk(s: State, watch: set<int>, handling: Handling) {
    match handling
    case Nothing => true
    case Replacing(l, w, half) => l in watch && l in s.registered && s.registered[l] == w
    case Stopped(l) => l in watch && l in s.registered && Has(s, s.registered[l]) && s.watchers[s.registered[l]].stopped
    case Creating(l) => l in watch && l !in s.registered
    case Started(l, w) => l in watch && l !in s.registered && Has(s, w) && s.watchers[w].lib == l && !s.watchers[w].stopped
    case CatchingUp(l, w) => l in watch && l in s.registered && s.registered[l] == w
  }

  /** A watcher that is not stopped is registered, or Reconcile has it in hand. */
  ghost predicate AttachedAt(s: State, w: nat)
    requires Has(s, w)
  {
    var l := s.watchers[w].lib;
    || (l in s.registered && s.registered[l] == w)
    || (s.rec.Stopping? && w in s.rec.toStop)
    || (s.rec.Visiting? && s.rec.handling == Started(l, w))
  }

  ghost predicate Attached(s: State) {
    forall w | w in s.watchers && !s.watchers[w].stopped :: AttachedAt(s, w)
  }

  ghost predicate Known(s: State) {
    && s.configured <= s.ever && s.catchup <= s.ever && (!s.rec.Off? ==> s.rec.libs <= s.ever)
    && forall w | w in s.watchers :: s.watchers[w].lib in s.ever
  }

  /** The library was added after the pass under way had listed the libraries. */
  ghost predicate Late(s: State, lib: int) {
    !s.rec.Off? && lib !in s.rec.libs
  }

  ghost predicate Shape(s: State) {
    RegisteredOk(s) && RecOk(s) && Attached(s) && Known(s)
  }

  lemma LocalKeeps(w: Watcher, local: Local)
    requires CanLocal(w, local)
    ensures LocalAfter(w, local).lib == w.lib && LocalAfter(w, local).stopped == w.stopped
  {
  }

  lemma KeepShapeLocal(s: State, w: nat, local: Local)
    requires Shape(s) && Has(s, w) && CanLocal(s.watchers[w], local)
    ensures Shape(ApplyLocal(s, w, local))
  {
    LocalKeeps(s.watchers[w], local);
    ShapeOfOneWatcher(s, ApplyLocal(s, w, local), w);
  }

  lemma ShapeOfOneWatcher(s: State, s': State, w: nat)
    requires Shape(s) && Has(s, w) && s'.watchers.Keys == s.watchers.Keys
    requires forall u | u in s.watchers ::
               s'.watchers[u].lib == s.watchers[u].lib && s'.watchers[u].stopped == s.watchers[u].stopped
    requires s'.registered == s.registered && s'.catchup == s.catchup && s'.rec == s.rec
    requires s'.configured == s.configured && s'.ever == s.ever
    ensures Shape(s')
  {
  }

  lemma KeepRegistered(s: State, a: Reconciling)
    requires CanReconcile(s, a) && RegisteredOk(s) && RecOk(s)
    ensures RegisteredOk(ApplyRec(s, a))
  {
  }

  lemma KeepRec(s: State, a: Reconciling)
    requires CanReconcile(s, a) && RegisteredOk(s) && RecOk(s)
    ensures RecOk(ApplyRec(s, a))
  {
  }

  lemma KeepAttached(s: State, a: Reconciling)
    requires CanReconcile(s, a) && RegisteredOk(s) && RecOk(s) && Attached(s)
    ensures Attached(ApplyRec(s, a))
  {
  }

  lemma KeepKnown(s: State, a: Reconciling)
    requires CanReconcile(s, a) && RegisteredOk(s) && RecOk(s) && Known(s)
    ensures Known(ApplyRec(s, a))
  {
  }

  lemma KeepShape(s: State, step: Step)
    requires Shape(s) && CanStep(s, step)
    ensures Shape(Apply(s, step))
  {
    match step
    case At(w, local) => KeepShapeLocal(s, w, local);
    case Rec(a) =>
      KeepRegistered(s, a);
      KeepRec(s, a);
      KeepAttached(s, a);
      KeepKnown(s, a);
    case _ => ShapeWithSameWatchers(s, Apply(s, step));
  }

  lemma ShapeWithSameWatchers(s: State, s': State)
    requires Shape(s) && s'.watchers == s.watchers && s'.registered == s.registered && s'.catchup == s.catchup
             && s'.rec == s.rec
    requires s.ever <= s'.ever && s'.configured <= s'.ever
    ensures Shape(s')
  {
  }

  // ---- every debt is held ----

  lemma StillHeldLocal(s: State, w: nat, local: Local, lib: int)
    requires Shape(s) && Has(s, w) && CanLocal(s.watchers[w], local) && !Late(s, lib)
    requires Held(s, lib) || (Incurs(s.watchers[w], local) && s.watchers[w].lib == lib)
    ensures Held(ApplyLocal(s, w, local), lib)
  {
    var s' := ApplyLocal(s, w, local);
    LocalKeeps(s.watchers[w], local);
    if TimerHolds(s, lib) || (Incurs(s.watchers[w], local) && s.watchers[w].lib == lib) {
      TimerStillHeld(s, w, local, lib);
    } else if BrokenHolds(s, lib) {
      assert BrokenHolds(s', lib);
    } else if ReconcileHolds(s, lib) {
      assert ReconcileHolds(s', lib);
    }
  }

  lemma TimerStillHeld(s: State, w: nat, local: Local, lib: int)
    requires Shape(s) && Has(s, w) && CanLocal(s.watchers[w], local) && !Late(s, lib)
    requires TimerHolds(s, lib) || (Incurs(s.watchers[w], local) && s.watchers[w].lib == lib)
    ensures Held(ApplyLocal(s, w, local), lib)
  {
    var s' := ApplyLocal(s, w, local);
    if s.watchers[w].lib == lib && (Incurs(s.watchers[w], local) || WillTrigger(s.watchers[w])) {
      OwnTimerStillHeld(s, w, local);
    } else {
      var u :| u in s.watchers && s.watchers[u].lib == lib && WillTrigger(s.watchers[u]);
      assert s'.watchers[u] == s.watchers[u];
      assert TimerHolds(s', lib);
    }
  }

  /** A watcher's own step keeps its pending trigger, hands it to enqueue, or leaves the watcher broken. */
  lemma OwnStep(w: Watcher, local: Local)
    requires CanLocal(w, local) && !w.stopped && (Incurs(w, local) || WillTrigger(w))
    ensures WillTrigger(LocalAfter(w, local)) || (local.FireChecks? && Passes(w)) || Broken(LocalAfter(w, local))
    ensures local.FireChecks? ==> !Incurs(w, local)
  {
  }

  lemma OwnTimerStillHeld(s: State, w: nat, local: Local)
    requires Shape(s) && Has(s, w) && CanLocal(s.watchers[w], local) && !Late(s, s.watchers[w].lib)
    requires Incurs(s.watchers[w], local) || WillTrigger(s.watchers[w])
    ensures Held(ApplyLocal(s, w, local), s.watchers[w].lib)
  {
    var s', w0 := ApplyLocal(s, w, local), s.watchers[w];
    OwnStep(w0, local);
    LocalKeeps(w0, local);
    assert s'.watchers[w] == LocalAfter(w0, local);
    if WillTrigger(s'.watchers[w]) {
      assert TimerHolds(s', w0.lib);
    } else if local.FireChecks? && Passes(w0) {
      assert w0.lib in s'.calls;
    } else {
      KeepShapeLocal(s, w, local);
      BrokenIsHeld(s', w, w0.lib);
    }
  }

  /** A broken watcher that is not stopped is registered, being replaced, or its library is flagged. */
  lemma BrokenIsHeld(s: State, w: nat, lib: int)
    requires RegisteredOk(s) && RecOk(s) && Has(s, w) && AttachedAt(s, w) && !Late(s, lib)
    requires Broken(s.watchers[w]) && s.watchers[w].lib == lib
    ensures Held(s, lib)
  {
  }

  lemma SameMonitorHolds(s: State, s': State, lib: int)
    requires s'.watchers == s.watchers && s'.registered == s.registered && s'.catchup == s.catchup && s'.rec == s.rec
    ensures MonitorHolds(s', lib) <==> MonitorHolds(s, lib)
  {
    assert TimerHolds(s', lib) <==> TimerHolds(s, lib);
  }

  lemma QueueHolds(s: State, a: Queueing, lib: int)
    requires CanQueue(s, a) && Held(s, lib) && !Loses(a)
    ensures Held(ApplyQueue(s, a), lib) || lib !in ApplyQueue(s, a).debt
  {
    SameMonitorHolds(s, ApplyQueue(s, a), lib);
  }

  /** What is taken away here is the library's only holder. */
  ghost predicate OnlyHolder(s: State, a: Queueing, lib: int) {
    && !MonitorHolds(s, lib)
    && match a
       case EnqueueFails(l) => l == lib && s.calls[lib] == 1 && !ScanQueued(s, lib)
       case WithdrawScan(l) => l == lib && s.queued[lib] == 1 && !s.allQueued && lib !in s.calls
       case WithdrawScanAll => lib !in s.queued && lib !in s.calls
       case _ => false
  }

  lemma LosesTheOnlyHolder(s: State, a: Queueing, lib: int)
    requires CanQueue(s, a) && Held(s, lib) && Loses(a)
    ensures !Held(ApplyQueue(s, a), lib) <==> OnlyHolder(s, a, lib)
  {
    SameMonitorHolds(s, ApplyQueue(s, a), lib);
  }

  lemma TimerThroughReconcile(s: State, a: Reconciling, lib: int)
    requires Shape(s) && CanReconcile(s, a) && !Late(s, lib) && TimerHolds(s, lib)
    ensures Held(ApplyRec(s, a), lib)
  {
    var s' := ApplyRec(s, a);
    var u :| u in s.watchers && s.watchers[u].lib == lib && WillTrigger(s.watchers[u]);
    if s'.watchers[u] == s.watchers[u] {
      assert TimerHolds(s', lib);
    } else {
      ChangedByReconcile(s, a, u);
    }
  }

  /** Reconcile only stops a watcher whose library is flagged or in its hands. */
  lemma ChangedByReconcile(s: State, a: Reconciling, u: nat)
    requires Shape(s) && CanReconcile(s, a) && Has(s, u) && !Late(s, s.watchers[u].lib)
    requires ApplyRec(s, a).watchers[u] != s.watchers[u] && WillTrigger(s.watchers[u])
    ensures Held(ApplyRec(s, a), s.watchers[u].lib)
  {
    var s', lib := ApplyRec(s, a), s.watchers[u].lib;
    match a
    case StopsTimer(w) => assert lib in s'.catchup;
    case StopsContext(w) => assert lib in s'.catchup;
    case ReplaceTimer => assert ReconcileHolds(s', lib);
    case ReplaceContext => assert ReconcileHolds(s', lib);
    case CatchUp =>
      assert WillTrigger(s'.watchers[u]) && s'.watchers[u].lib == lib;
      assert TimerHolds(s', lib);
  }

  lemma FlagThroughReconcile(s: State, a: Reconciling, lib: int)
    requires Shape(s) && CanReconcile(s, a) && !Late(s, lib) && lib in s.catchup
    ensures Held(ApplyRec(s, a), lib)
  {
    var s' := ApplyRec(s, a);
    if a.Register? && s.rec.handling.lib == lib {
      assert ReconcileHolds(s', lib);
    } else {
      assert lib in s'.catchup;
    }
  }

  lemma BrokenThroughReconcile(s: State, a: Reconciling, lib: int)
    requires Shape(s) && CanReconcile(s, a) && !Late(s, lib) && BrokenHolds(s, lib)
    ensures Held(ApplyRec(s, a), lib)
  {
    var s' := ApplyRec(s, a);
    match a
    case DropWatchers(moved) => assert lib in Dropped(s, moved) ==> lib in s'.catchup;
    case FlagCatchup => assert s.rec.handling.lib == lib ==> lib in s'.catchup;
    case _ =>
  }

  lemma HandlingThroughReconcile(s: State, a: Reconciling, lib: int)
    requires Shape(s) && CanReconcile(s, a) && !Late(s, lib) && ReconcileHolds(s, lib)
    ensures Held(ApplyRec(s, a), lib)
  {
    var s' := ApplyRec(s, a);
    match a
    case ReplaceTimer => assert ReconcileHolds(s', lib);
    case ReplaceContext => assert ReconcileHolds(s', lib);
    case FlagCatchup => assert lib in s'.catchup;
    case Register => assert BrokenHolds(s', lib);
    case CatchUp =>
      var w := s.rec.handling.w;
      if Passes(s.watchers[w]) {
        assert WillTrigger(s'.watchers[w]) && s'.watchers[w].lib == lib;
      } else {
        assert BrokenHolds(s', lib);
      }
  }

  lemma StillHeldRec(s: State, a: Reconciling, lib: int)
    requires Shape(s) && CanReconcile(s, a) && !Late(s, lib)
    requires Held(s, lib) || (lib in ApplyRec(s, a).debt && lib !in s.debt)
    ensures Held(ApplyRec(s, a), lib)
  {
    var s' := ApplyRec(s, a);
    if TimerHolds(s, lib) {
      TimerThroughReconcile(s, a, lib);
    } else if lib in s.catchup {
      FlagThroughReconcile(s, a, lib);
    } else if BrokenHolds(s, lib) {
      BrokenThroughReconcile(s, a, lib);
    } else if ReconcileHolds(s, lib) {
      HandlingThroughReconcile(s, a, lib);
    } else if a.DropWatchers? || a.FlagCatchup? {
      assert lib in s.calls || ScanQueued(s, lib) || lib in s'.catchup;
    }
  }

  // ---- a library the pass under way did not list ----

  /** No watcher of the library but w will still trigger. */
  ghost predicate OnlyTimer(s: State, w: nat, lib: int) {
    && Has(s, w) && s.watchers[w].lib == lib
    && forall u | u in s.watchers && u != w && s.watchers[u].lib == lib :: !WillTrigger(s.watchers[u])
  }

  /**
   The library has the id of a removed one and was added after the pass had
   listed the libraries: the pass takes the old watcher out without a flag, or
   stops it, or it is lost in between, and nothing else holds the debt.
   */
  ghost predicate LosesLate(s: State, step: Step, lib: int) {
    && Late(s, lib) && lib !in s.calls && !ScanQueued(s, lib) && CanStep(s, step)
    && match step
       case Rec(DropWatchers(moved)) => !TimerHolds(s, lib)
       case Rec(StopsTimer(w)) => OnlyTimer(s, w, lib) && !WillTrigger(StopTimer(s.watchers[w]))
       case Rec(StopsContext(w)) => OnlyTimer(s, w, lib)
       case At(w, local) =>
         && s.rec.Stopping? && w in s.rec.toStop && OnlyTimer(s, w, lib)
         && !WillTrigger(LocalAfter(s.watchers[w], local)) && !(local.FireChecks? && Passes(s.watchers[w]))
       case _ => false
  }

  lemma LateHolders(s: State, lib: int)
    requires RecOk(s) && Late(s, lib)
    ensures !ReconcileHolds(s, lib)
    ensures !s.rec.Listed? ==> lib !in s.catchup && lib !in s.registered
  {
  }

  /** Any other step of the pass leaves such a library's holders alone. */
  lemma LateRec(s: State, a: Reconciling, lib: int)
    requires Shape(s) && CanReconcile(s, a) && Late(s, lib) && !a.DropWatchers? && !a.StopsTimer? && !a.StopsContext?
    ensures Held(ApplyRec(s, a), lib) <==> Held(s, lib)
  {
    var s' := ApplyRec(s, a);
    LateHolders(s, lib);
    SameTimers(s, s', lib);
  }

  lemma SameTimers(s: State, s': State, lib: int)
    requires forall w | w in s.watchers :: w in s'.watchers
    requires forall w | w in s'.watchers && s'.watchers[w].lib == lib :: w in s.watchers && s'.watchers[w] == s.watchers[w]
    requires forall w | w in s.watchers && s.watchers[w].lib == lib :: s'.watchers[w] == s.watchers[w]
    ensures TimerHolds(s', lib) <==> TimerHolds(s, lib)
  {
  }

  lemma LateDrop(s: State, moved: set<int>, lib: int)
    requires Shape(s) && CanReconcile(s, DropWatchers(moved)) && Late(s, lib)
    ensures Held(ApplyRec(s, DropWatchers(moved)), lib) <==> TimerHolds(s, lib) || lib in s.calls || ScanQueued(s, lib)
  {
    var s' := ApplyRec(s, DropWatchers(moved));
    KeepShape(s, Rec(DropWatchers(moved)));
    LateHolders(s', lib);
    SameTimers(s, s', lib);
  }

  lemma OneTimer(s: State, s': State, w: nat, lib: int)
    requires Has(s, w) && Has(s', w) && s.watchers[w].lib == lib && s'.watchers == s.watchers[w := s'.watchers[w]]
    requires s'.watchers[w].lib == lib
    ensures TimerHolds(s', lib) <==> WillTrigger(s'.watchers[w]) || !OnlyTimer(s, w, lib)
  {
    if TimerHolds(s', lib) && !WillTrigger(s'.watchers[w]) {
      var u :| u in s'.watchers && s'.watchers[u].lib == lib && WillTrigger(s'.watchers[u]);
      assert s.watchers[u] == s'.watchers[u];
    }
    if !OnlyTimer(s, w, lib) {
      var u :| u in s.watchers && u != w && s.watchers[u].lib == lib && WillTrigger(s.watchers[u]);
      assert s'.watchers[u] == s.watchers[u];
    }
  }

  lemma LateStop(s: State, a: Reconciling, lib: int)
    requires Shape(s) && CanReconcile(s, a) && Late(s, lib) && (a.StopsTimer? || a.StopsContext?) && Held(s, lib)
    ensures !Held(ApplyRec(s, a), lib) <==> LosesLate(s, Rec(a), lib)
  {
    var s' := ApplyRec(s, a);
    LateHolders(s, lib);
    if s.watchers[a.w].lib == lib {
      OneTimer(s, s', a.w, lib);
    } else {
      SameTimers(s, s', lib);
    }
  }

  lemma LateLocal(s: State, w: nat, local: Local, lib: int)
    requires Shape(s) && Has(s, w) && CanLocal(s.watchers[w], local) && Late(s, lib) && lib in s.configured
    requires Owed(s, lib) ==> Held(s, lib)
    requires lib in ApplyLocal(s, w, local).debt
    ensures !Held(ApplyLocal(s, w, local), lib) <==> LosesLate(s, At(w, local), lib)
  {
    LocalKeeps(s.watchers[w], local);
    if s.watchers[w].lib != lib {
      LateOther(s, w, local, lib);
    } else {
      OneTimer(s, ApplyLocal(s, w, local), w, lib);
      LateOwn(s, w, local, lib);
    }
  }

  lemma LateOther(s: State, w: nat, local: Local, lib: int)
    requires Shape(s) && Has(s, w) && CanLocal(s.watchers[w], local) && Late(s, lib) && s.watchers[w].lib != lib
    requires Held(s, lib)
    ensures Held(ApplyLocal(s, w, local), lib)
  {
    var s' := ApplyLocal(s, w, local);
    LocalKeeps(s.watchers[w], local);
    LateHolders(s, lib);
    SameTimers(s, s', lib);
    assert BrokenHolds(s, lib) ==> BrokenHolds(s', lib);
  }

  lemma LateOwn(s: State, w: nat, local: Local, lib: int)
    requires Shape(s) && Has(s, w) && CanLocal(s.watchers[w], local) && Late(s, lib) && s.watchers[w].lib == lib
    requires lib in s.configured && (Owed(s, lib) ==> Held(s, lib)) && lib in ApplyLocal(s, w, local).debt
    requires TimerHolds(ApplyLocal(s, w, local), lib) <==>
               WillTrigger(LocalAfter(s.watchers[w], local)) || !OnlyTimer(s, w, lib)
    ensures !Held(ApplyLocal(s, w, local), lib) <==> LosesLate(s, At(w, local), lib)
  {
    LateHolders(s, lib);
    if s.watchers[w].stopped {
      LateStopped(s, w, local, lib);
    } else {
      assert AttachedAt(s, w);
      if s.rec.Listed? {
        LateRegistered(s, w, local, lib);
      } else {
        LateTakenOut(s, w, local, lib);
      }
    }
  }

  /** A stopped watcher holds nothing and incurs nothing. */
  lemma LateStopped(s: State, w: nat, local: Local, lib: int)
    requires RecOk(s) && Attached(s) && Has(s, w) && CanLocal(s.watchers[w], local) && Late(s, lib)
    requires s.watchers[w].lib == lib && s.watchers[w].stopped && lib in s.configured && (Owed(s, lib) ==> Held(s, lib))
    requires lib in ApplyLocal(s, w, local).debt
    requires TimerHolds(ApplyLocal(s, w, local), lib) <==>
               WillTrigger(LocalAfter(s.watchers[w], local)) || !OnlyTimer(s, w, lib)
    ensures !Held(ApplyLocal(s, w, local), lib) <==> LosesLate(s, At(w, local), lib)
  {
    LocalKeeps(s.watchers[w], local);
    var s' := ApplyLocal(s, w, local);
    assert Held(s, lib);
    assert TimerHolds(s, lib) ==> !OnlyTimer(s, w, lib);
    assert BrokenHolds(s, lib) ==> BrokenHolds(s', lib);
  }

  lemma LateRegistered(s: State, w: nat, local: Local, lib: int)
    requires Shape(s) && Has(s, w) && CanLocal(s.watchers[w], local) && s.rec.Listed? && Late(s, lib)
    requires s.watchers[w].lib == lib && !s.watchers[w].stopped && lib in s.registered && s.registered[lib] == w
    requires lib in s.configured && (Owed(s, lib) ==> Held(s, lib)) && lib in ApplyLocal(s, w, local).debt
    requires TimerHolds(ApplyLocal(s, w, local), lib) <==>
               WillTrigger(LocalAfter(s.watchers[w], local)) || !OnlyTimer(s, w, lib)
    ensures Held(ApplyLocal(s, w, local), lib)
  {
    var s' := ApplyLocal(s, w, local);
    if Incurs(s.watchers[w], local) || WillTrigger(s.watchers[w]) {
      OwnStep(s.watchers[w], local);
      assert Broken(LocalAfter(s.watchers[w], local)) ==> BrokenHolds(s', lib);
    } else {
      assert Held(s, lib);
      assert TimerHolds(s, lib) ==> !OnlyTimer(s, w, lib);
      assert BrokenHolds(s, lib) ==> BrokenHolds(s', lib);
    }
  }

  lemma LateTakenOut(s: State, w: nat, local: Local, lib: int)
    requires Shape(s) && Has(s, w) && CanLocal(s.watchers[w], local) && s.rec.Stopping? && w in s.rec.toStop && Late(s, lib)
    requires s.watchers[w].lib == lib && lib !in s.registered && lib !in s.catchup
    requires TimerHolds(ApplyLocal(s, w, local), lib) <==>
               WillTrigger(LocalAfter(s.watchers[w], local)) || !OnlyTimer(s, w, lib)
    ensures !Held(ApplyLocal(s, w, local), lib) <==> LosesLate(s, At(w, local), lib)
  {
  }

  // ---- the main results ----

  ghost predicate Inv(s: State) {
    Shape(s) && s.debt <= s.configured
  }

  lemma DebtsAreConfigured(s: State, step: Step)
    requires Inv(s) && CanStep(s, step)
    ensures Apply(s, step).debt <= Apply(s, step).configured
  {
    match step
    case At(w, local) => DebtsAfterLocal(s, w, local);
    case Rec(a) => DebtsAfterReconciling(s, a);
    case _ =>
  }

  lemma DebtsAfterLocal(s: State, w: nat, local: Local)
    requires s.debt <= s.configured && Has(s, w) && CanLocal(s.watchers[w], local)
    ensures ApplyLocal(s, w, local).debt <= ApplyLocal(s, w, local).configured
  {
  }

  lemma DebtsAfterReconciling(s: State, a: Reconciling)
    requires s.debt <= s.configured && CanReconcile(s, a)
    ensures ApplyRec(s, a).debt <= ApplyRec(s, a).configured
  {
  }

  lemma KeepInv(s: State, step: Step)
    requires Inv(s) && CanStep(s, step)
    ensures Inv(Apply(s, step))
  {
    KeepShape(s, step);
    DebtsAreConfigured(s, step);
  }

  lemma {:induction false} RunInv(s: State, steps: seq<Step>, last: State)
    requires Inv(s) && Run(s, steps, last)
    ensures Inv(last)
    decreases |steps|
  {
    if steps != [] {
      KeepInv(s, steps[0]);
      RunInv(Apply(s, steps[0]), steps[1..], last);
    }
  }

  ghost predicate Reachable(s: State) {
    exists s0, steps :: Init(s0) && Run(s0, steps, s)
  }

  lemma ReachableInv(s: State)
    requires Reachable(s)
    ensures Inv(s)
  {
    var s0, steps :| Init(s0) && Run(s0, steps, s);
    RunInv(s0, steps, s);
  }

  /** A configured library is owed a rescan. */
  ghost predicate Owed(s: State, lib: int) {
    lib in s.debt && lib in s.configured
  }

  /** The step is a failing enqueue, or a queued scan is withdrawn, and that was the library's only holder. */
  ghost predicate TakesTheLast(s: State, step: Step, lib: int) {
    step.Queue? && CanQueue(s, step.queueing) && Loses(step.queueing) && OnlyHolder(s, step.queueing, lib)
  }

  /** One of the two ways in which a debt ends up without a holder. */
  ghost predicate Takes(s: State, step: Step, lib: int) {
    (Owed(s, lib) && TakesTheLast(s, step, lib)) || LosesLate(s, step, lib)
  }

  /**
   The exact condition, in the state before the step: a step from a state in
   which the debt, if there was one, had a holder leaves a debt without a holder
   exactly if it takes the last one, or the library was added with a used id after
   the pass under way had listed the libraries, and the pass gives up the old watcher.
   */
  lemma LosesExactly(s: State, step: Step, lib: int)
    requires Inv(s) && CanStep(s, step) && (Owed(s, lib) ==> Held(s, lib)) && Owed(Apply(s, step), lib)
    ensures !Held(Apply(s, step), lib) <==> Takes(s, step, lib)
  {
    if Late(s, lib) {
      LosesLateExactly(s, step, lib);
    } else {
      LosesListedExactly(s, step, lib);
    }
  }

  lemma LosesLateExactly(s: State, step: Step, lib: int)
    requires Inv(s) && CanStep(s, step) && (Owed(s, lib) ==> Held(s, lib)) && Owed(Apply(s, step), lib) && Late(s, lib)
    ensures !Held(Apply(s, step), lib) <==> Takes(s, step, lib)
  {
    match step
    case At(w, local) => LateLocal(s, w, local, lib);
    case Queue(a) =>
      if Loses(a) {
        LosesTheOnlyHolder(s, a, lib);
      } else {
        QueueHolds(s, a, lib);
      }
    case Rec(a) =>
      LateOwesNothingNew(s, a, lib);
      LateReconciling(s, a, lib);
    case AddLibrary(l) => SameMonitorHolds(s, Apply(s, step), lib);
    case RemoveLibrary(l) => SameMonitorHolds(s, Apply(s, step), lib);
    case SetWatch(l, on) => SameMonitorHolds(s, Apply(s, step), lib);
  }

  lemma LateReconciling(s: State, a: Reconciling, lib: int)
    requires Shape(s) && CanReconcile(s, a) && Late(s, lib) && Held(s, lib)
    ensures !Held(ApplyRec(s, a), lib) <==> LosesLate(s, Rec(a), lib)
  {
    match a
    case DropWatchers(moved) => LateDrop(s, moved, lib);
    case StopsTimer(w) => LateStop(s, a, lib);
    case StopsContext(w) => LateStop(s, a, lib);
    case _ => LateRec(s, a, lib);
  }

  lemma LateOwesNothingNew(s: State, a: Reconciling, lib: int)
    requires RecOk(s) && CanReconcile(s, a) && Late(s, lib)
    ensures lib in ApplyRec(s, a).debt <==> lib in s.debt
  {
  }

  lemma LosesListedExactly(s: State, step: Step, lib: int)
    requires Inv(s) && CanStep(s, step) && (Owed(s, lib) ==> Held(s, lib)) && Owed(Apply(s, step), lib) && !Late(s, lib)
    ensures !Held(Apply(s, step), lib) <==> Takes(s, step, lib)
  {
    match step
    case At(w, local) => StillHeldLocal(s, w, local, lib);
    case Queue(a) =>
      if Loses(a) {
        LosesTheOnlyHolder(s, a, lib);
      } else {
        QueueHolds(s, a, lib);
      }
    case Rec(a) => StillHeldRec(s, a, lib);
    case AddLibrary(l) => SameMonitorHolds(s, Apply(s, step), lib);
    case RemoveLibrary(l) => SameMonitorHolds(s, Apply(s, step), lib);
    case SetWatch(l, on) => SameMonitorHolds(s, Apply(s, step), lib);
  }

  /** Step k of the run took the library's last holder. */
  ghost predicate TakenAt(s: State, steps: seq<Step>, lib: int, k: nat) {
    k < |steps| && exists mid :: Run(s, steps[..k], mid) && Takes(mid, steps[k], lib)
  }

  lemma TakenLater(s: State, steps: seq<Step>, lib: int, k: nat)
    requires steps != [] && CanStep(s, steps[0]) && TakenAt(Apply(s, steps[0]), steps[1..], lib, k)
    ensures TakenAt(s, steps, lib, k + 1)
  {
    var mid :| Run(Apply(s, steps[0]), steps[1..][..k], mid) && Takes(mid, steps[1..][k], lib);
    assert steps[..k + 1][0] == steps[0] && steps[..k + 1][1..] == steps[1..][..k];
    assert Run(s, steps[..k + 1], mid);
  }

  lemma {:induction false} UnheldWasTaken(s: State, steps: seq<Step>, last: State, lib: int)
    requires Inv(s) && Run(s, steps, last) && (Owed(s, lib) ==> Held(s, lib))
    requires Owed(last, lib) && !Held(last, lib)
    ensures exists k :: TakenAt(s, steps, lib, k)
    decreases |steps|
  {
    var s1 := Apply(s, steps[0]);
    KeepInv(s, steps[0]);
    if Owed(s1, lib) && !Held(s1, lib) {
      LosesExactly(s, steps[0], lib);
      assert Run(s, steps[..0], s);
      assert TakenAt(s, steps, lib, 0);
    } else {
      UnheldWasTaken(s1, steps[1..], last, lib);
      var k :| TakenAt(s1, steps[1..], lib, k);
      TakenLater(s, steps, lib, k);
    }
  }

  /**
   No rescan debt is lost: after any run each configured library that is owed a
   rescan has a holder for it, unless some step of the run was a database
   failure in enqueue, or a cancel or delete of a queued scan, that took the
   only holder it then had, or gave up the watcher of a removed library whose id
   it had been given during a pass.
   */
  lemma NoDebtIsLost(s0: State, steps: seq<Step>, s: State, lib: int)
    requires Init(s0) && Run(s0, steps, s) && Owed(s, lib)
    ensures Held(s, lib) || exists k :: TakenAt(s0, steps, lib, k)
  {
    if !Held(s, lib) {
      UnheldWasTaken(s0, steps, s, lib);
    }
  }

  ghost predicate NothingFails(steps: seq<Step>) {
    forall k | 0 <= k < |steps| :: steps[k].Queue? ==> !Loses(steps[k].queueing)
  }

  /** No id is given out twice. */
  ghost predicate AddsFresh(s: State, steps: seq<Step>) {
    forall j | 0 <= j < |steps| && steps[j].AddLibrary? ::
      steps[j].lib !in s.ever && forall i | 0 <= i < j :: steps[i] != steps[j]
  }

  /** The library has had no watcher, flag or debt. */
  ghost predicate Untouched(s: State, l: int) {
    l !in s.debt && l !in s.catchup && forall w | w in s.watchers :: s.watchers[w].lib != l
  }

  /** So it is with those added since the pass under way listed the libraries. */
  ghost predicate LateUntouched(s: State) {
    forall l | l in s.configured && Late(s, l) :: Untouched(s, l)
  }

  lemma KeepUntouched(s: State, step: Step)
    requires Inv(s) && CanStep(s, step) && LateUntouched(s) && (step.AddLibrary? ==> step.lib !in s.ever)
    ensures LateUntouched(Apply(s, step))
  {
    var s' := Apply(s, step);
    forall l | l in s'.configured && Late(s', l) ensures Untouched(s', l) {
      match step
      case At(w, local) => LocalStaysUntouched(s, w, local, l);
      case Rec(a) => RecStaysUntouched(s, a, l);
      case Queue(a) => assert Untouched(s, l);
      case AddLibrary(lib) => assert l != lib ==> Untouched(s, l);
      case _ => assert Untouched(s, l);
    }
  }

  lemma LocalStaysUntouched(s: State, w: nat, local: Local, l: int)
    requires Has(s, w) && CanLocal(s.watchers[w], local) && Untouched(s, l)
    ensures Untouched(ApplyLocal(s, w, local), l)
  {
    LocalKeeps(s.watchers[w], local);
  }

  lemma RecStaysUntouched(s: State, a: Reconciling, l: int)
    requires Inv(s) && CanReconcile(s, a) && LateUntouched(s) && l in s.configured && Late(ApplyRec(s, a), l)
    ensures Untouched(ApplyRec(s, a), l)
  {
    if !a.ListLibraries? {
      assert Untouched(s, l);
    }
  }

  lemma {:induction false} FreshRunKeepsDebts(s: State, steps: seq<Step>, last: State, lib: int)
    requires Inv(s) && LateUntouched(s) && Run(s, steps, last) && NothingFails(steps) && AddsFresh(s, steps)
    requires (Owed(s, lib) ==> Held(s, lib)) && Owed(last, lib)
    ensures Held(last, lib)
    decreases |steps|
  {
    if steps != [] {
      var s1 := Apply(s, steps[0]);
      KeepInv(s, steps[0]);
      KeepUntouched(s, steps[0]);
      if Owed(s1, lib) {
        FreshStepKeepsDebts(s, steps[0], lib);
      }
      StillFresh(s, steps);
      FreshRunKeepsDebts(s1, steps[1..], last, lib);
    }
  }

  lemma StillFresh(s: State, steps: seq<Step>)
    requires steps != [] && CanStep(s, steps[0]) && AddsFresh(s, steps) && NothingFails(steps)
    ensures AddsFresh(Apply(s, steps[0]), steps[1..]) && NothingFails(steps[1..])
  {
    EverGrows(s, steps[0]);
    var rest := steps[1..];
    forall j | 0 <= j < |rest| && rest[j].AddLibrary?
      ensures rest[j].lib !in Apply(s, steps[0]).ever && forall i | 0 <= i < j :: rest[i] != rest[j]
    {
      assert rest[j] == steps[j + 1] && steps[0] != steps[j + 1];
      forall i | 0 <= i < j ensures rest[i] != rest[j] {
        assert rest[i] == steps[i + 1];
      }
    }
  }

  lemma EverGrows(s: State, step: Step)
    requires CanStep(s, step)
    ensures Apply(s, step).ever == if step.AddLibrary? then s.ever + {step.lib} else s.ever
  {
  }

  lemma FreshStepKeepsDebts(s: State, step: Step, lib: int)
    requires Inv(s) && LateUntouched(s) && CanStep(s, step) && (step.Queue? ==> !Loses(step.queueing))
    requires (Owed(s, lib) ==> Held(s, lib)) && Owed(Apply(s, step), lib)
    ensures Held(Apply(s, step), lib)
  {
    LosesExactly(s, step, lib);
    UntouchedNotLate(s, step, lib);
  }

  lemma UntouchedNotLate(s: State, step: Step, lib: int)
    requires Inv(s) && LateUntouched(s) && CanStep(s, step) && Owed(Apply(s, step), lib)
    ensures !LosesLate(s, step, lib)
  {
  }

  /**
   A run in which enqueue never fails, no queued scan is withdrawn and no id is
   given out twice keeps a holder for every debt.
   */
  lemma CleanRunKeepsDebts(s0: State, steps: seq<Step>, s: State, lib: int)
    requires Init(s0) && Run(s0, steps, s) && NothingFails(steps) && AddsFresh(s0, steps) && Owed(s, lib)
    ensures Held(s, lib)
  {
    FreshRunKeepsDebts(s0, steps, s, lib);
  }

  // ---- the failures do lose debts ----

  lemma StepReaches(s: State, step: Step, s': State)
    requires Reachable(s) && CanStep(s, step) && Apply(s, step) == s'
    ensures Reachable(s')
  {
    var s0, steps :| Init(s0) && Run(s0, steps, s);
    RunSnoc(s0, steps, s, step);
  }

  lemma {:induction false} RunSnoc(s: State, steps: seq<Step>, mid: State, step: Step)
    requires Run(s, steps, mid) && CanStep(mid, step)
    ensures Run(s, steps + [step], Apply(mid, step))
    decreases |steps|
  {
    if steps == [] {
      assert Run(Apply(s, step), [], Apply(s, step));
    } else {
      RunSnoc(Apply(s, steps[0]), steps[1..], mid, step);
      assert (steps + [step])[1..] == steps[1..] + [step];
    }
  }

  /** Library 1 alone, with Reconcile at this point and no watcher yet. */
  ghost function Alone(rec: Reconcile): State {
    State({1}, {1}, {1}, map[], map[], {}, rec, multiset{}, multiset{}, false, {})
  }

  /** Library 1 with its watcher 0 in this state, and Reconcile off. */
  ghost function With(w: Watcher, calls: multiset<int>, debt: set<int>): State {
    State({1}, {1}, {1}, map[0 := w], map[1 := 0], {}, Off, calls, multiset{}, false, debt)
  }

  lemma NoneDropped()
    ensures ApplyRec(Alone(Listed({1}, {1})), DropWatchers({})) == Alone(Stopping({1}, {1}, {}, {}))
  {
    var s' := ApplyRec(Alone(Listed({1}, {1})), DropWatchers({}));
    assert Dropped(Alone(Listed({1}, {1})), {}) == {};
    assert s'.rec.toStop == {} && s'.registered == map[] && s'.catchup == {} && s'.debt == {};
  }

  lemma PassLists()
    ensures Reachable(Alone(Stopping({1}, {1}, {}, {})))
  {
    var s := Alone(Off);
    assert Run(s, [], s);
    assert {1} * {1} == {1};
    StepReaches(s, Rec(ListLibraries), Alone(Listed({1}, {1})));
    NoneDropped();
    StepReaches(Alone(Listed({1}, {1})), Rec(DropWatchers({})), Alone(Stopping({1}, {1}, {}, {})));
  }

  lemma VisitBegins()
    ensures Reachable(Alone(Visiting({1}, {1}, {}, Creating(1))))
  {
    PassLists();
    StepReaches(Alone(Stopping({1}, {1}, {}, {})), Rec(BeginVisits), Alone(Visiting({1}, {1}, {1}, Nothing)));
    assert {1} - {1} == {};
    StepReaches(Alone(Visiting({1}, {1}, {1}, Nothing)), Rec(FindNone(1)), Alone(Visiting({1}, {1}, {}, Creating(1))));
  }

  /** The watcher runs; Reconcile is about to register it, or just has. */
  ghost function Begun(registered: map<int, nat>, h: Handling): State {
    Alone(Visiting({1}, {1}, {}, h)).(watchers := map[0 := NewWatcher(1)], registered := registered)
  }

  lemma WatcherStarts()
    ensures Reachable(Begun(map[], Started(1, 0)))
  {
    VisitBegins();
    StepReaches(Alone(Visiting({1}, {1}, {}, Creating(1))), Rec(StartWatcher(0)), Begun(map[], Started(1, 0)));
  }

  lemma WatcherRegistered()
    ensures Reachable(Begun(map[1 := 0], Nothing))
  {
    WatcherStarts();
    StepReaches(Begun(map[], Started(1, 0)), Rec(Register), Begun(map[1 := 0], Nothing));
  }

  lemma WatchBegins()
    ensures Reachable(With(NewWatcher(1), multiset{}, {}))
  {
    WatcherRegistered();
    StepReaches(Begun(map[1 := 0], Nothing), Rec(EndReconcile), With(NewWatcher(1), multiset{}, {}));
  }

  lemma WatcherSteps(w: Watcher, local: Local, calls: multiset<int>, debt: set<int>)
    requires CanLocal(w, local) && w.lib == 1 && !local.FireChecks? && (Incurs(w, local) ==> debt == {1})
    requires Reachable(With(w, calls, if Incurs(w, local) then {} else debt))
    ensures Reachable(With(LocalAfter(w, local), calls, debt))
  {
    var s := With(w, calls, if Incurs(w, local) then {} else debt);
    assert s.watchers[0 := LocalAfter(w, local)] == map[0 := LocalAfter(w, local)];
    StepReaches(s, At(0, local), With(LocalAfter(w, local), calls, debt));
  }

  lemma ChangeSeen()
    ensures Reachable(With(Schedule(NewWatcher(1)), multiset{}, {1}))
  {
    WatchBegins();
    WatcherSteps(NewWatcher(1), Schedules, multiset{}, {1});
  }

  lemma TimerFires()
    ensures Reachable(With(Forget(Expire(Schedule(NewWatcher(1)))), multiset{}, {1}))
  {
    ChangeSeen();
    var w := NewWatcher(1);
    WatcherSteps(Schedule(w), Expires, multiset{}, {1});
    WatcherSteps(Expire(Schedule(w)), FireLocks, multiset{}, {1});
  }

  lemma IdleHoldsNothing()
    ensures !Held(With(NewWatcher(1), multiset{}, {1}), 1)
  {
    var s := With(NewWatcher(1), multiset{}, {1});
    assert forall w | w in s.watchers :: !WillTrigger(s.watchers[w]);
  }

  lemma LocalReaches(s: State, w: nat, local: Local, s': State)
    requires Reachable(s) && Has(s, w) && CanLocal(s.watchers[w], local) && ApplyLocal(s, w, local) == s'
    ensures Reachable(s')
  {
    StepReaches(s, At(w, local), s');
  }

  lemma FullFire()
    ensures var w := Forget(Expire(Schedule(NewWatcher(1))));
            w.checking == 1 && w.lib == 1 && Passes(w) && Checked(w) == NewWatcher(1)
  {
  }

  lemma CheckReaches(w: Watcher, w': Watcher)
    requires w.lib == 1 && w.checking > 0 && Passes(w) && w' == Checked(w)
    requires Reachable(With(w, multiset{}, {1}))
    ensures Reachable(With(w', multiset{1}, {1}))
  {
    var s := With(w, multiset{}, {1});
    assert s.watchers[0 := w'] == map[0 := w'];
    assert multiset{} + multiset{1} == multiset{1};
    LocalReaches(s, 0, FireChecks, With(w', multiset{1}, {1}));
  }

  lemma TriggerCalled()
    ensures Reachable(With(NewWatcher(1), multiset{1}, {1}))
  {
    TimerFires();
    FullFire();
    CheckReaches(Forget(Expire(Schedule(NewWatcher(1)))), NewWatcher(1));
  }

  /** One failing database call in enqueue, and a change that schedule() saw is forgotten. */
  lemma FailedEnqueueForgets() returns (s: State)
    ensures Reachable(s) && Owed(s, 1) && !Held(s, 1)
  {
    TriggerCalled();
    IdleHoldsNothing();
    var called := With(NewWatcher(1), multiset{1}, {1});
    s := With(NewWatcher(1), multiset{}, {1});
    assert called.calls - multiset{1} == s.calls;
    StepReaches(called, Queue(EnqueueFails(1)), s);
  }

  // ---- so does the reuse of a removed library's id ----

  /** Library 1 is new, and the pass had listed none; its predecessor's watcher 0 is in this state. */
  ghost function Renewed(w: Watcher, registered: map<int, nat>, rec: Reconcile, debt: set<int>): State {
    State({1}, {1}, {1}, map[0 := w], registered, {}, rec, multiset{}, multiset{}, false, debt)
  }

  lemma IdReused()
    ensures Reachable(Renewed(NewWatcher(1), map[1 := 0], Listed({}, {}), {}))
  {
    WatchBegins();
    var s := With(NewWatcher(1), multiset{}, {});
    var gone := s.(configured := {});
    assert {1} - {1} == {};
    StepReaches(s, RemoveLibrary(1), gone);
    assert {} * {1} == {};
    StepReaches(gone, Rec(ListLibraries), gone.(rec := Listed({}, {})));
    assert {} + {1} == {1} && {1} + {1} == {1};
    StepReaches(gone.(rec := Listed({}, {})), AddLibrary(1), Renewed(NewWatcher(1), map[1 := 0], Listed({}, {}), {}));
  }

  lemma ChangeSeenLate()
    ensures Reachable(Renewed(Schedule(NewWatcher(1)), map[1 := 0], Listed({}, {}), {1}))
  {
    IdReused();
    var w := NewWatcher(1);
    var s := Renewed(w, map[1 := 0], Listed({}, {}), {});
    assert s.watchers[0 := Schedule(w)] == map[0 := Schedule(w)] && {} + {1} * {1} == {1};
    LocalReaches(s, 0, Schedules, Renewed(Schedule(w), map[1 := 0], Listed({}, {}), {1}));
  }

  lemma DroppedUnflagged()
    ensures Reachable(Renewed(Schedule(NewWatcher(1)), map[], Stopping({}, {}, {0}, {}), {1}))
  {
    ChangeSeenLate();
    var s := Renewed(Schedule(NewWatcher(1)), map[1 := 0], Listed({}, {}), {1});
    var s' := ApplyRec(s, DropWatchers({}));
    assert Dropped(s, {}) == {1};
    assert s'.rec.toStop == {0} && s'.registered == map[] && s'.catchup == {} && s'.debt == {1};
    StepReaches(s, Rec(DropWatchers({})), Renewed(Schedule(NewWatcher(1)), map[], Stopping({}, {}, {0}, {}), {1}));
  }

  lemma StoppedUnflagged()
    ensures Reachable(Renewed(Cancel(NewWatcher(1)), map[], Stopping({}, {}, {}, {}), {1}))
  {
    DroppedUnflagged();
    var w := NewWatcher(1);
    var s0 := Renewed(Schedule(w), map[], Stopping({}, {}, {0}, {}), {1});
    var s1 := Renewed(w, map[], Stopping({}, {}, {0}, {0}), {1});
    assert s0.watchers[0 := w] == s1.watchers && {} + {0} == {0};
    StepReaches(s0, Rec(StopsTimer(0)), s1);
    var s2 := Renewed(Cancel(w), map[], Stopping({}, {}, {}, {}), {1});
    assert s1.watchers[0 := Cancel(w)] == s2.watchers && {0} - {0} == {};
    StepReaches(s1, Rec(StopsContext(0)), s2);
  }

  /**
   Without any failure: a library is removed, the pass lists the others, a new
   one gets its id, the old watcher sees a change, and the pass stops it without
   a flag. The change is forgotten.
   */
  lemma ReusedIdForgets() returns (s: State)
    ensures Reachable(s) && Owed(s, 1) && !Held(s, 1)
  {
    StoppedUnflagged();
    s := Renewed(Cancel(NewWatcher(1)), map[], Stopping({}, {}, {}, {}), {1});
    assert forall w | w in s.watchers :: !WillTrigger(s.watchers[w]);
  }
}
