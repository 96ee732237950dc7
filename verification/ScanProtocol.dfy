/**
 Scans and single-file refreshes interleaved (internal/scan/scanner.go,
 internal/store/store.go). Every SQL statement, stat, probe and file write is
 one step; any database call may fail, any thread may stop, files may change at
 any moment, and libraries may be moved or removed. A path never shows the same
 (size, mtime) for two different contents.
 */
module ScanProtocol {
  import opened Wrappers
  import opened Catalogue
  import Paths

  /** A probe's result: that of one version of the file, or a mixture. */
  datatype Reading = Of(fp: Fingerprint) | Torn(n: nat)

  datatype Stage =
    | Idle
    | Started(path: string, info: Fingerprint)
    | Touching(path: string, id: int)
    | Probing(path: string, known: Option<int>, info: Fingerprint, torn: bool)
    | Upserting(path: string, known: Option<int>, info: Fingerprint, result: Reading)
    | Linking(path: string, id: int)  // ReplaceSidecars

  /** The walk, the loop, and how far a scan is past it: after GetLibrary, TouchFilesBulk, PruneFilesOutside, the guards. */
  datatype Phase = Walking | Visiting | Checked | Touched | Swept | Guarded | Ended

  /** `walked` and `found` are history: the walked videos, and the (id, incarnation) pairs lookups found. */
  datatype Thread = Thread(scan: bool, library: int, root: string, stamp: int, firstInc: nat,
                           walked: set<string>, todo: map<string, Fingerprint>, stage: Stage, phase: Phase,
                           pending: seq<int>, unreadable: bool, found: set<(int, nat)>)

  /** `past` and `writer` are history: every version a path had, and the call that last upserted a row's incarnation. */
  datatype State = State(media: Media<Reading>, libs: map<int, string>, disk: map<string, Fingerprint>,
                         past: set<(string, Fingerprint)>, threads: map<nat, Thread>, writer: map<nat, nat>)

  ghost predicate Init(s: State) {
    && s.media == Media(map[], 0) && s.threads == map[] && s.writer == map[]
    && forall p | p in s.disk :: (p, s.disk[p]) in s.past
  }

  datatype Action =
    | WalkFile(path: string, info: Fingerprint)
    | EndWalk(walkError: bool)
    | Visit(path: string)
    | Restat
    | LookupFails
    | LookupFinds(id: int, same: bool)  // same: nlink and sidecar summary are unchanged
    | LookupMisses
    | TouchRow(nlink: nat, summary: string)
    | TouchFails
    | ProbeFails
    | ProbeEnds(result: Reading)
    | UpsertFails
    | UpsertRow(id: int, nlink: nat, summary: string)
    | Link(ok: bool)
    | GetLibrary
    | TouchBulk
    | SweepOutside
    | PassGuards
    | PruneStale
    | Stop                              // an error, a guard, a cancelled context, or a crash

  datatype Step =
    | StartScan(t: nat, library: int, stamp: int)
    | StartRefresh(t: nat, library: int, path: string, info: Fingerprint, stamp: int)
    | Act(t: nat, action: Action)
    | WriteFile(path: string, fp: Fingerprint)
    | RemoveFile(path: string)
    | SetLibrary(library: int, root: string)    // AddLibrary, or UpdateLibrary with another path
    | RemoveLibrary(library: int)

  ghost predicate ScanAt(th: Thread, phase: Phase) {
    th.scan && th.phase == phase
  }

  ghost predicate CanAct(s: State, th: Thread, action: Action) {
    var stage := th.stage;
    match action
    case WalkFile(path, info) =>
      ScanAt(th, Walking) && (path, info) in s.past && !Paths.PrunedAsOutside(path, th.root)
    case EndWalk(walkError) => ScanAt(th, Walking)
    case Visit(path) => stage.Idle? && th.phase.Visiting? && path in th.todo
    case Restat => stage.Started? && stage.path in s.disk
    case LookupFails => stage.Started?
    case LookupFinds(id, same) => stage.Started? && HasPath(s.media.rows, id, stage.path)
    case LookupMisses => stage.Started? && Absent(s.media.rows, stage.path)
    case TouchRow(nlink, summary) => stage.Touching?
    case TouchFails => stage.Touching?
    case ProbeFails => stage.Probing?
    case ProbeEnds(result) => stage.Probing? && (!stage.torn ==> stage.path in s.disk && result == Of(s.disk[stage.path]))
    case UpsertFails => stage.Upserting?
    case UpsertRow(id, nlink, summary) => stage.Upserting? && UpsertId(s.media.rows, id, stage.path)
    case Link(ok) => stage.Linking?
    case GetLibrary =>
      && ScanAt(th, Visiting) && stage.Idle? && th.todo == map[]
      && th.library in s.libs && s.libs[th.library] == th.root
    case TouchBulk => ScanAt(th, Checked)
    case SweepOutside => ScanAt(th, Touched)
    case PassGuards => ScanAt(th, Swept) && !th.unreadable
    case PruneStale => ScanAt(th, Guarded)
    case Stop => true
  }

  ghost predicate Enabled(s: State, step: Step) {
    match step
    case StartScan(t, library, stamp) => t !in s.threads && library in s.libs
    case StartRefresh(t, library, path, info, stamp) =>
      t !in s.threads && library in s.libs && (path, info) in s.past
    case Act(t, action) => t in s.threads && !s.threads[t].phase.Ended? && CanAct(s, s.threads[t], action)
    case WriteFile(path, fp) => (path, fp) !in s.past
    case RemoveFile(path) => true
    case SetLibrary(library, root) => library in s.libs ==> s.libs[library] != root
    case RemoveLibrary(library) => library in s.libs
  }

  // ---- what an action does to the table ----

  ghost function NewRow(th: Thread, nlink: nat, summary: string): Row<Reading>
    requires th.stage.Upserting?
  {
    Row(0, th.library, th.stage.path, th.stage.info, nlink, summary, Some(th.stage.result), th.stamp)
  }

  ghost function TableAfter(s: State, th: Thread, action: Action): Media<Reading>
    requires CanAct(s, th, action)
  {
    match action
    case TouchRow(nlink, summary) => Touch(s.media, th.stage.id, nlink, summary, th.stamp)
    case UpsertRow(id, nlink, summary) => Upsert(s.media, id, NewRow(th, nlink, summary))
    case TouchBulk => TouchAll(s.media, th.pending, th.stamp)
    case SweepOutside => PruneOutside(s.media, th.library, th.root)
    case PruneStale => Prune(s.media, th.library, th.stamp)
    case _ => s.media
  }

  ghost function WriterAfter(s: State, t: nat, action: Action): map<nat, nat>
    requires t in s.threads && CanAct(s, s.threads[t], action)
  {
    if action.UpsertRow?
    then s.writer[TableAfter(s, s.threads[t], action).rows[action.id].inc := t]
    else s.writer
  }

  // ---- and to its thread ----

  /** scanOne returns with this id: the caller keeps it to stamp later. */
  ghost function Leave(th: Thread, id: Option<int>): Thread {
    th.(stage := Idle, pending := if id.Some? then th.pending + [id.value] else th.pending)
  }

  ghost function Finds(th: Thread, row: Row<Reading>, id: int, same: bool): Thread
    requires th.stage.Started?
  {
    var seen := th.(found := th.found + {(id, row.inc)});
    if row.probe.Some? && row.fp == th.stage.info then
      if same then Leave(seen, Some(id)) else seen.(stage := Touching(th.stage.path, id))
    else seen.(stage := Probing(th.stage.path, Some(id), th.stage.info, false))
  }

  ghost function ThreadAfter(s: State, th: Thread, action: Action): Thread
    requires CanAct(s, th, action)
  {
    match action
    case WalkFile(path, info) => th.(walked := th.walked + {path}, todo := th.todo[path := info])
    case EndWalk(walkError) => th.(phase := Visiting, unreadable := walkError, firstInc := s.media.nextInc)
    case Visit(path) => th.(stage := Started(path, th.todo[path]), todo := th.todo - {path})
    case Restat => th.(stage := Started(th.stage.path, s.disk[th.stage.path]))
    case LookupFails => th.(stage := Idle, unreadable := true)
    case LookupFinds(id, same) => Finds(th, s.media.rows[id], id, same)
    case LookupMisses => th.(stage := Probing(th.stage.path, None, th.stage.info, false))
    case TouchRow(nlink, summary) => th.(stage := Linking(th.stage.path, th.stage.id))
    case TouchFails => Leave(th, Some(th.stage.id))
    case ProbeFails => Leave(th, th.stage.known)
    case ProbeEnds(result) => th.(stage := Upserting(th.stage.path, th.stage.known, th.stage.info, result))
    case UpsertFails => Leave(th, th.stage.known)
    case UpsertRow(id, nlink, summary) => th.(stage := Linking(th.stage.path, id))
    case Link(ok) => Leave(th, if ok then None else Some(th.stage.id))
    case GetLibrary => th.(phase := Checked)
    case TouchBulk => th.(phase := Touched)
    case SweepOutside => th.(phase := Swept)
    case PassGuards => th.(phase := Guarded)
    case PruneStale => th.(phase := Ended)
    case Stop => th.(phase := Ended)
  }

  ghost function Disturb(th: Thread, path: string): Thread {
    if th.stage.Probing? && th.stage.path == path then th.(stage := th.stage.(torn := true)) else th
  }

  ghost function DisturbAll(threads: map<nat, Thread>, path: string): map<nat, Thread> {
    map t | t in threads :: Disturb(threads[t], path)
  }

  ghost function Scanning(s: State, library: int, stamp: int): Thread
    requires library in s.libs
  {
    Thread(true, library, s.libs[library], stamp, 0, {}, map[], Idle, Walking, [], false, {})
  }

  ghost function Refreshing(s: State, library: int, path: string, info: Fingerprint, stamp: int): Thread
    requires library in s.libs
  {
    Thread(false, library, s.libs[library], stamp, s.media.nextInc, {path}, map[], Started(path, info), Visiting, [], false, {})
  }

  ghost function Apply(s: State, step: Step): State
    requires Enabled(s, step)
  {
    match step
    case StartScan(t, library, stamp) => s.(threads := s.threads[t := Scanning(s, library, stamp)])
    case StartRefresh(t, library, path, info, stamp) =>
      s.(threads := s.threads[t := Refreshing(s, library, path, info, stamp)])
    case Act(t, action) =>
      var th := s.threads[t];
      s.(threads := s.threads[t := ThreadAfter(s, th, action)], media := TableAfter(s, th, action),
         writer := WriterAfter(s, t, action))
    case WriteFile(path, fp) =>
      s.(disk := s.disk[path := fp], past := s.past + {(path, fp)}, threads := DisturbAll(s.threads, path))
    case RemoveFile(path) => s.(disk := s.disk - {path}, threads := DisturbAll(s.threads, path))
    case SetLibrary(library, root) => s.(libs := s.libs[library := root], media := DropLibrary(s.media, library))
    case RemoveLibrary(library) => s.(libs := s.libs - {library}, media := DropLibrary(s.media, library))
  }

  ghost predicate Run(s: State, steps: seq<Step>, last: State)
    decreases |steps|
  {
    if steps == [] then last == s
    else Enabled(s, steps[0]) && Run(Apply(s, steps[0]), steps[1..], last)
  }

  // ---- the table ----

  ghost predicate TableOk(m: Media<Reading>) {
    UniquePaths(m.rows) && forall id | id in m.rows :: m.rows[id].inc < m.nextInc
  }

  lemma KeepTable(s: State, step: Step)
    requires TableOk(s.media) && Enabled(s, step)
    ensures TableOk(Apply(s, step).media)
  {
  }

  /** Every row of the new table was in the old one with the same path and no lower stamp, or is new. */
  ghost predicate Continues(m: Media<Reading>, m': Media<Reading>) {
    && m.nextInc <= m'.nextInc
    && forall id | id in m'.rows ::
         || m'.rows[id].inc >= m.nextInc
         || (id in m.rows && m'.rows[id].inc == m.rows[id].inc && m'.rows[id].path == m.rows[id].path
             && m'.rows[id].stamp >= m.rows[id].stamp)
  }

  lemma StepContinues(s: State, step: Step)
    requires Enabled(s, step)
    ensures Continues(s.media, Apply(s, step).media)
  {
  }

  lemma {:induction false} RunContinues(s: State, steps: seq<Step>, last: State)
    requires Run(s, steps, last)
    ensures Continues(s.media, last.media)
    decreases |steps|
  {
    if steps != [] {
      StepContinues(s, steps[0]);
      RunContinues(Apply(s, steps[0]), steps[1..], last);
    }
  }

  // ---- rows found by a lookup ----

  /** The call in progress will stamp row id if it succeeds, and queue it otherwise. */
  ghost predicate InHand(stage: Stage, id: int, path: string) {
    match stage
    case Touching(p, k) => k == id
    case Probing(p, known, info, torn) => known == Some(id) && p == path
    case Upserting(p, known, info, result) => known == Some(id) && p == path
    case _ => false
  }

  ghost predicate Queued(th: Thread, id: int) {
    (th.phase.Visiting? || th.phase.Checked?) && id in th.pending
  }

  ghost predicate Spared(m: Media<Reading>, th: Thread, id: int)
    requires id in m.rows
  {
    && m.rows[id].path in th.walked
    && (m.rows[id].stamp >= th.stamp || Queued(th, id) || InHand(th.stage, id, m.rows[id].path))
  }

  ghost predicate FoundSpared(m: Media<Reading>, th: Thread) {
    forall id, inc | (id, inc) in th.found ::
      inc < m.nextInc && (id in m.rows && m.rows[id].inc == inc ==> Spared(m, th, id))
  }

  ghost predicate StageWalked(th: Thread) {
    match th.stage
    case Idle => true
    case Started(path, info) => path in th.walked
    case Touching(path, id) => path in th.walked
    case Probing(path, known, info, torn) => path in th.walked
    case Upserting(path, known, info, result) => path in th.walked
    case Linking(path, id) => path in th.walked
  }

  ghost predicate WalkOk(m: Media<Reading>, th: Thread) {
    && th.todo.Keys <= th.walked && StageWalked(th) && th.firstInc <= m.nextInc
    && (th.scan ==> forall p | p in th.walked :: !Paths.PrunedAsOutside(p, th.root))
    && (th.phase.Walking? ==> th.scan && th.stage.Idle? && th.todo.Keys == th.walked && th.found == {} && th.firstInc == 0)
    && (!th.phase.Walking? && !th.phase.Visiting? && !th.phase.Ended? ==> th.scan && th.stage.Idle? && th.todo == map[])
    && (th.phase.Guarded? ==> !th.unreadable)
  }

  ghost predicate AtStart(stage: Stage, path: string) {
    stage.Started? && stage.path == path
  }

  /** A row that was there when the walk ended, of a walked path, is found or still to be looked up. */
  ghost predicate OldRowsFound(m: Media<Reading>, th: Thread) {
    forall id | id in m.rows && m.rows[id].path in th.walked && m.rows[id].inc < th.firstInc :: OldRowFound(m, th, id)
  }

  ghost predicate OldRowFound(m: Media<Reading>, th: Thread, id: int)
    requires id in m.rows
  {
    m.rows[id].path in th.todo || AtStart(th.stage, m.rows[id].path) || (id, m.rows[id].inc) in th.found || th.unreadable
  }

  ghost predicate ThreadOk(m: Media<Reading>, th: Thread) {
    !th.phase.Ended? ==> FoundSpared(m, th) && WalkOk(m, th) && OldRowsFound(m, th)
  }

  /** What other threads and the administrator do to the table cannot hurt a thread. */
  lemma ThreadUndisturbed(m: Media<Reading>, m': Media<Reading>, th: Thread, path: string)
    requires ThreadOk(m, th) && Continues(m, m')
    ensures ThreadOk(m', th) && ThreadOk(m', Disturb(th, path))
  {
  }

  lemma KeepFound(s: State, th: Thread, action: Action)
    requires TableOk(s.media) && CanAct(s, th, action) && FoundSpared(s.media, th) && WalkOk(s.media, th)
    requires !th.phase.Ended? && !ThreadAfter(s, th, action).phase.Ended?
    ensures FoundSpared(TableAfter(s, th, action), ThreadAfter(s, th, action))
  {
    var m', th' := TableAfter(s, th, action), ThreadAfter(s, th, action);
    forall id, inc | (id, inc) in th'.found
      ensures inc < m'.nextInc && (id in m'.rows && m'.rows[id].inc == inc ==> Spared(m', th', id))
    {
      KeepOneFound(s, th, action, id, inc);
    }
  }

  lemma KeepOneFound(s: State, th: Thread, action: Action, id: int, inc: nat)
    requires TableOk(s.media) && CanAct(s, th, action) && FoundSpared(s.media, th) && WalkOk(s.media, th)
    requires !th.phase.Ended? && !ThreadAfter(s, th, action).phase.Ended?
    requires (id, inc) in ThreadAfter(s, th, action).found
    ensures var m', th' := TableAfter(s, th, action), ThreadAfter(s, th, action);
            inc < m'.nextInc && (id in m'.rows && m'.rows[id].inc == inc ==> Spared(m', th', id))
  {
    match action
    case LookupFinds(k, same) => FoundAfterLookup(s, th, k, same, id, inc);
    case UpsertRow(k, nlink, summary) => FoundAfterUpsert(s, th, k, nlink, summary, id, inc);
    case TouchRow(nlink, summary) => assert (id, inc) in th.found;
    case TouchBulk => FoundAfterBulk(s, th, id, inc);
    case SweepOutside => assert (id, inc) in th.found;
    case _ => FoundWithSameTable(s, th, action, id, inc);
  }

  lemma FoundWithSameTable(s: State, th: Thread, action: Action, id: int, inc: nat)
    requires CanAct(s, th, action) && FoundSpared(s.media, th) && WalkOk(s.media, th)
    requires TableAfter(s, th, action) == s.media && !action.LookupFinds? && !action.TouchBulk?
             && !action.TouchRow? && !action.UpsertRow?
    requires !th.phase.Ended? && !ThreadAfter(s, th, action).phase.Ended? && (id, inc) in th.found
    ensures var th' := ThreadAfter(s, th, action);
            inc < s.media.nextInc && (id in s.media.rows && s.media.rows[id].inc == inc ==> Spared(s.media, th', id))
  {
  }

  lemma FoundAfterLookup(s: State, th: Thread, k: int, same: bool, id: int, inc: nat)
    requires TableOk(s.media) && CanAct(s, th, LookupFinds(k, same)) && FoundSpared(s.media, th) && WalkOk(s.media, th)
    requires !th.phase.Ended? && (id, inc) in ThreadAfter(s, th, LookupFinds(k, same)).found
    ensures var th' := ThreadAfter(s, th, LookupFinds(k, same));
            inc < s.media.nextInc && (id in s.media.rows && s.media.rows[id].inc == inc ==> Spared(s.media, th', id))
  {
    if id != k || inc != s.media.rows[k].inc {
      assert (id, inc) in th.found;
    }
  }

  lemma FoundAfterBulk(s: State, th: Thread, id: int, inc: nat)
    requires CanAct(s, th, TouchBulk) && FoundSpared(s.media, th) && WalkOk(s.media, th) && (id, inc) in th.found
    ensures var m', th' := TableAfter(s, th, TouchBulk), ThreadAfter(s, th, TouchBulk);
            inc < m'.nextInc && (id in m'.rows && m'.rows[id].inc == inc ==> Spared(m', th', id))
  {
  }

  /** The upsert stamps the row of its path; every other row, and the pending list, stay. */
  lemma FoundAfterUpsert(s: State, th: Thread, k: int, nlink: nat, summary: string, id: int, inc: nat)
    requires TableOk(s.media) && CanAct(s, th, UpsertRow(k, nlink, summary)) && FoundSpared(s.media, th)
    requires (id, inc) in th.found
    ensures var m', th' := TableAfter(s, th, UpsertRow(k, nlink, summary)), ThreadAfter(s, th, UpsertRow(k, nlink, summary));
            inc < m'.nextInc && (id in m'.rows && m'.rows[id].inc == inc ==> Spared(m', th', id))
  {
  }

  lemma KeepWalk(s: State, th: Thread, action: Action)
    requires CanAct(s, th, action) && WalkOk(s.media, th)
    requires !th.phase.Ended? && !ThreadAfter(s, th, action).phase.Ended?
    ensures WalkOk(TableAfter(s, th, action), ThreadAfter(s, th, action))
  {
    if Walks(action) {
      WalkGoesOn(s, th, action);
    } else {
      WalkIsOver(s, th, action);
    }
  }

  lemma WalkGoesOn(s: State, th: Thread, action: Action)
    requires Walks(action) && CanAct(s, th, action) && WalkOk(s.media, th)
    ensures WalkOk(s.media, ThreadAfter(s, th, action))
  {
  }

  lemma WalkIsOver(s: State, th: Thread, action: Action)
    requires !Walks(action) && CanAct(s, th, action) && WalkOk(s.media, th)
    requires !th.phase.Ended? && !ThreadAfter(s, th, action).phase.Ended?
    ensures WalkOk(TableAfter(s, th, action), ThreadAfter(s, th, action))
  {
  }

  predicate Walks(action: Action) {
    action.WalkFile? || action.EndWalk?
  }

  lemma KeepOldRows(s: State, th: Thread, action: Action)
    requires TableOk(s.media) && CanAct(s, th, action) && OldRowsFound(s.media, th) && WalkOk(s.media, th)
    ensures OldRowsFound(TableAfter(s, th, action), ThreadAfter(s, th, action))
  {
    var m', th' := TableAfter(s, th, action), ThreadAfter(s, th, action);
    if !Walks(action) {
      forall id | id in m'.rows && m'.rows[id].path in th'.walked && m'.rows[id].inc < th'.firstInc ensures OldRowFound(m', th', id) {
        KeepOldRow(s, th, action, id);
      }
    }
  }

  lemma KeepOldRow(s: State, th: Thread, action: Action, id: int)
    requires !Walks(action)
    requires TableOk(s.media) && CanAct(s, th, action) && OldRowsFound(s.media, th) && WalkOk(s.media, th)
    requires id in TableAfter(s, th, action).rows
    requires TableAfter(s, th, action).rows[id].path in th.walked && TableAfter(s, th, action).rows[id].inc < th.firstInc
    ensures OldRowFound(TableAfter(s, th, action), ThreadAfter(s, th, action), id)
  {
    var row := TableAfter(s, th, action).rows[id];
    OldRowWasThere(s, th, action, id);
    assert OldRowFound(s.media, th, id);
    FoundStays(s, th, action, id, row);
  }

  lemma OldRowWasThere(s: State, th: Thread, action: Action, id: int)
    requires CanAct(s, th, action) && th.firstInc <= s.media.nextInc
    requires id in TableAfter(s, th, action).rows && TableAfter(s, th, action).rows[id].inc < th.firstInc
    ensures id in s.media.rows && s.media.rows[id].inc == TableAfter(s, th, action).rows[id].inc
    ensures s.media.rows[id].path == TableAfter(s, th, action).rows[id].path
  {
  }

  lemma FoundStays(s: State, th: Thread, action: Action, id: int, row: Row<Reading>)
    requires !Walks(action)
    requires TableOk(s.media) && CanAct(s, th, action) && id in s.media.rows && OldRowFound(s.media, th, id)
    requires row.inc == s.media.rows[id].inc && row.path == s.media.rows[id].path
    ensures var th' := ThreadAfter(s, th, action);
            row.path in th'.todo || AtStart(th'.stage, row.path) || (id, row.inc) in th'.found || th'.unreadable
  {
  }

  // ---- the probe cache ----

  /** If the file still has the recorded size and mtime, the stored probe is that of its contents. */
  ghost predicate CacheTrue(disk: map<string, Fingerprint>, path: string, fp: Fingerprint, probe: Option<Reading>) {
    path in disk && disk[path] == fp && probe.Some? ==> probe == Some(Of(fp))
  }

  ghost predicate RowsTrue(s: State) {
    forall id | id in s.media.rows ::
      var row := s.media.rows[id];
      (row.path, row.fp) in s.past && CacheTrue(s.disk, row.path, row.fp, row.probe)
  }

  ghost predicate StageTrue(s: State, stage: Stage) {
    match stage
    case Started(path, info) => (path, info) in s.past
    case Probing(path, known, info, torn) =>
      (path, info) in s.past && (torn ==> !(path in s.disk && s.disk[path] == info))
    case Upserting(path, known, info, result) =>
      (path, info) in s.past && CacheTrue(s.disk, path, info, Some(result))
    case _ => true
  }

  ghost predicate ThreadTrue(s: State, th: Thread) {
    StageTrue(s, th.stage) && forall p | p in th.todo :: (p, th.todo[p]) in s.past
  }

  ghost predicate DiskPast(s: State) {
    forall p | p in s.disk :: (p, s.disk[p]) in s.past
  }

  lemma KeepRowsTrue(s: State, th: Thread, action: Action)
    requires CanAct(s, th, action) && RowsTrue(s) && ThreadTrue(s, th)
    ensures RowsTrue(s.(media := TableAfter(s, th, action)))
  {
  }

  lemma KeepThreadTrue(s: State, th: Thread, action: Action)
    requires CanAct(s, th, action) && ThreadTrue(s, th) && DiskPast(s)
    ensures ThreadTrue(s, ThreadAfter(s, th, action))
  {
  }

  /** A write gives the path a version it never had; a removal takes it away. */
  ghost predicate Rewrites(s: State, s': State, path: string) {
    && s'.media == s.media && s.past <= s'.past
    && (forall p | p != path :: (p in s.disk <==> p in s'.disk) && (p in s.disk ==> s'.disk[p] == s.disk[p]))
    && (path in s'.disk ==> (path, s'.disk[path]) !in s.past)
  }

  lemma RewriteKeepsRows(s: State, s': State, path: string)
    requires Rewrites(s, s', path) && RowsTrue(s)
    ensures RowsTrue(s')
  {
  }

  lemma RewriteKeepsThread(s: State, s': State, path: string, th: Thread)
    requires Rewrites(s, s', path) && ThreadTrue(s, th)
    ensures ThreadTrue(s', Disturb(th, path))
  {
  }

  // ---- the invariant of the whole machine ----

  ghost predicate Inv(s: State) {
    && TableOk(s.media) && DiskPast(s) && RowsTrue(s)
    && forall t | t in s.threads :: ThreadOk(s.media, s.threads[t]) && ThreadTrue(s, s.threads[t])
  }

  lemma KeepThreads(s: State, t: nat, action: Action)
    requires Inv(s) && Enabled(s, Act(t, action))
    ensures var s' := Apply(s, Act(t, action));
            forall u | u in s'.threads :: ThreadOk(s'.media, s'.threads[u]) && ThreadTrue(s', s'.threads[u])
  {
    var s' := Apply(s, Act(t, action));
    var th := s.threads[t];
    StepContinues(s, Act(t, action));
    forall u | u in s'.threads ensures ThreadOk(s'.media, s'.threads[u]) && ThreadTrue(s', s'.threads[u]) {
      if u == t {
        KeepThreadTrue(s, th, action);
        assert StageTrue(s', s'.threads[t].stage) == StageTrue(s, s'.threads[t].stage);
        if !s'.threads[t].phase.Ended? {
          KeepFound(s, th, action);
          KeepWalk(s, th, action);
          KeepOldRows(s, th, action);
        }
      } else {
        ThreadUndisturbed(s.media, s'.media, s.threads[u], "");
        assert StageTrue(s', s.threads[u].stage) == StageTrue(s, s.threads[u].stage);
      }
    }
  }

  lemma KeepInv(s: State, step: Step)
    requires Inv(s) && Enabled(s, step)
    ensures Inv(Apply(s, step))
  {
    var s' := Apply(s, step);
    KeepTable(s, step);
    StepContinues(s, step);
    match step
    case Act(t, action) =>
      KeepRowsTrue(s, s.threads[t], action);
      KeepThreads(s, t, action);
    case StartScan(t, library, stamp) =>
      NewScanOk(s, s'.threads[t]);
    case StartRefresh(t, library, path, info, stamp) =>
      NewThreadOk(s, s'.threads[t]);
    case WriteFile(path, fp) => KeepAfterRewrite(s, s', path);
    case RemoveFile(path) => KeepAfterRewrite(s, s', path);
    case SetLibrary(library, root) => KeepAfterDrop(s, s');
    case RemoveLibrary(library) => KeepAfterDrop(s, s');
  }

  lemma NewScanOk(s: State, th: Thread)
    requires th.scan && th.phase.Walking? && th.stage.Idle? && th.walked == {} && th.todo == map[]
    requires th.found == {} && th.firstInc == 0
    ensures ThreadOk(s.media, th) && ThreadTrue(s, th)
  {
  }

  lemma NewThreadOk(s: State, th: Thread)
    requires th.found == {} && th.phase.Visiting? && th.firstInc == s.media.nextInc && th.todo.Keys <= th.walked
    requires !th.scan && th.stage.Started? && th.walked == {th.stage.path} && (th.stage.path, th.stage.info) in s.past
    requires forall p | p in th.todo :: (p, th.todo[p]) in s.past
    ensures ThreadOk(s.media, th) && ThreadTrue(s, th)
  {
  }

  lemma KeepAfterRewrite(s: State, s': State, path: string)
    requires Inv(s) && Rewrites(s, s', path) && DiskPast(s') && s'.threads == DisturbAll(s.threads, path)
    ensures Inv(s')
  {
    RewriteKeepsRows(s, s', path);
    forall t | t in s'.threads ensures ThreadOk(s'.media, s'.threads[t]) && ThreadTrue(s', s'.threads[t]) {
      ThreadUndisturbed(s.media, s'.media, s.threads[t], path);
      RewriteKeepsThread(s, s', path, s.threads[t]);
    }
  }

  lemma KeepAfterDrop(s: State, s': State)
    requires Inv(s) && Continues(s.media, s'.media) && TableOk(s'.media)
    requires forall id | id in s'.media.rows :: id in s.media.rows && s'.media.rows[id] == s.media.rows[id]
    requires s'.threads == s.threads && s'.disk == s.disk && s'.past == s.past
    ensures Inv(s')
  {
    forall t | t in s'.threads ensures ThreadOk(s'.media, s'.threads[t]) && ThreadTrue(s', s'.threads[t]) {
      ThreadUndisturbed(s.media, s'.media, s.threads[t], "");
      assert StageTrue(s', s.threads[t].stage) == StageTrue(s, s.threads[t].stage);
    }
  }

  lemma {:induction false} RunInv(s: State, steps: seq<Step>, last: State)
    requires Inv(s) && Run(s, steps, last)
    ensures Inv(last)
    decreases |steps|
  {
    if steps != [] {
      KeepInv(s, steps[0]);
      RunInv(Apply(s, steps[0]), steps[1..], last);
    }
  }

  // ---- the main results, for every run of any number of scans and refreshes ----

  ghost predicate Reachable(s: State) {
    exists s0, steps :: Init(s0) && Run(s0, steps, s)
  }

  lemma ReachableInv(s: State)
    requires Reachable(s)
    ensures Inv(s)
  {
    var s0, steps :| Init(s0) && Run(s0, steps, s);
    RunInv(s0, steps, s);
  }

  /** A step deletes row id when the row is gone afterwards. */
  ghost predicate Deletes(s: State, step: Step, id: int)
    requires Enabled(s, step) && id in s.media.rows
  {
    id !in Apply(s, step).media.rows
  }

  /**
   A scan's prune never deletes a row its own lookup found, nor a row with a stamp
   of its own start or later, nor a row of a walked video that was there when its walk ended.
   */
  lemma PruneSparesFound(s: State, t: nat, id: int)
    requires Reachable(s) && Enabled(s, Act(t, PruneStale)) && id in s.media.rows
    requires Deletes(s, Act(t, PruneStale), id)
    ensures var th, row := s.threads[t], s.media.rows[id];
            && (id, row.inc) !in th.found
            && row.stamp < th.stamp && row.library == th.library
            && !(row.path in th.walked && row.inc < th.firstInc)
  {
    ReachableInv(s);
  }

  /** scanned_at never decreases: of one row, between any two moments of any run. */
  lemma StampsNeverFall(s: State, steps: seq<Step>, later: State, id: int)
    requires Reachable(s) && Run(s, steps, later)
    requires id in s.media.rows && id in later.media.rows && s.media.rows[id].inc == later.media.rows[id].inc
    ensures s.media.rows[id].stamp <= later.media.rows[id].stamp
    ensures s.media.rows[id].path == later.media.rows[id].path
  {
    ReachableInv(s);
    RunContinues(s, steps, later);
  }

  /**
   Whenever a row's size and mtime are the file's current ones, its stored probe
   is the probe of the current contents: skipping the probe loses nothing.
   */
  lemma CacheAgrees(s: State, id: int)
    requires Reachable(s) && id in s.media.rows && s.media.rows[id].probe.Some?
    requires s.media.rows[id].path in s.disk && s.disk[s.media.rows[id].path] == s.media.rows[id].fp
    ensures s.media.rows[id].probe == Some(Of(s.disk[s.media.rows[id].path]))
  {
    ReachableInv(s);
  }

  // ---- which rows a sweep deletes ----

  /** The call that last upserted the row. */
  ghost function WriterOf(s: State, id: int): Thread
    requires id in s.media.rows && s.media.rows[id].inc in s.writer && s.writer[s.media.rows[id].inc] in s.threads
  {
    s.threads[s.writer[s.media.rows[id].inc]]
  }

  ghost predicate Written(s: State, id: int)
    requires id in s.media.rows
  {
    var row := s.media.rows[id];
    && row.inc in s.writer && s.writer[row.inc] in s.threads
    && WriterOf(s, id).library == row.library && row.path in WriterOf(s, id).walked
  }

  ghost predicate UniqueIncs(m: Media<Reading>) {
    forall i, j | i in m.rows && j in m.rows && m.rows[i].inc == m.rows[j].inc :: i == j
  }

  /** A scan walks only its root. */
  ghost predicate Rooted(th: Thread) {
    th.scan ==> forall p | p in th.walked :: !Paths.PrunedAsOutside(p, th.root)
  }

  ghost predicate WritersOk(s: State) {
    && UniqueIncs(s.media)
    && (forall t | t in s.threads :: Rooted(s.threads[t]))
    && (forall id | id in s.media.rows :: Written(s, id))
  }

  ghost predicate SameCall(th: Thread, th': Thread) {
    th'.scan == th.scan && th'.library == th.library && th'.root == th.root && th.walked <= th'.walked
  }

  lemma ActIsOfSameCall(s: State, th: Thread, action: Action)
    requires CanAct(s, th, action)
    ensures SameCall(th, ThreadAfter(s, th, action))
  {
  }

  lemma CallsStay(s: State, step: Step)
    requires Enabled(s, step)
    ensures forall t | t in s.threads :: t in Apply(s, step).threads && SameCall(s.threads[t], Apply(s, step).threads[t])
  {
    if step.Act? {
      ActIsOfSameCall(s, s.threads[step.t], step.action);
    }
  }

  lemma KeepIncs(s: State, step: Step)
    requires Enabled(s, step) && TableOk(s.media) && UniqueIncs(s.media)
    ensures UniqueIncs(Apply(s, step).media)
  {
  }

  /** But for the one an upsert writes, every row was there before, of the same library and path. */
  lemma OtherRowsStay(s: State, step: Step, id: int)
    requires Enabled(s, step) && id in Apply(s, step).media.rows
    requires !(step.Act? && step.action.UpsertRow? && step.action.id == id)
    ensures id in s.media.rows
    ensures var row, row' := s.media.rows[id], Apply(s, step).media.rows[id];
            row'.inc == row.inc && row'.library == row.library && row'.path == row.path
  {
  }

  lemma KeepWritten(s: State, step: Step, id: int)
    requires Enabled(s, step) && TableOk(s.media) && WritersOk(s) && id in Apply(s, step).media.rows
    requires !(step.Act? && step.action.UpsertRow? && step.action.id == id)
    ensures Written(Apply(s, step), id)
  {
    OtherRowsStay(s, step, id);
    assert Written(s, id);
    CallsStay(s, step);
    KeepIncs(s, step);
  }

  lemma UpsertIsWritten(s: State, t: nat, action: Action)
    requires Enabled(s, Act(t, action)) && action.UpsertRow? && ThreadOk(s.media, s.threads[t])
    ensures Written(Apply(s, Act(t, action)), action.id)
  {
    ActIsOfSameCall(s, s.threads[t], action);
  }

  lemma KeepWriters(s: State, step: Step)
    requires Inv(s) && Enabled(s, step) && WritersOk(s)
    ensures WritersOk(Apply(s, step))
  {
    var s' := Apply(s, step);
    KeepIncs(s, step);
    CallsStay(s, step);
    KeepRooted(s, step);
    forall id | id in s'.media.rows ensures Written(s', id) {
      if step.Act? && step.action.UpsertRow? && step.action.id == id {
        UpsertIsWritten(s, step.t, step.action);
      } else {
        KeepWritten(s, step, id);
      }
    }
  }

  lemma KeepRooted(s: State, step: Step)
    requires Enabled(s, step) && forall t | t in s.threads :: Rooted(s.threads[t])
    ensures forall t | t in Apply(s, step).threads :: Rooted(Apply(s, step).threads[t])
  {
    if step.Act? {
      ActStaysRooted(s, s.threads[step.t], step.action);
    }
  }

  lemma ActStaysRooted(s: State, th: Thread, action: Action)
    requires CanAct(s, th, action) && Rooted(th)
    ensures Rooted(ThreadAfter(s, th, action))
  {
    ActIsOfSameCall(s, th, action);
    ActWalksInside(s, th, action);
  }

  lemma {:induction false} RunWriters(s: State, steps: seq<Step>, last: State)
    requires Inv(s) && WritersOk(s) && Run(s, steps, last)
    ensures WritersOk(last)
    decreases |steps|
  {
    if steps != [] {
      KeepInv(s, steps[0]);
      KeepWriters(s, steps[0]);
      RunWriters(Apply(s, steps[0]), steps[1..], last);
    }
  }

  lemma ReachableWriters(s: State)
    requires Reachable(s)
    ensures Inv(s) && WritersOk(s)
  {
    ReachableInv(s);
    var s0, steps :| Init(s0) && Run(s0, steps, s);
    RunWriters(s0, steps, s);
  }

  /** A refresh that was asked for a path outside its library's root. */
  ghost predicate Stray(th: Thread, path: string) {
    !th.scan && Paths.PrunedAsOutside(path, th.root)
  }

  /**
   A row lies inside its library's configured root, unless the call that wrote
   it began under another root, or on a path outside of it.
   */
  lemma RowsLieInside(s: State, id: int)
    requires Reachable(s) && id in s.media.rows && s.media.rows[id].library in s.libs
    ensures Written(s, id)
    ensures var root, writer, path := s.libs[s.media.rows[id].library], WriterOf(s, id), s.media.rows[id].path;
            writer.root == root ==> (Paths.PrunedAsOutside(path, root) <==> Stray(writer, path))
  {
    ReachableWriters(s);
    assert Written(s, id) && Rooted(WriterOf(s, id));
  }

  /**
   Exactly which rows a sweep deletes, whatever their stamps: of those written by
   a call that began under the scan's own root only strays, and of the library's
   others those outside that root. None of them was found by the scan.
   */
  lemma SweepDeletesExactly(s: State, t: nat, id: int)
    requires Reachable(s) && Enabled(s, Act(t, SweepOutside)) && id in s.media.rows
    ensures Written(s, id)
    ensures var th, writer, row := s.threads[t], WriterOf(s, id), s.media.rows[id];
            && (Deletes(s, Act(t, SweepOutside), id) <==>
                  && row.library == th.library
                  && if writer.root == th.root then Stray(writer, row.path) else Paths.PrunedAsOutside(row.path, th.root))
            && (Deletes(s, Act(t, SweepOutside), id) ==> (id, row.inc) !in th.found)
  {
    ReachableWriters(s);
    assert Written(s, id) && Rooted(WriterOf(s, id));
  }

  // ---- a library whose root never changes loses nothing to sweeps ----

  /** The step neither gives the library another root nor refreshes a path outside it. */
  ghost predicate KeepsRoot(step: Step, library: int, root: string) {
    && (step.SetLibrary? && step.library == library ==> step.root == root)
    && (step.StartRefresh? && step.library == library ==> !Paths.PrunedAsOutside(step.path, root))
  }

  ghost predicate OneRoot(s: State, library: int, root: string) {
    && (library in s.libs ==> s.libs[library] == root)
    && forall t | t in s.threads && s.threads[t].library == library :: OneRootCall(s.threads[t], root)
  }

  ghost predicate OneRootCall(th: Thread, root: string) {
    th.root == root && forall p | p in th.walked :: !Paths.PrunedAsOutside(p, root)
  }

  lemma KeepOneRoot(s: State, step: Step, library: int, root: string)
    requires Enabled(s, step) && OneRoot(s, library, root) && KeepsRoot(step, library, root)
    ensures OneRoot(Apply(s, step), library, root)
  {
    CallsStay(s, step);
    if step.Act? {
      ActWalksInside(s, s.threads[step.t], step.action);
    }
  }

  lemma ActWalksInside(s: State, th: Thread, action: Action)
    requires CanAct(s, th, action)
    ensures forall p | p in ThreadAfter(s, th, action).walked :: p in th.walked || !Paths.PrunedAsOutside(p, th.root)
  {
  }

  lemma {:induction false} RunOneRoot(s: State, steps: seq<Step>, last: State, library: int, root: string)
    requires Run(s, steps, last) && OneRoot(s, library, root)
    requires forall k | 0 <= k < |steps| :: KeepsRoot(steps[k], library, root)
    ensures OneRoot(last, library, root)
    decreases |steps|
  {
    if steps != [] {
      KeepOneRoot(s, steps[0], library, root);
      RunOneRoot(Apply(s, steps[0]), steps[1..], last, library, root);
    }
  }

  /** However scans, refreshes and writes interleave, no sweep of such a library deletes a row. */
  lemma SweepsDeleteNothing(s0: State, steps: seq<Step>, s: State, library: int, root: string, t: nat, id: int)
    requires Init(s0) && Run(s0, steps, s) && (library in s0.libs ==> s0.libs[library] == root)
    requires forall k | 0 <= k < |steps| :: KeepsRoot(steps[k], library, root)
    requires Enabled(s, Act(t, SweepOutside)) && s.threads[t].library == library && id in s.media.rows
    ensures !Deletes(s, Act(t, SweepOutside), id)
  {
    RunOneRoot(s0, steps, s, library, root);
    SweepDeletesExactly(s, t, id);
    var writer := WriterOf(s, id);
    if writer.library == library {
      ReachableWriters(s);
      assert Written(s, id) && OneRootCall(writer, root) && OneRootCall(s.threads[t], root);
    }
  }

  // ---- a sweep can take rows of a later scan ----

  lemma {:induction false} RunSnoc(s: State, steps: seq<Step>, mid: State, step: Step)
    requires Run(s, steps, mid) && Enabled(mid, step)
    ensures Run(s, steps + [step], Apply(mid, step))
    decreases |steps|
  {
    if steps == [] {
      assert Run(Apply(s, step), [], Apply(s, step));
    } else {
      RunSnoc(Apply(s, steps[0]), steps[1..], mid, step);
      assert (steps + [step])[1..] == steps[1..] + [step];
    }
  }

  lemma StepReaches(s: State, step: Step)
    requires Reachable(s) && Enabled(s, step)
    ensures Reachable(Apply(s, step))
  {
    var s0, steps :| Init(s0) && Run(s0, steps, s);
    RunSnoc(s0, steps, s, step);
  }

  lemma Goes(s: State, step: Step, s': State)
    requires Reachable(s) && Enabled(s, step) && Apply(s, step) == s'
    ensures Reachable(s')
  {
    StepReaches(s, step);
  }

  ghost function FirstScan(phase: Phase): Thread {
    Thread(true, 7, "/a", 10, 0, {}, map[], Idle, phase, [], false, {})
  }

  /** Scan 1 of library 7, which was at "/a", found no videos; "/b/x" is the only file there is. */
  ghost function EmptyCatalogue(f: Fingerprint, phase: Phase, root: string): State {
    State(Media(map[], 0), map[7 := root], map["/b/x" := f], {("/b/x", f)}, map[1 := FirstScan(phase)], map[])
  }

  lemma FirstScanRuns(f: Fingerprint)
    ensures Reachable(EmptyCatalogue(f, Touched, "/a"))
  {
    var s := EmptyCatalogue(f, Walking, "/a").(threads := map[]);
    assert Run(s, [], s);
    Goes(s, StartScan(1, 7, 10), EmptyCatalogue(f, Walking, "/a"));
    FirstScanActs(f, Walking, EndWalk(false), Visiting);
    FirstScanActs(f, Visiting, GetLibrary, Checked);
    FirstScanActs(f, Checked, TouchBulk, Touched);
  }

  lemma FirstScanActs(f: Fingerprint, from: Phase, action: Action, to: Phase)
    requires Reachable(EmptyCatalogue(f, from, "/a"))
    requires (from == Walking && action == EndWalk(false) && to == Visiting)
             || (from == Visiting && action == GetLibrary && to == Checked)
             || (from == Checked && action == TouchBulk && to == Touched)
    ensures Reachable(EmptyCatalogue(f, to, "/a"))
  {
    var s := EmptyCatalogue(f, from, "/a");
    assert TouchAll(s.media, [], 10).rows == map[];
    assert s.threads[1 := FirstScan(to)] == map[1 := FirstScan(to)];
    Goes(s, Act(1, action), EmptyCatalogue(f, to, "/a"));
  }

  lemma LibraryMoves(f: Fingerprint)
    ensures Reachable(EmptyCatalogue(f, Touched, "/b"))
  {
    FirstScanRuns(f);
    var s := EmptyCatalogue(f, Touched, "/a");
    assert DropLibrary(s.media, 7).rows == map[];
    assert s.libs[7 := "/b"] == map[7 := "/b"];
    Goes(s, SetLibrary(7, "/b"), EmptyCatalogue(f, Touched, "/b"));
  }

  ghost function SecondScan(todo: map<string, Fingerprint>, stage: Stage): Thread {
    Thread(true, 7, "/b", 20, 0, {"/b/x"}, todo, stage, Visiting, [], false, {})
  }

  ghost function SecondWalk(todo: map<string, Fingerprint>): Thread {
    Thread(true, 7, "/b", 20, 0, todo.Keys, todo, Idle, Walking, [], false, {})
  }

  ghost function BothScans(f: Fingerprint, second: Thread): State {
    var s := EmptyCatalogue(f, Touched, "/b");
    s.(threads := map[1 := FirstScan(Touched), 2 := second])
  }

  lemma SecondScanActs(f: Fingerprint, th: Thread, action: Action, th': Thread)
    requires Reachable(BothScans(f, th)) && CanAct(BothScans(f, th), th, action) && !th.phase.Ended?
    requires ThreadAfter(BothScans(f, th), th, action) == th'
             && TableAfter(BothScans(f, th), th, action) == Media(map[], 0)
    ensures Reachable(BothScans(f, th'))
  {
    var s := BothScans(f, th);
    assert s.threads[2 := th'] == map[1 := FirstScan(Touched), 2 := th'];
    Goes(s, Act(2, action), BothScans(f, th'));
  }

  lemma SecondScanWalks(f: Fingerprint)
    ensures Reachable(BothScans(f, SecondScan(map["/b/x" := f], Idle)))
  {
    LibraryMoves(f);
    var s := EmptyCatalogue(f, Touched, "/b");
    var none, todo: map<string, Fingerprint> := map[], map["/b/x" := f];
    assert none.Keys == {} && todo.Keys == {"/b/x"} && {} + {"/b/x"} == {"/b/x"} && none["/b/x" := f] == todo;
    assert s.threads[2 := SecondWalk(none)] == map[1 := FirstScan(Touched), 2 := SecondWalk(none)];
    Goes(s, StartScan(2, 7, 20), BothScans(f, SecondWalk(none)));
    BInside();
    SecondScanActs(f, SecondWalk(none), WalkFile("/b/x", f), SecondWalk(todo));
    SecondScanActs(f, SecondWalk(todo), EndWalk(false), SecondScan(todo, Idle));
  }

  lemma BInside()
    ensures !Paths.PrunedAsOutside("/b/x", "/b")
  {
    assert "/b/x"[..3] == "/b/";
  }

  lemma SecondScanProbes(f: Fingerprint)
    ensures Reachable(BothScans(f, SecondScan(map[], Upserting("/b/x", None, f, Of(f)))))
  {
    SecondScanWalks(f);
    var todo := map["/b/x" := f];
    assert todo - {"/b/x"} == map[];
    SecondScanActs(f, SecondScan(todo, Idle), Visit("/b/x"), SecondScan(map[], Started("/b/x", f)));
    SecondScanActs(f, SecondScan(map[], Started("/b/x", f)), LookupMisses, SecondScan(map[], Probing("/b/x", None, f, false)));
    SecondScanActs(f, SecondScan(map[], Probing("/b/x", None, f, false)), ProbeEnds(Of(f)),
                   SecondScan(map[], Upserting("/b/x", None, f, Of(f))));
  }

  /**
   A library moved between a scan's GetLibrary and its PruneFilesOutside: the old
   scan deletes a row that a later scan has just stamped.
   */
  lemma SweepTakesALaterRow(f: Fingerprint) returns (s: State)
    ensures Reachable(s) && Enabled(s, Act(1, SweepOutside)) && 1 in s.media.rows
    ensures s.media.rows[1].stamp > s.threads[1].stamp && Deletes(s, Act(1, SweepOutside), 1)
  {
    SecondScanProbes(f);
    var th := SecondScan(map[], Upserting("/b/x", None, f, Of(f)));
    s := BothScans(f, th);
    StepReaches(s, Act(2, UpsertRow(1, 1, "")));
    BElsewhere();
    s := Apply(s, Act(2, UpsertRow(1, 1, "")));
    assert s.media.rows[1].stamp == 20;
  }

  lemma BElsewhere()
    ensures Paths.PrunedAsOutside("/b/x", "/a")
  {
    assert "/b/x"[..3] == "/b/";
    assert "/b/"[1] == 'b' && "/a/"[1] == 'a';
  }

  // ---- nor need the sweeping scan be the one that was overtaken ----

  ghost function Refresh(stage: Stage): Thread {
    Thread(false, 7, "/a", 30, 0, {"/a/x"}, map[], stage, Visiting, [], false, {})
  }

  ghost function NewScan(phase: Phase): Thread {
    Thread(true, 7, "/b", 20, 0, {}, map[], Idle, phase, [], false, {})
  }

  /** "/a/x" is the only file; a refresh of it began while library 7 was at "/a". */
  ghost function Refreshed(f: Fingerprint, root: string, threads: map<nat, Thread>): State {
    State(Media(map[], 0), map[7 := root], map["/a/x" := f], {("/a/x", f)}, threads, map[])
  }

  lemma RefreshActs(f: Fingerprint, from: Stage, action: Action, to: Stage)
    requires Reachable(Refreshed(f, "/a", map[1 := Refresh(from)]))
    requires CanAct(Refreshed(f, "/a", map[1 := Refresh(from)]), Refresh(from), action) && !action.UpsertRow?
    requires ThreadAfter(Refreshed(f, "/a", map[1 := Refresh(from)]), Refresh(from), action) == Refresh(to)
             && TableAfter(Refreshed(f, "/a", map[1 := Refresh(from)]), Refresh(from), action) == Media(map[], 0)
    ensures Reachable(Refreshed(f, "/a", map[1 := Refresh(to)]))
  {
    var s := Refreshed(f, "/a", map[1 := Refresh(from)]);
    assert s.threads[1 := Refresh(to)] == map[1 := Refresh(to)];
    Goes(s, Act(1, action), Refreshed(f, "/a", map[1 := Refresh(to)]));
  }

  lemma RefreshBegins(f: Fingerprint)
    ensures Reachable(Refreshed(f, "/a", map[1 := Refresh(Started("/a/x", f))]))
  {
    var s := Refreshed(f, "/a", map[]);
    assert Run(s, [], s);
    Goes(s, StartRefresh(1, 7, "/a/x", f, 30), Refreshed(f, "/a", map[1 := Refresh(Started("/a/x", f))]));
  }

  lemma RefreshProbes(f: Fingerprint)
    ensures Reachable(Refreshed(f, "/a", map[1 := Refresh(Upserting("/a/x", None, f, Of(f)))]))
  {
    RefreshBegins(f);
    RefreshActs(f, Started("/a/x", f), LookupMisses, Probing("/a/x", None, f, false));
    RefreshActs(f, Probing("/a/x", None, f, false), ProbeEnds(Of(f)), Upserting("/a/x", None, f, Of(f)));
  }

  ghost function Both(f: Fingerprint, phase: Phase): State {
    Refreshed(f, "/b", map[1 := Refresh(Upserting("/a/x", None, f, Of(f))), 2 := NewScan(phase)])
  }

  lemma NewScanBegins(f: Fingerprint)
    ensures Reachable(Both(f, Walking))
  {
    RefreshProbes(f);
    var threads := map[1 := Refresh(Upserting("/a/x", None, f, Of(f)))];
    var s := Refreshed(f, "/a", threads);
    assert DropLibrary(s.media, 7).rows == map[];
    assert s.libs[7 := "/b"] == map[7 := "/b"];
    Goes(s, SetLibrary(7, "/b"), Refreshed(f, "/b", threads));
    assert threads[2 := NewScan(Walking)] == Both(f, Walking).threads;
    Goes(Refreshed(f, "/b", threads), StartScan(2, 7, 20), Both(f, Walking));
  }

  lemma NewScanActs(f: Fingerprint, from: Phase, action: Action, to: Phase)
    requires Reachable(Both(f, from))
    requires (from == Walking && action == EndWalk(false) && to == Visiting)
             || (from == Visiting && action == GetLibrary && to == Checked)
             || (from == Checked && action == TouchBulk && to == Touched)
    ensures Reachable(Both(f, to))
  {
    var s := Both(f, from);
    assert TouchAll(s.media, [], 20).rows == map[];
    assert s.threads[2 := NewScan(to)] == Both(f, to).threads;
    Goes(s, Act(2, action), Both(f, to));
  }

  /** The refresh has written its row. */
  ghost function Late(f: Fingerprint): State {
    Both(f, Touched).(
      media := Media(map[1 := Row(0, 7, "/a/x", f, 1, "", Some(Of(f)), 30)], 1), writer := map[0 := 1],
      threads := map[1 := Refresh(Linking("/a/x", 1)), 2 := NewScan(Touched)])
  }

  lemma NewScanTouches(f: Fingerprint)
    ensures Reachable(Both(f, Touched))
  {
    NewScanBegins(f);
    NewScanActs(f, Walking, EndWalk(false), Visiting);
    NewScanActs(f, Visiting, GetLibrary, Checked);
    NewScanActs(f, Checked, TouchBulk, Touched);
  }

  lemma LateTable(f: Fingerprint)
    ensures Upsert(Media(map[], 0), 1, Row(0, 7, "/a/x", f, 1, "", Some(Of(f)), 30)) == Late(f).media
  {
  }

  lemma RefreshWritesLate(f: Fingerprint)
    ensures Reachable(Late(f))
  {
    NewScanTouches(f);
    LateTable(f);
    var s, action := Both(f, Touched), UpsertRow(1, 1, "");
    assert TableAfter(s, s.threads[1], action) == Late(f).media;
    assert s.threads[1 := Refresh(Linking("/a/x", 1))] == Late(f).threads;
    Goes(s, Act(1, action), Late(f));
  }

  /**
   A refresh that began before its library moved writes its row late: a scan of
   the new root deletes that row, although its stamp is later than the scan's and
   the library has the scan's root all along.
   */
  lemma SweepTakesALateRefresh(f: Fingerprint) returns (s: State)
    ensures Reachable(s) && Enabled(s, Act(2, SweepOutside)) && 1 in s.media.rows && 7 in s.libs
    ensures s.libs[7] == s.threads[2].root && s.media.rows[1].stamp > s.threads[2].stamp
    ensures Deletes(s, Act(2, SweepOutside), 1)
  {
    RefreshWritesLate(f);
    s := Late(f);
    AElsewhere();
  }

  lemma AElsewhere()
    ensures Paths.PrunedAsOutside("/a/x", "/b")
  {
    assert "/a/x"[..3] == "/a/";
    assert "/b/"[1] == 'b' && "/a/"[1] == 'a';
  }

  // ---- a library's rows go with its path ----

  /** A library that is removed, or given another path, has no rows after that, and no other library loses one. */
  lemma ChangedLibraryIsEmpty(s: State, step: Step, library: int)
    requires Enabled(s, step)
    requires (step.SetLibrary? && step.library == library && library in s.libs) || step == RemoveLibrary(library)
    ensures forall id | id in Apply(s, step).media.rows :: Apply(s, step).media.rows[id].library != library
    ensures forall id | id in s.media.rows && s.media.rows[id].library != library ::
              id in Apply(s, step).media.rows && Apply(s, step).media.rows[id] == s.media.rows[id]
    ensures if step.SetLibrary? then Apply(s, step).libs == s.libs[library := step.root]
            else Apply(s, step).libs == s.libs - {library}
  {
  }
}
