/**
 The rewrite pipeline shared by RemoveTracks, ReorderTracks and MergeTracks
 (internal/engine/engine.go): stat, probe, write a temporary file, verify it,
 sync it, check that the original is still the one that was probed, rename.
 Other programs change the tree between any two calls.
 */
module Rewrite {
  import opened Wrappers
  import opened Streams
  import opened Removal
  import opened Disk

  /** What a probe of a file gives. */
  datatype Data = Unreadable | Media(report: Report)

  datatype Goal = Remove(spec: Spec) | Reorder | Merge

  predicate MergeCounts(before: seq<Stream>, after: seq<Stream>) {
    && |OfType(after, Video)| == |OfType(before, Video)|
    && |OfType(after, Audio)| >= |OfType(before, Audio)|
    && |OfType(after, Subtitle)| >= |OfType(before, Subtitle)|
  }

  predicate PassesMerge(before: Report, after: Report) {
    MergeCounts(before.streams, after.streams) && DurationsAgree(before.duration, after.duration)
  }

  /** verify, or verifyMerge, which does not look at the size. */
  predicate Verified(before: Report, out: Data, goal: Goal) {
    && out.Media?
    && match goal
       case Remove(spec) => Passes(before, out.report, spec)
       case Reorder => Passes(before, out.report, Spec([], []))
       case Merge => PassesMerge(before, out.report)
  }

  /** BytesSaved: a reorder or merge that grew the file reports none. */
  function Saved(goal: Goal, before: int, after: int): (saved: int)
    ensures saved == before - after || (saved == 0 && before < after && !goal.Remove?)
    ensures !goal.Remove? ==> saved >= 0
  {
    if goal.Remove? || before >= after then before - after else 0
  }

  datatype RewriteError =
    NotFound | Refused | NotProbed | NoTemp | NotClosed | ToolFailed | NotVerified | NotSynced | Changed | NotRenamed

  /** Why a temporary file is still there: tempPath could not close it, or it could not be removed. */
  datatype Leftover = NoneLeft | Unclosed | Unremoved

  // ---- the history of the path ----

  type History = seq<Snapshot<Data>>

  /** A complete output that passed verification against this input and is safely on disk. */
  ghost predicate GoodOutput(before: Report, goal: Goal, f: Option<File<Data>>) {
    f.Some? && f.value.synced && Verified(before, f.value.data, goal)
  }

  /** At state i the path holds a file with the inode, size and modification time of this one. */
  predicate Has(h: History, path: string, i: nat, f: File<Data>) {
    && i < |h| && path in h[i].files
    && h[i].files[path].ino == f.ino && h[i].files[path].fp.size == f.fp.size && h[i].files[path].fp.mtime == f.fp.mtime
  }

  /** A moment at which the whole output lay synced beside the version that had been examined. */
  ghost predicate Matched(h: History, path: string, tmp: string, orig: File<Data>, out: File<Data>, c: nat) {
    && c < |h| && At(h[c].files, tmp) == Some(out)
    && Has(h, path, c, orig)
  }

  /** The last step is our rename of a good output. */
  ghost predicate RenamedLast(h: History, path: string, tmp: string, before: Report, goal: Goal) {
    var last := |h| - 1;
    && 0 < last && !h[last].foreign
    && GoodOutput(before, goal, At(h[last].files, path))
    && At(h[last - 1].files, tmp) == At(h[last].files, path) && tmp !in h[last].files
  }

  /** Before that only others changed the path since step n. */
  ghost predicate Renamed(h: History, n: nat, path: string, tmp: string, before: Report, goal: Goal) {
    |h| > 0 && RenamedLast(h, path, tmp, before, goal) && OnlyOthers(h[..|h| - 1], n, path)
  }

  /** Other programs run; our temporary file is not theirs to touch. */
  method OthersRun(tree: Tree<Data>, tmp: string, path: string, ghost n: nat)
    requires tree.Valid() && OnlyOthers(tree.history, n, path)
    modifies tree`files, tree`history
    ensures tree.Valid() && old(tree.history) <= tree.history && OnlyOthers(tree.history, n, path)
    ensures At(tree.files, tmp) == At(old(tree.files), tmp)
  {
    ghost var h := tree.history;
    tree.Others({tmp});
    OthersStep(h, tree.history, n, path);
  }

  // ---- replaceOriginal ----

  /** Sync and close the temporary file, and copy the original's attributes to it. */
  method SyncOutput(tree: Tree<Data>, tmp: string, path: string, ghost n: nat) returns (ok: bool)
    requires tree.Valid() && tmp != path && tmp in tree.files && OnlyOthers(tree.history, n, path)
    modifies tree
    ensures tree.Valid() && old(tree.history) <= tree.history && OnlyOthers(tree.history, n, path)
    ensures ok ==> |old(tree.history)| < |tree.history|
    ensures At(tree.files, tmp) == Some(if ok then old(tree.files)[tmp].(synced := true) else old(tree.files)[tmp])
    ensures tree.failures == old(tree.failures) + if ok then 0 else 1
  {
    ghost var h := tree.history;
    ok := tree.Sync(tmp);
    OwnStep(h, tree.history, n, path);
    if ok {
      OthersRun(tree, tmp, path, n);
    }
  }

  lemma RenameIsLast(h: History, h': History, path: string, tmp: string, before: Report, goal: Goal)
    requires h != [] && tmp != path && GoodOutput(before, goal, At(h[|h| - 1].files, tmp))
    requires h' == h + [Snapshot((h[|h| - 1].files - {tmp})[path := h[|h| - 1].files[tmp]], false)]
    ensures RenamedLast(h', path, tmp, before, goal)
  {
    var from, to := h'[|h| - 1], h'[|h|];
    assert from == h[|h| - 1];
  }

  lemma RenameReplaces(h: History, h': History, n: nat, path: string, tmp: string, before: Report, goal: Goal)
    requires tmp != path && OnlyOthers(h, n, path) && GoodOutput(before, goal, At(h[|h| - 1].files, tmp))
    requires h' == h + [Snapshot((h[|h| - 1].files - {tmp})[path := h[|h| - 1].files[tmp]], false)]
    ensures Renamed(h', n, path, tmp, before, goal)
  {
    RenameIsLast(h, h', path, tmp, before, goal);
    assert h'[..|h|] == h;
  }

  /**
   `checked` is the moment of the identity check, unless the output could not be
   synced. If the path then is gone, or its inode, size or modification time is
   another than the examined file's, the answer is Changed and the path is kept.
   */
  method ReplaceOriginal(tree: Tree<Data>, tmp: string, path: string, orig: File<Data>, ghost n: nat,
                         ghost before: Report, ghost goal: Goal)
    returns (err: Option<RewriteError>, ghost checked: nat)
    requires tree.Valid() && tmp != path && OnlyOthers(tree.history, n, path)
    requires tmp in tree.files && Verified(before, tree.files[tmp].data, goal)
    modifies tree
    ensures tree.Valid() && old(tree.history) <= tree.history
    ensures err.Some? ==> OnlyOthers(tree.history, n, path) && err.value in {NotSynced, Changed, NotRenamed}
    ensures err.Some? ==> tmp in tree.files
    ensures err.None? ==> Renamed(tree.history, n, path, tmp, before, goal)
    ensures err.None? ==> At(tree.files, path) == Some(old(tree.files)[tmp].(synced := true))
    ensures err.None? ==>
              |old(tree.history)| <= checked < |tree.history| - 1
              && Matched(tree.history, path, tmp, orig, tree.files[path], checked)
    ensures err != Some(NotSynced) ==>
              && |old(tree.history)| <= checked < |tree.history|
              && (err != Some(Changed) ==>
                    && path in tree.history[checked].files
                    && var now := tree.history[checked].files[path];
                       now.ino == orig.ino && now.fp.size == orig.fp.size && now.fp.mtime == orig.fp.mtime)
    ensures tree.failures >= old(tree.failures)
    ensures err.Some? && tree.failures == old(tree.failures) ==>
              err == Some(Changed) && checked < |tree.history| && !Has(tree.history, path, checked, orig)
  {
    checked := 0;
    var synced := SyncOutput(tree, tmp, path, n);
    if !synced {
      return Some(NotSynced), checked;
    }
    checked := |tree.history| - 1;
    var cur := tree.Lstat(path);
    if cur.None? || !SameVersion(cur.value, orig) {
      return Some(Changed), checked;
    }
    OthersRun(tree, tmp, path, n);
    ghost var h := tree.history;
    var renamed := tree.Rename(tmp, path);
    if !renamed {
      return Some(NotRenamed), checked;
    }
    RenameReplaces(h, tree.history, n, path, tmp, before, goal);
    return None, checked;
  }

  // ---- the steps before the replacement ----

  method Probe(tree: Tree<Data>, path: string) returns (r: Option<Data>)
    modifies tree`failures
    ensures r.Some? ==> path in tree.files && r.value == tree.files[path].data && r.value.Media?
    ensures tree.failures >= old(tree.failures)
    ensures r.None? && tree.failures == old(tree.failures) ==> !(path in tree.files && tree.files[path].data.Media?)
  {
    var fails := tree.Fails();
    if fails || path !in tree.files || !tree.files[path].data.Media? {
      return None;
    }
    return Some(tree.files[path].data);
  }

  /** verify and verifyMerge: probe the output and compare. */
  method Verify(tree: Tree<Data>, before: ProbeResult, tmp: string, goal: Goal) returns (ok: bool)
    modifies tree`failures
    ensures ok ==> tmp in tree.files && Verified(before.View(), tree.files[tmp].data, goal)
    ensures tree.failures >= old(tree.failures)
    ensures !ok && tree.failures == old(tree.failures) ==>
              !(tmp in tree.files && Verified(before.View(), tree.files[tmp].data, goal))
  {
    var probed := Probe(tree, tmp);
    if probed.None? {
      return false;
    }
    var after := new ProbeResult(probed.value.report);
    match goal
    case Remove(spec) =>
      var err := Removal.Verify(before, after, spec);
      ok := err.None?;
    case Reorder =>
      var err := Removal.Verify(before, after, Spec([], []));
      ok := err.None?;
    case Merge =>
      ok := VerifyMerge(before, after);
  }

  method VerifyMerge(before: ProbeResult, after: ProbeResult) returns (ok: bool)
    ensures ok <==> PassesMerge(before.View(), after.View())
  {
    var inVideo := before.StreamsOfType(Video);
    var outVideo := after.StreamsOfType(Video);
    if |outVideo| != |inVideo| {
      return false;
    }
    var inAudio := before.StreamsOfType(Audio);
    var outAudio := after.StreamsOfType(Audio);
    if |outAudio| < |inAudio| {
      return false;
    }
    var inSubs := before.StreamsOfType(Subtitle);
    var outSubs := after.StreamsOfType(Subtitle);
    if |outSubs| < |inSubs| {
      return false;
    }
    ok := CheckDuration(before, after);
  }

  /** tempPath: an empty file of a new name, and an error if closing it fails. The file is then there all the same. */
  method TempPath(tree: Tree<Data>, path: string, tmp: string, ghost n: nat)
    returns (err: Option<RewriteError>)
    requires tree.Valid() && tmp != path && OnlyOthers(tree.history, n, path)
    modifies tree
    ensures tree.Valid() && old(tree.history) <= tree.history && OnlyOthers(tree.history, n, path)
    ensures err.None? || err.value in {NoTemp, NotClosed}
    ensures if err == Some(NoTemp) then At(tree.files, tmp) == old(At(tree.files, tmp))
            else tmp in tree.files && tmp !in old(tree.files)
    ensures tree.failures >= old(tree.failures)
    ensures err.Some? && tree.failures == old(tree.failures) ==> err == Some(NoTemp) && tmp in old(tree.files)
  {
    ghost var h := tree.history;
    var empty: File<Data> := *;
    var made := tree.CreateTemp(tmp, empty);
    OwnStep(h, tree.history, n, path);
    if !made {
      return Some(NoTemp);
    }
    var unclosed := tree.Fails();
    return if unclosed then Some(NotClosed) else None;
  }

  /** The temporary file is made, filled by the tool and verified; `judged` is when. */
  method MakeOutput(tree: Tree<Data>, before: ProbeResult, path: string, tmp: string, goal: Goal, ghost n: nat)
    returns (err: Option<RewriteError>, ghost judged: nat)
    requires tree.Valid() && tmp != path && OnlyOthers(tree.history, n, path)
    modifies tree
    ensures tree.Valid() && old(tree.history) <= tree.history && OnlyOthers(tree.history, n, path)
    ensures err.Some? ==> err.value in {NoTemp, NotClosed, ToolFailed, NotVerified}
    ensures if err == Some(NoTemp) then At(tree.files, tmp) == old(At(tree.files, tmp))
            else tmp in tree.files && tmp !in old(tree.files)
    ensures err.None? ==> Verified(before.View(), tree.files[tmp].data, goal)
    ensures before.View() == old(before.View())
    ensures tree.failures >= old(tree.failures)
    ensures err.Some? && tree.failures == old(tree.failures) ==>
              || (err == Some(NoTemp) && tmp in old(tree.files))
              || (err == Some(NotVerified) && Rejected(tree.history, judged, tmp, before.View(), goal))
  {
    judged := 0;
    err := TempPath(tree, path, tmp, n);
    if err.Some? {
      return err, judged;
    }
    OthersRun(tree, tmp, path, n);
    ghost var h := tree.history;
    var out: File<Data> := *;
    var ran := tree.Output(tmp, out);
    OwnStep(h, tree.history, n, path);
    if !ran {
      return Some(ToolFailed), judged;
    }
    OthersRun(tree, tmp, path, n);
    judged := |tree.history| - 1;
    var ok := Verify(tree, before, tmp, goal);
    return if ok then None else Some(NotVerified), judged;
  }

  /** The output, as it was at this moment, does not pass. */
  ghost predicate Rejected(h: History, judged: nat, tmp: string, before: Report, goal: Goal) {
    judged < |h| && !(tmp in h[judged].files && Verified(before, h[judged].files[tmp].data, goal))
  }

  /** statReplaceable, the probe and the checks before a temporary file is made. The probe is of the file as it is at the end. */
  method Examine(tree: Tree<Data>, path: string, tmp: string, refused: bool, ghost n: nat)
    returns (r: Result<(File<Data>, Report), RewriteError>)
    requires tree.Valid() && OnlyOthers(tree.history, n, path)
    modifies tree
    ensures tree.Valid() && old(tree.history) <= tree.history && OnlyOthers(tree.history, n, path)
    ensures At(tree.files, tmp) == old(At(tree.files, tmp))
    ensures r.Success? ==> Some(r.value.0) == old(At(tree.files, path))
    ensures r.Success? ==> Holds(At(tree.files, path), r.value.1)
    ensures r.Failure? ==> r.error in {NotFound, Refused, NotProbed}
    ensures tree.failures >= old(tree.failures)
    ensures r.Failure? && tree.failures == old(tree.failures) ==>
              && (r.error == NotFound ==> path !in old(tree.files))
              && (r.error == Refused ==> refused)
              && (r.error == NotProbed ==> !(path in tree.files && tree.files[path].data.Media?))
    ensures refused ==> r.Failure?
  {
    var info := tree.Lstat(path);
    if info.None? {
      return Failure(NotFound);
    }
    if refused {
      return Failure(Refused);
    }
    OthersRun(tree, tmp, path, n);
    var probed := Probe(tree, path);
    if probed.None? {
      return Failure(NotProbed);
    }
    return Success((info.value, probed.value.report));
  }

  predicate Holds(f: Option<File<Data>>, report: Report) {
    f.Some? && f.value.data == Media(report)
  }

  /** The deferred os.Remove of the temporary file, whose error nobody sees. */
  method Discard(tree: Tree<Data>, path: string, tmp: string, ghost n: nat) returns (leftover: bool)
    requires tree.Valid() && tmp != path && OnlyOthers(tree.history, n, path)
    modifies tree
    ensures tree.Valid() && old(tree.history) <= tree.history && OnlyOthers(tree.history, n, path)
    ensures leftover <==> tmp in tree.files
    ensures tree.failures == old(tree.failures) + if leftover then 1 else 0
  {
    ghost var h := tree.history;
    var removed := tree.Remove(tmp);
    OwnStep(h, tree.history, n, path);
    return !removed && tmp in tree.files;
  }

  /** The size of the output is taken just before the replacement. */
  method MeasureAndReplace(tree: Tree<Data>, tmp: string, path: string, orig: File<Data>, ghost n: nat,
                           ghost before: Report, goal: Goal)
    returns (r: Result<int, RewriteError>, ghost checked: nat)
    requires tree.Valid() && tmp != path && OnlyOthers(tree.history, n, path)
    requires tmp in tree.files && Verified(before, tree.files[tmp].data, goal)
    modifies tree
    ensures tree.Valid() && old(tree.history) <= tree.history && tree.failures >= old(tree.failures)
    ensures r.Failure? ==> OnlyOthers(tree.history, n, path) && r.error in {NotSynced, Changed, NotRenamed}
    ensures r.Failure? ==> tmp in tree.files
    ensures r.Success? ==> Renamed(tree.history, n, path, tmp, before, goal)
    ensures r.Success? ==>
              |old(tree.history)| <= checked < |tree.history| - 1
              && Matched(tree.history, path, tmp, orig, tree.files[path], checked)
    ensures r.Success? ==> r.value == Saved(goal, orig.fp.size, tree.files[path].fp.size)
    ensures r.Failure? && tree.failures == old(tree.failures) ==>
              r.error == Changed && checked < |tree.history| && !Has(tree.history, path, checked, orig)
  {
    OthersRun(tree, tmp, path, n);
    var size := tree.files[tmp].fp.size;
    var err: Option<RewriteError>;
    err, checked := ReplaceOriginal(tree, tmp, path, orig, n, before, goal);
    r := if err.None? then Success(Saved(goal, orig.fp.size, size)) else Failure(err.value);
  }

  /** From the temporary file to its removal, which is deferred only once tempPath has succeeded. */
  method Produce(tree: Tree<Data>, before: ProbeResult, path: string, tmp: string, orig: File<Data>, goal: Goal,
                 ghost n: nat)
    returns (r: Result<int, RewriteError>, leftover: Leftover, ghost checked: nat)
    requires tree.Valid() && tmp != path && OnlyOthers(tree.history, n, path)
    modifies tree
    ensures tree.Valid() && old(tree.history) <= tree.history
    ensures r.Failure? ==> OnlyOthers(tree.history, n, path)
    ensures r.Failure? ==> Cleaned(old(tree.files), tree.files, tmp, r.error, leftover)
    ensures r.Success? ==> leftover.NoneLeft? && Renamed(tree.history, n, path, tmp, before.View(), goal)
    ensures r.Success? ==>
              |old(tree.history)| <= checked < |tree.history| - 1
              && Matched(tree.history, path, tmp, orig, tree.files[path], checked)
    ensures r.Success? ==> r.value == Saved(goal, orig.fp.size, tree.files[path].fp.size)
    ensures before.View() == old(before.View())
    ensures tree.failures >= old(tree.failures)
    ensures r.Failure? && tree.failures == old(tree.failures) ==>
              || (r.error == NoTemp && tmp in old(tree.files))
              || (r.error == NotVerified && Rejected(tree.history, checked, tmp, before.View(), goal))
              || (r.error == Changed && checked < |tree.history| && !Has(tree.history, path, checked, orig))
    ensures leftover.Unremoved? ==> tree.failures > old(tree.failures)
    ensures r.Failure? ==> r.error in {NoTemp, NotClosed, ToolFailed, NotVerified, NotSynced, Changed, NotRenamed}
  {
    var err: Option<RewriteError>;
    err, checked := MakeOutput(tree, before, path, tmp, goal, n);
    if err == Some(NoTemp) {
      return Failure(NoTemp), NoneLeft, checked;
    }
    if err == Some(NotClosed) {
      return Failure(NotClosed), Unclosed, checked;
    }
    if err.None? {
      r, checked := MeasureAndReplace(tree, tmp, path, orig, n, before.View(), goal);
      if r.Success? {
        return r, NoneLeft, checked;
      }
      err := Some(r.error);
    }
    var remains := Discard(tree, path, tmp, n);
    return Failure(err.value), if remains then Unremoved else NoneLeft, checked;
  }

  /** After a failure the temporary name is as it was, unless closing or removing the new file failed. */
  predicate Cleaned(before: map<string, File<Data>>, now: map<string, File<Data>>, tmp: string, error: RewriteError,
                    leftover: Leftover) {
    && (leftover.Unclosed? <==> error == NotClosed)
    && (if leftover.NoneLeft? then At(now, tmp) == At(before, tmp) else tmp !in before && tmp in now)
  }

  /**
   One rewrite, from stat to the deferred removal of the temporary file. A
   failure means that no step of ours ever changed the path, and that the
   temporary file is gone unless closing or removing it failed. When no call
   fails, `Blamed` says what a failure is due to; `refused` stands for a symlink,
   hardlinks, an invalid request, too little space or a missing tool. Success
   means `Replaced`: what that implies is proved below.
   */
  method Rewrite(tree: Tree<Data>, path: string, tmp: string, goal: Goal, refused: bool)
    returns (r: Result<int, RewriteError>, leftover: Leftover, ghost before: Report, ghost probed: nat, ghost checked: nat)
    requires tree.Valid() && tmp != path
    modifies tree
    ensures tree.Valid() && old(tree.history) <= tree.history
    ensures r.Failure? ==> OnlyOthers(tree.history, |old(tree.history)|, path)
    ensures r.Failure? ==> Cleaned(old(tree.files), tree.files, tmp, r.error, leftover)
    ensures r.Success? ==> leftover.NoneLeft?
    ensures r.Success? ==> Replaced(tree.history, |old(tree.history)|, path, tmp, goal, before, probed, checked)
    ensures r.Success? ==>
              path in old(tree.files) && r.value == Saved(goal, old(tree.files)[path].fp.size, tree.files[path].fp.size)
    ensures refused ==> r.Failure?
    ensures r.Failure? && tree.failures == old(tree.failures) ==>
              Blamed(tree.history, |old(tree.history)|, path, tmp, goal, refused, r.error, before, probed, checked)
    ensures leftover.Unremoved? ==> tree.failures > old(tree.failures)
  {
    ghost var n := |tree.history|;
    before, probed, checked, leftover := Report([], 0.0, 0), 0, 0, NoneLeft;
    var examined := Examine(tree, path, tmp, refused, n);
    if examined.Failure? {
      probed := |tree.history| - 1;
      return Failure(examined.error), leftover, before, probed, checked;
    }
    before, probed := examined.value.1, |tree.history| - 1;
    var probe := new ProbeResult(examined.value.1);
    r, leftover, checked := Produce(tree, probe, path, tmp, examined.value.0, goal, n);
  }

  /** What an error is due to when no call failed. */
  ghost predicate Blamed(h: History, n: nat, path: string, tmp: string, goal: Goal, refused: bool, error: RewriteError,
                         before: Report, probed: nat, checked: nat) {
    && 0 < n <= |h| && probed < |h|
    && match error
       case NotFound => path !in h[n - 1].files
       case Refused => refused
       case NotProbed => !(path in h[probed].files && h[probed].files[path].data.Media?)
       case NoTemp => tmp in h[n - 1].files
       case NotVerified => Holds(At(h[probed].files, path), before) && Rejected(h, checked, tmp, before, goal)
       case Changed =>
         && path in h[n - 1].files && checked < |h|
         && !(path in h[checked].files && h[checked].files[path].ino == h[n - 1].files[path].ino
              && h[checked].files[path].fp.size == h[n - 1].files[path].fp.size
              && h[checked].files[path].fp.mtime == h[n - 1].files[path].fp.mtime)
       case _ => false
  }

  // ---- what a completed rewrite means ----

  /**
   A rewrite that began after n states: the input was probed at `probed`, the
   identity check was made at `checked`, and the last step is the rename.
   */
  ghost predicate Replaced(h: History, n: nat, path: string, tmp: string, goal: Goal,
                           before: Report, probed: nat, checked: nat) {
    var last := |h| - 1;
    && 0 < n && n - 1 <= probed < checked < last && path in h[n - 1].files && path in h[last].files
    && Renamed(h, n, path, tmp, before, goal)
    && Holds(At(h[probed].files, path), before)
    && Matched(h, path, tmp, h[n - 1].files[path], h[last].files[path], checked)
  }

  lemma PrefixPut(h: History, m: nat, n: nat, path: string, i: nat)
    requires m <= |h| && PutSince(h[..m], n, path, i)
    ensures PutSince(h, n, path, i)
  {
    var j: nat :| n <= j && PutBy(h[..m], path, j, i);
    assert PutBy(h, path, j, i);
  }

  lemma OnlyOthersLater(h: History, n: nat, m: nat, path: string)
    requires OnlyOthers(h, n, path) && n <= m <= |h|
    ensures OnlyOthers(h, m, path)
  {
  }

  /**
   Crash safety of a completed rewrite: at every state of it the path holds what
   it held before, or what another program put there since, or, in the last
   state alone, a whole output that passed verification.
   */
  lemma CrashSafe(h: History, n: nat, path: string, tmp: string, goal: Goal, before: Report,
                  probed: nat, checked: nat, i: nat)
    requires Replaced(h, n, path, tmp, goal, before, probed, checked) && n - 1 <= i < |h|
    ensures || At(h[i].files, path) == At(h[n - 1].files, path)
            || PutSince(h, n, path, i)
            || (i == |h| - 1 && GoodOutput(before, goal, At(h[i].files, path)))
  {
    if i < |h| - 1 {
      HeldOrPut(h[..|h| - 1], n, path, i);
      if PutSince(h[..|h| - 1], n, path, i) {
        PrefixPut(h, |h| - 1, n, path, i);
      }
    }
  }

  /**
   What a completed rewrite has put at the path, in the terms of the two probes: a
   removal has left, of each media type, as many streams as it was to leave; a
   reorder as many as there were; a merge no fewer, and as many video streams.
   The duration has drifted by no more than two seconds or one percent, and never
   by more than a minute; the size, but after a merge, is at least a tenth.
   */
  lemma CompletedRewrite(h: History, n: nat, path: string, tmp: string, goal: Goal, before: Report,
                         probed: nat, checked: nat, allowLastAudio: bool)
    requires Replaced(h, n, path, tmp, goal, before, probed, checked)
    requires goal.Remove? ==> DistinctIndexes(before.streams) && Increasing(goal.spec.audio) && Increasing(goal.spec.subs)
                              && ValidSpec(before.streams, goal.spec, allowLastAudio)
    ensures h[|h| - 1].files[path].data.Media?
    ensures var after := h[|h| - 1].files[path].data.report;
            && (goal.Remove? ==> forall kind: Kind | kind.Media() ::
                  |OfType(after.streams, kind)| == |OfType(Kept(before.streams, goal.spec.audio + goal.spec.subs), kind)|)
            && (goal.Reorder? ==> forall kind: Kind | kind.Media() ::
                  |OfType(after.streams, kind)| == |OfType(before.streams, kind)|)
            && (goal.Merge? ==>
                  && |OfType(after.streams, Video)| == |OfType(before.streams, Video)|
                  && |OfType(after.streams, Audio)| >= |OfType(before.streams, Audio)|
                  && |OfType(after.streams, Subtitle)| >= |OfType(before.streams, Subtitle)|)
            && (before.duration > 0.0 && after.duration > 0.0 ==>
                  && before.duration - after.duration <= 60.0 && after.duration - before.duration <= 60.0
                  && (before.duration - after.duration <= 2.0 || before.duration - after.duration <= before.duration * 0.01)
                  && (after.duration - before.duration <= 2.0 || after.duration - before.duration <= before.duration * 0.01))
            && (!goal.Merge? && before.size >= 0 ==> 10 * after.size > before.size - 10)
            && (goal.Reorder? ==> after.size as real > before.size as real * 0.7 - 1.0)
            && (goal.Remove? && RatesKnown(before.streams, before.duration, goal.spec.audio + goal.spec.subs) ==>
                  after.size as real
                  > (before.size - Estimate(before.streams, before.duration, goal.spec.audio + goal.spec.subs)) as real * 0.7 - 1.0)
  {
    var after := h[|h| - 1].files[path].data.report;
    match goal
    case Remove(spec) =>
      AcceptedIsPlausible(before, after, spec);
      forall kind: Kind | kind.Media()
        ensures |OfType(after.streams, kind)| == |OfType(Kept(before.streams, spec.audio + spec.subs), kind)|
      {
        AcceptedKeepsTheRest(before, after, spec, allowLastAudio, kind);
      }
    case Reorder =>
      var spec := Spec([], []);
      assert spec.audio + spec.subs == [];
      NothingEstimated(before.streams, before.duration);
      AcceptedIsPlausible(before, after, spec);
    case Merge =>
      if before.duration > 0.0 && after.duration > 0.0 {
        DriftIsBounded(before.duration, after.duration);
      }
  }

  /** Inode, size and modification time tell the contents apart, and none comes back. */
  ghost predicate VersionsTell(h: History, path: string) {
    forall i: nat, j: nat, k: nat | i <= j <= k < |h| && path in h[i].files && path in h[k].files
      && h[k].files[path].ino == h[i].files[path].ino && h[k].files[path].fp.size == h[i].files[path].fp.size
      && h[k].files[path].fp.mtime == h[i].files[path].fp.mtime ::
      path in h[j].files && h[j].files[path].data == h[i].files[path].data
  }

  /**
   The identity check at work: if inode, size and modification time tell the
   versions of the path apart, and none comes back, the input the output was verified against is
   the very file that was there when the rewrite began.
   */
  lemma VerifiedAgainstTheOriginal(h: History, n: nat, path: string, tmp: string, goal: Goal, before: Report,
                                   probed: nat, checked: nat)
    requires Replaced(h, n, path, tmp, goal, before, probed, checked) && VersionsTell(h, path)
    ensures var orig, out := h[n - 1].files[path], h[|h| - 1].files[path];
            && orig.data == Media(before)
            && out.synced && Verified(orig.data.report, out.data, goal)
            && path in h[checked].files && h[checked].files[path].data == orig.data
  {
    assert Has(h, path, checked, h[n - 1].files[path]);
    assert path in h[probed].files && h[probed].files[path].data == h[n - 1].files[path].data;
  }

  /**
   What the rename overwrites is the version that was examined, unless another
   program put a different one there after the identity check: a replacement
   before the check is never lost.
   */
  lemma OverwritesOnlyLateWrites(h: History, n: nat, path: string, tmp: string, goal: Goal, before: Report,
                                 probed: nat, checked: nat)
    requires Replaced(h, n, path, tmp, goal, before, probed, checked)
    ensures var end, orig := |h| - 2, h[n - 1].files[path];
            && (!(path in h[end].files && h[end].files[path].ino == orig.ino
                  && h[end].files[path].fp.size == orig.fp.size && h[end].files[path].fp.mtime == orig.fp.mtime)
                <==> exists j: nat :: checked < j && LateWrite(h, path, orig, j))
            && path in h[checked].files && h[checked].files[path].ino == orig.ino
            && h[checked].files[path].fp.size == orig.fp.size && h[checked].files[path].fp.mtime == orig.fp.mtime
  {
    var end, orig := |h| - 2, h[n - 1].files[path];
    var ours := h[..|h| - 1];
    OnlyOthersLater(ours, n, checked + 1, path);
    HeldOrPut(ours, checked + 1, path, end);
    assert Has(h, path, checked, orig);
    if At(h[end].files, path) == At(h[checked].files, path) {
      SameHas(h, path, end, checked, orig);
    } else {
      PrefixPut(h, |h| - 1, checked + 1, path, end);
      var j: nat :| checked + 1 <= j && PutBy(h, path, j, end);
      SameHas(h, path, end, j, orig);
      assert !Has(h, path, end, orig) ==> LateWrite(h, path, orig, j);
    }
  }

  lemma SameHas(h: History, path: string, i: nat, j: nat, f: File<Data>)
    requires i < |h| && j < |h| && At(h[i].files, path) == At(h[j].files, path)
    ensures Has(h, path, i, f) <==> Has(h, path, j, f)
  {
  }

  /** Another program's step j put there what the path held at the rename, and that is not the examined version. */
  ghost predicate LateWrite(h: History, path: string, orig: File<Data>, j: nat) {
    && |h| > 1 && PutBy(h, path, j, |h| - 2)
    && !(path in h[j].files && h[j].files[path].ino == orig.ino && h[j].files[path].fp.size == orig.fp.size
         && h[j].files[path].fp.mtime == orig.fp.mtime)
  }
}
