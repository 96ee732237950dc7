/**
 Deleting and recycling sidecar subtitles (internal/engine/engine.go): DeleteSidecar,
 uniqueDst and moveFile. recycleMu covers choosing the name and the whole move, so
 the moves of one process happen one after another; the checks before them are
 made without it, so other calls come between. A subtitle may be a symbolic link,
 which os.Rename moves as it is, while os.Stat and os.Open follow it.
 */
module Recycle {
  import opened Wrappers
  import opened Text
  import opened Disk
  import opened RecycleNames
  import L = Links

  datatype Entry = Plain(data: seq<bv8>) | Link(to: string)

  /** The recycle directory ("" deletes permanently), and how many links the system follows before it gives up. */
  datatype Env = Env(dir: string, limit: nat)

  type Files = map<string, File<Entry>>

  /** The entries by name, without the part files of copies. */
  type Entries = map<string, Entry>

  predicate IsPart(path: string) {
    HasSuffix(path, PART)
  }

  function Named(files: Files): Entries {
    map p | p in files && !IsPart(p) :: files[p].data
  }

  // ---- what links lead to ----

  /** The name a link in the directory of p points at. */
  function Target(p: string, to: string): string {
    if "/" <= to then CleanPath(to) else CleanPath(UpToSlash(p) + to)
  }

  function Leads(p: string, e: Entry): Option<string> {
    if e.Link? then Some(Target(p, e.to)) else None
  }

  function GraphOf(m: Entries): L.Graph<string> {
    map p | p in m :: Leads(p, m[p])
  }

  /** os.Stat succeeds. */
  predicate Found(m: Entries, p: string, env: Env) {
    L.Follow(GraphOf(m), p, env.limit).Some?
  }

  function FoundNames(m: Entries, env: Env): set<string> {
    set p | p in m && Found(m, p, env)
  }

  /** What os.Open reads under this name. */
  function Contents(m: Entries, p: string, env: Env): Option<seq<bv8>> {
    var end := L.Follow(GraphOf(m), p, env.limit);
    if end.Some? then Some(m[end.value].data) else None
  }

  lemma PlainIsFound(m: Entries, p: string, env: Env)
    requires p in m && m[p].Plain?
    ensures Found(m, p, env) && Contents(m, p, env) == Some(m[p].data)
  {
  }

  lemma FoundIsThere(m: Entries, p: string, env: Env)
    requires Found(m, p, env)
    ensures p in m && p in FoundNames(m, env)
  {
  }

  // ---- uniqueDst ----

  /** The i-th name is in use although os.Stat fails on it, and the names before it are found. */
  ghost predicate UnseenNext(m: Entries, env: Env, stem: string, ext: string, i: nat) {
    && Candidate(env.dir, stem, ext, i) in m && FirstFree(FoundNames(m, env), env.dir, stem, ext, i)
  }

  /** uniqueDst returns a name in use exactly if a link leading nowhere has the name after those that are found. */
  lemma InUseExactly(m: Entries, env: Env, name: string, dst: string)
    requires Chooses(FoundNames(m, env), env.dir, name, dst)
    ensures dst in m <==> exists j: nat :: UnseenNext(m, env, Stem(name), Ext(name), j)
    ensures dst in m ==> m[dst].Link?
  {
    var stem, ext, found := Stem(name), Ext(name), FoundNames(m, env);
    var i: nat :| FirstFree(found, env.dir, stem, ext, i) && dst == Candidate(env.dir, stem, ext, i);
    if dst in m {
      assert UnseenNext(m, env, stem, ext, i);
      if m[dst].Plain? {
        PlainIsFound(m, dst, env);
      }
    }
    if j: nat :| UnseenNext(m, env, stem, ext, j) {
      assert j < i ==> Candidate(env.dir, stem, ext, j) in found;
      assert i < j ==> Candidate(env.dir, stem, ext, i) in found;
      assert i == j;
      assert UnseenNext(m, env, Stem(name), Ext(name), j);
    }
  }

  // ---- moveFile ----

  datatype MoveError = NotOpened | NotCreated | NotCopied | NotSynced | NotRenamed | NotRemoved

  /** What a move of src puts at its destination: the entry itself, or a copy of what it leads to. */
  predicate Arriving(m: Entries, src: string, e: Entry, env: Env) {
    src in m && (e == m[src] || (e.Plain? && Contents(m, src, env) == Some(e.data)))
  }

  /** All of the source is at the destination. */
  predicate Delivered(before: Files, src: string, dst: string, now: Files, env: Env) {
    dst in now && Arriving(Named(before), src, now[dst].data, env)
  }

  /** The tree at some state of a move; only the part file holds less than all of the source. */
  ghost predicate Moving(before: Files, src: string, dst: string, now: Files, env: Env) {
    && (At(now, dst) == At(before, dst) || Delivered(before, src, dst, now, env))
    && (At(now, src) == At(before, src) || Delivered(before, src, dst, now, env))
    && forall p | p != src && p != dst && p != dst + PART :: At(now, p) == At(before, p)
  }

  predicate HasData(now: Files, dst: string, data: seq<bv8>) {
    dst in now && now[dst].data == Plain(data)
  }

  /** The same of a copy. */
  ghost predicate Copying(before: Files, src: string, dst: string, data: seq<bv8>, now: Files) {
    && (At(now, dst) == At(before, dst) || HasData(now, dst, data))
    && (At(now, src) == At(before, src) || HasData(now, dst, data))
    && forall p | p != src && p != dst && p != dst + PART :: At(now, p) == At(before, p)
  }

  lemma CopyingMoves(before: Files, src: string, dst: string, data: seq<bv8>, now: Files, env: Env)
    requires Copying(before, src, dst, data, now) && src in Named(before) && Contents(Named(before), src, env) == Some(data)
    ensures Moving(before, src, dst, now, env)
  {
  }

  class Recycler {
    const tree: Tree<Entry>
    const env: Env

    constructor (tree: Tree<Entry>, env: Env)
      ensures this.tree == tree && this.env == env
    {
      this.tree, this.env := tree, env;
    }

    method Stat(path: string) returns (ok: bool)
      ensures ok <==> path in FoundNames(Named(tree.files), env)
    {
      ok := Found(Named(tree.files), path, env);
      if ok {
        FoundIsThere(Named(tree.files), path, env);
      }
    }

    /** It ends on every finite directory, with the first name that os.Stat does not find. */
    method UniqueDst(name: string) returns (dst: string)
      requires |Ext(name)| <= 200
      ensures Chooses(FoundNames(Named(tree.files), env), env.dir, name, dst)
    {
      var ext := Ext(name);
      var stem := Truncate(TrimSuffix(name, ext), 200 - |ext|);
      ghost var found := FoundNames(Named(tree.files), env);
      dst := FirstUnfound(stem, ext, found);
      assert stem == Stem(name);
      assert exists i: nat :: FirstFree(found, env.dir, Stem(name), ext, i) && dst == Candidate(env.dir, Stem(name), ext, i);
    }

    method FirstUnfound(stem: string, ext: string, ghost found: set<string>) returns (dst: string)
      requires found == FoundNames(Named(tree.files), env)
      ensures exists i: nat :: FirstFree(found, env.dir, stem, ext, i) && dst == Candidate(env.dir, stem, ext, i)
    {
      dst := Candidate(env.dir, stem, ext, 0);
      var n := 0;
      var taken := Stat(dst);
      while taken
        invariant dst == Candidate(env.dir, stem, ext, n)
        invariant forall k: nat | k < n :: Candidate(env.dir, stem, ext, k) in found
        invariant taken <==> dst in found
        decreases |found| - n
      {
        n := n + 1;
        TriedNames(env.dir, stem, ext, n, found);
        dst := Candidate(env.dir, stem, ext, n);
        taken := Stat(dst);
      }
      assert FirstFree(found, env.dir, stem, ext, n);
    }

    method MoveFile(src: string, dst: string) returns (err: Option<MoveError>)
      requires tree.Valid() && !IsPart(src) && !IsPart(dst) && !Found(Named(tree.files), dst, env)
      modifies tree
      ensures tree.Valid() && old(tree.history) <= tree.history
      ensures forall k | |old(tree.history)| <= k < |tree.history| :: Moving(old(tree.files), src, dst, tree.history[k].files, env)
      ensures Moving(old(tree.files), src, dst, tree.files, env)
      ensures err.None? ==> Delivered(old(tree.files), src, dst, tree.files, env) && (src != dst ==> src !in tree.files)
      ensures err.Some? ==> At(tree.files, src) == old(At(tree.files, src))
      ensures err.Some? && err != Some(NotRemoved) ==> At(tree.files, dst) == old(At(tree.files, dst))
      ensures err == Some(NotRemoved) ==>
                src != dst && Delivered(old(tree.files), src, dst, tree.files, env) && tree.files[dst].data.Plain?
                && Contents(Named(old(tree.files)), src, env) == Some(tree.files[dst].data.data)
      ensures tree.failures >= old(tree.failures)
      ensures err.Some? && tree.failures == old(tree.failures) ==> err == Some(NotOpened) && src !in old(tree.files)
    {
      var renamed := tree.Rename(src, dst);
      if renamed {
        return None;
      }
      var unreadable := tree.Fails();
      var data := Contents(Named(tree.files), src, env);
      if unreadable || data.None? {
        return Some(NotOpened);
      }
      FoundIsThere(Named(tree.files), src, env);
      err := CopyAcross(src, dst, data.value);
      CopyingMoves(old(tree.files), src, dst, data.value, tree.files, env);
      forall k | |old(tree.history)| <= k < |tree.history|
        ensures Moving(old(tree.files), src, dst, tree.history[k].files, env)
      {
        CopyingMoves(old(tree.files), src, dst, data.value, tree.history[k].files, env);
      }
    }

    /** The fallback, for example when the directories are on different filesystems. */
    method CopyAcross(src: string, dst: string, data: seq<bv8>) returns (err: Option<MoveError>)
      requires tree.Valid() && !IsPart(src) && !IsPart(dst) && src in tree.files && src != dst
      modifies tree
      ensures tree.Valid() && old(tree.history) <= tree.history
      ensures forall k | |old(tree.history)| <= k < |tree.history| ::
                Copying(old(tree.files), src, dst, data, tree.history[k].files)
      ensures Copying(old(tree.files), src, dst, data, tree.files)
      ensures err.None? ==> HasData(tree.files, dst, data) && src !in tree.files
      ensures err.Some? ==> At(tree.files, src) == old(At(tree.files, src))
      ensures err.Some? && err != Some(NotRemoved) ==> At(tree.files, dst) == old(At(tree.files, dst))
      ensures err == Some(NotRemoved) ==> HasData(tree.files, dst, data)
      ensures tree.failures >= old(tree.failures) && (err.Some? ==> tree.failures > old(tree.failures))
    {
      var part := dst + PART;
      assert IsPart(part);
      var uncreated := tree.Fails();
      if uncreated {
        return Some(NotCreated);
      }
      err := CopyTo(data, part);
      if err.Some? {
        return err;
      }
      var renamed := tree.Rename(part, dst);
      if !renamed {
        var ok := tree.Remove(part);
        return Some(NotRenamed);
      }
      var removed := tree.Remove(src);
      return if removed then None else Some(NotRemoved);
    }

    /** Create the part file, copy into it, sync and close it; on any failure remove it again. */
    method CopyTo(data: seq<bv8>, part: string) returns (err: Option<MoveError>)
      requires tree.Valid()
      modifies tree
      ensures tree.Valid() && old(tree.history) <= tree.history
      ensures forall k, p | |old(tree.history)| <= k < |tree.history| && p != part ::
                At(tree.history[k].files, p) == At(old(tree.files), p)
      ensures forall p | p != part :: At(tree.files, p) == At(old(tree.files), p)
      ensures err.None? ==> part in tree.files && tree.files[part].data == Plain(data) && tree.files[part].synced
      ensures err.Some? ==> err.value in {NotCopied, NotSynced}
      ensures tree.failures >= old(tree.failures) && (err.Some? ==> tree.failures > old(tree.failures))
    {
      var file: File<Entry> := *;
      var n: nat := *;  // how far io.Copy gets, if it fails
      var broken := tree.Fails();
      var copied := tree.Output(part, file.(data := Plain(if broken && 0 <= n < |data| then data[..n] else data)));
      if !copied || broken {
        var ok := tree.Remove(part);
        return Some(NotCopied);
      }
      var synced := tree.Sync(part);
      if !synced {
        var ok := tree.Remove(part);
        return Some(NotSynced);
      }
      return None;
    }

    /** The part under recycleMu: choose a name, and move the file there if it is still at its path. */
    method MoveToRecycle(path: string, stamp: string) returns (err: Option<MoveError>, dst: string)
      requires tree.Valid() && IsSubtitle(path) && IsStamp(stamp)
      modifies tree
      ensures tree.Valid() && old(tree.history) <= tree.history
      ensures Chooses(FoundNames(Named(old(tree.files)), env), env.dir, RecycleName(stamp, path), dst)
      ensures forall k | |old(tree.history)| <= k < |tree.history| :: Moving(old(tree.files), path, dst, tree.history[k].files, env)
      ensures Moving(old(tree.files), path, dst, tree.files, env)
      ensures err.None? ==> Delivered(old(tree.files), path, dst, tree.files, env) && (path != dst ==> path !in tree.files)
      ensures err.Some? ==> At(tree.files, path) == old(At(tree.files, path))
      ensures err.Some? && err != Some(NotRemoved) ==> At(tree.files, dst) == old(At(tree.files, dst))
      ensures err == Some(NotRemoved) ==>
                path != dst && Delivered(old(tree.files), path, dst, tree.files, env) && tree.files[dst].data.Plain?
                && Contents(Named(old(tree.files)), path, env) == Some(tree.files[dst].data.data)
      ensures tree.failures >= old(tree.failures)
      ensures err.Some? && tree.failures == old(tree.failures) ==> err == Some(NotOpened) && path !in old(tree.files)
    {
      var name := RecycleName(stamp, path);
      NameKeepsExt(stamp, path);
      dst := UniqueDst(name);
      ChosenName(FoundNames(Named(tree.files), env), env.dir, stamp, path, dst);
      SubtitleIsNoPart(path);
      SubtitleIsNoPart(dst);
      if Found(Named(tree.files), dst, env) {
        FoundIsThere(Named(tree.files), dst, env);
      }
      err := MoveFile(path, dst);
    }

    /** Recycling as a change of the entries; no regular file's contents are ever off the disk. */
    method RecycleFile(path: string, stamp: string) returns (err: Option<MoveError>, change: Change)
      requires tree.Valid() && IsSubtitle(path) && IsStamp(stamp)
      modifies tree
      ensures tree.Valid() && old(tree.history) <= tree.history
      ensures Named(tree.files) == Changed(Named(old(tree.files)), change)
      ensures Applies(Named(old(tree.files)), change, env) && (!change.Nothing? ==> change.src == path)
      ensures err.None? <==> change.Moved?
      ensures err == Some(NotRemoved) <==> change.Copied?
      ensures !change.Gone?
      ensures tree.failures >= old(tree.failures)
      ensures err.Some? && tree.failures == old(tree.failures) ==> err == Some(NotOpened) && path !in old(tree.files)
      ensures forall k | |old(tree.history)| <= k < |tree.history| :: NoneLost(old(tree.files), tree.history[k].files)
    {
      ghost var before := tree.files;
      var dst: string;
      err, dst := MoveToRecycle(path, stamp);
      ChosenName(FoundNames(Named(before), env), env.dir, stamp, path, dst);
      SubtitleIsNoPart(path);
      SubtitleIsNoPart(dst);
      forall k | |old(tree.history)| <= k < |tree.history| ensures NoneLost(before, tree.history[k].files) {
        MovesLoseNone(before, path, dst, tree.history[k].files, env);
      }
      change := if err.None? then Moved(path, dst, stamp, tree.files[dst].data)
                else if err == Some(NotRemoved) then Copied(path, dst, stamp, tree.files[dst].data)
                else Nothing;
      EntriesChange(before, path, dst, tree.files, change, env);
    }

    /** What DeleteSidecar does after its checks. */
    method Discard(path: string, stamp: string) returns (r: Result<Deletion, DeleteError>, change: Change)
      requires tree.Valid() && IsSubtitle(path) && IsStamp(stamp)
      modifies tree
      ensures tree.Valid() && old(tree.history) <= tree.history && r !in {Failure(NotFound), Failure(NotASubtitle)}
      ensures Named(tree.files) == Changed(Named(old(tree.files)), change)
      ensures Applies(Named(old(tree.files)), change, env) && (!change.Nothing? ==> change.src == path)
      ensures change.Gone? <==> !change.Nothing? && env.dir == ""
      ensures Answer(r, change) && r != Success(DryRun)
      ensures tree.failures >= old(tree.failures)
      ensures tree.failures == old(tree.failures) ==> r == Ideal(Named(old(tree.files)), path, env)
      ensures Lossless(old(tree.files), tree.history, |old(tree.history)|, env)
    {
      SubtitleIsNoPart(path);
      change := Nothing;
      if env.dir != "" {
        var err, moved := RecycleFile(path, stamp);
        return if err.None? then Success(Recycled) else Failure(NotMoved(err.value)), moved;
      }
      var removed := tree.Remove(path);
      if !removed {
        return Failure(NotDeleted), change;
      }
      assert Named(tree.files) == Named(old(tree.files)) - {path};
      return Success(Deleted), Gone(path);
    }

    /** Any number of other calls get past their checks and discard their files. */
    method OtherCalls() returns (ghost between: seq<Change>)
      requires tree.Valid()
      modifies tree
      ensures tree.Valid() && old(tree.history) <= tree.history
      ensures AllApply(Named(old(tree.files)), between, env)
      ensures Named(tree.files) == AfterAll(Named(old(tree.files)), between)
      ensures Lossless(old(tree.files), tree.history, |old(tree.history)|, env)
      ensures env.dir != "" ==> NoneLost(old(tree.files), tree.files)
      ensures tree.failures >= old(tree.failures)
    {
      between := [];
      ghost var m := Named(tree.files);
      NothingLost(tree.files);
      var left: int := *;
      while left > 0
        invariant tree.Valid() && old(tree.history) <= tree.history
        invariant AllApply(m, between, env) && Named(tree.files) == AfterAll(m, between)
        invariant Lossless(old(tree.files), tree.history, |old(tree.history)|, env)
        invariant env.dir != "" ==> NoneLost(old(tree.files), tree.files)
        invariant tree.failures >= old(tree.failures)
      {
        left := left - 1;
        var path: string := *;
        var stamp: string := *;
        if IsSubtitle(path) && IsStamp(stamp) {
          ghost var start, h := tree.files, tree.history;
          var r, change := Discard(path, stamp);
          OneMore(m, between, change, env);
          between := between + [change];
          LossesAdd(old(tree.files), start, h, tree.history, |old(tree.history)|, env);
        }
      }
    }

    /** Other calls come first; one of them may have moved the file, or what it leads to. */
    method DiscardLater(path: string, stamp: string)
      returns (r: Result<Deletion, DeleteError>, change: Change, ghost between: seq<Change>)
      requires tree.Valid() && IsSubtitle(path) && IsStamp(stamp)
      modifies tree
      ensures tree.Valid() && old(tree.history) <= tree.history && r !in {Failure(NotFound), Failure(NotASubtitle)}
      ensures AllApply(Named(old(tree.files)), between + [change], env)
      ensures Named(tree.files) == AfterAll(Named(old(tree.files)), between + [change])
      ensures !change.Nothing? ==> change.src == path && path in AfterAll(Named(old(tree.files)), between)
      ensures change.Gone? <==> !change.Nothing? && env.dir == ""
      ensures Answer(r, change) && r != Success(DryRun)
      ensures tree.failures >= old(tree.failures)
      ensures tree.failures == old(tree.failures) ==> r == Ideal(AfterAll(Named(old(tree.files)), between), path, env)
      ensures Lossless(old(tree.files), tree.history, |old(tree.history)|, env)
    {
      ghost var m := Named(tree.files);
      between := OtherCalls();
      ghost var start, h := tree.files, tree.history;
      r, change := Discard(path, stamp);
      OneMore(m, between, change, env);
      LossesAdd(old(tree.files), start, h, tree.history, |old(tree.history)|, env);
    }

    /** The checks of DeleteSidecar, and the answer if it ends with them. */
    method Checks(path: string, isDir: bool, dryRun: bool) returns (ending: Option<Result<Deletion, DeleteError>>)
      ensures ending in {None, Some(Failure(NotFound)), Some(Failure(NotASubtitle)), Some(Success(DryRun))}
      ensures ending == Some(Failure(NotFound)) <==> !Found(Named(tree.files), path, env)
      ensures ending == Some(Failure(NotASubtitle)) <==> Found(Named(tree.files), path, env) && (isDir || !IsSubtitle(path))
      ensures ending == Some(Success(DryRun)) <==>
                Found(Named(tree.files), path, env) && !isDir && IsSubtitle(path) && dryRun
    {
      var found := Stat(path);
      if !found {
        return Some(Failure(NotFound));
      }
      if isDir || !IsSubtitle(path) {
        return Some(Failure(NotASubtitle));
      }
      if dryRun {
        return Some(Success(DryRun));
      }
      return None;
    }

    /**
     DeleteSidecar. `isDir` and `stamp` come from the environment; `between` is
     what other calls did after this one's checks, `change` what it did itself. The
     checks are exact, and if no call to the system fails so is the rest.
     */
    method DeleteSidecar(path: string, isDir: bool, stamp: string, dryRun: bool)
      returns (r: Result<Deletion, DeleteError>, change: Change, ghost between: seq<Change>)
      requires tree.Valid() && IsStamp(stamp)
      modifies tree
      ensures tree.Valid() && old(tree.history) <= tree.history
      ensures AllApply(Named(old(tree.files)), between + [change], env)
      ensures Named(tree.files) == AfterAll(Named(old(tree.files)), between + [change])
      ensures Answer(r, change)
      ensures !change.Nothing? ==>
                && change.src == path && Found(Named(old(tree.files)), path, env) && IsSubtitle(path) && !isDir && !dryRun
                && path in AfterAll(Named(old(tree.files)), between)
      ensures change.Gone? <==> !change.Nothing? && env.dir == ""
      ensures r == Failure(NotFound) <==> !Found(Named(old(tree.files)), path, env)
      ensures r == Failure(NotASubtitle) <==> Found(Named(old(tree.files)), path, env) && (isDir || !IsSubtitle(path))
      ensures r == Success(DryRun) <==> Found(Named(old(tree.files)), path, env) && !isDir && IsSubtitle(path) && dryRun
      ensures Found(Named(old(tree.files)), path, env) && !isDir && IsSubtitle(path) && !dryRun
              && tree.failures == old(tree.failures) ==>
                r == Ideal(AfterAll(Named(old(tree.files)), between), path, env)
      ensures Lossless(old(tree.files), tree.history, |old(tree.history)|, env)
    {
      change, between := Nothing, [];
      ghost var m := Named(tree.files);
      OneMore(m, [], Nothing, env);
      var ending := Checks(path, isDir, dryRun);
      if ending.Some? {
        return ending.value, change, between;
      }
      if env.dir != "" {
        var unmade := tree.Fails();
        if unmade {
          return Failure(NoRecycleDir), change, between;
        }
      }
      r, change, between := DiscardLater(path, stamp);
    }
  }

  lemma SubtitleIsNoPart(path: string)
    requires IsSubtitle(path)
    ensures !IsPart(path)
  {
    if IsPart(path) {
      var dst := path[..|path| - |PART|];
      assert path == dst + PART;
      PartIsNoSubtitle(dst);
    }
  }

  datatype Deletion = DryRun | Recycled | Deleted

  datatype DeleteError = NotFound | NotASubtitle | NoRecycleDir | NotMoved(why: MoveError) | NotDeleted

  /** The answer when nothing fails: the file is recycled or deleted, unless another call has taken it. */
  function Ideal(m: Entries, path: string, env: Env): Result<Deletion, DeleteError> {
    if env.dir != "" then if path in m then Success(Recycled) else Failure(NotMoved(NotOpened))
    else if path in m then Success(Deleted) else Failure(NotDeleted)
  }

  /** How the answer tells what was done to the files. */
  predicate Answer(r: Result<Deletion, DeleteError>, change: Change) {
    && (r == Success(Recycled) <==> change.Moved?)
    && (r == Success(Deleted) <==> change.Gone?)
    && (r == Failure(NotMoved(NotRemoved)) <==> change.Copied?)
  }

  // ---- no contents are lost ----

  ghost predicate Holds(files: Files, e: Entry) {
    exists p :: p in files && !IsPart(p) && files[p].data == e
  }

  /** The contents of every regular file are still there, all of them, under some name. */
  ghost predicate NoneLost(before: Files, now: Files) {
    forall p | p in before && !IsPart(p) && before[p].data.Plain? :: Holds(now, before[p].data)
  }

  lemma NothingLost(files: Files)
    ensures NoneLost(files, files)
  {
    forall p | p in files && !IsPart(p) && files[p].data.Plain? ensures Holds(files, files[p].data) {
    }
  }

  lemma LostNone(a: Files, b: Files, c: Files)
    requires NoneLost(a, b) && NoneLost(b, c)
    ensures NoneLost(a, c)
  {
    forall p | p in a && !IsPart(p) && a[p].data.Plain? ensures Holds(c, a[p].data) {
      assert Holds(b, a[p].data);
    }
  }

  /** With a recycle directory, no state from the n-th on has lost contents that were there at first. */
  ghost predicate Lossless(first: Files, h: seq<Snapshot<Entry>>, n: nat, env: Env) {
    env.dir != "" ==> forall k | n <= k < |h| :: NoneLost(first, h[k].files)
  }

  /** More states, none of which loses anything the one before them had. */
  lemma LossesAdd(first: Files, start: Files, h: seq<Snapshot<Entry>>, h': seq<Snapshot<Entry>>, n: nat, env: Env)
    requires n <= |h| && h <= h' && |h| > 0 && h[|h| - 1].files == start
    requires env.dir != "" ==> NoneLost(first, start)
    requires Lossless(first, h, n, env) && Lossless(start, h', |h|, env)
    ensures Lossless(first, h', n, env)
    ensures env.dir != "" ==> NoneLost(first, h'[|h'| - 1].files)
  {
    if env.dir != "" {
      forall k | n <= k < |h'| ensures NoneLost(first, h'[k].files) {
        if k >= |h| {
          LostNone(first, start, h'[k].files);
        }
      }
    }
  }

  lemma PlainDelivered(before: Files, src: string, dst: string, now: Files, env: Env)
    requires Delivered(before, src, dst, now, env) && Named(before)[src].Plain?
    ensures now[dst].data == before[src].data
  {
    PlainIsFound(Named(before), src, env);
  }

  lemma MovesLoseNone(before: Files, src: string, dst: string, now: Files, env: Env)
    requires Moving(before, src, dst, now, env) && dst !in FoundNames(Named(before), env) && !IsPart(src) && !IsPart(dst)
    ensures NoneLost(before, now)
  {
    forall p | p in before && !IsPart(p) && before[p].data.Plain? ensures Holds(now, before[p].data) {
      PlainIsFound(Named(before), p, env);
      if p == src && At(now, src) != At(before, src) {
        PlainDelivered(before, src, dst, now, env);
        assert now[dst].data == before[p].data;
      } else {
        assert HasSuffix(dst + PART, PART);
        assert At(now, p) == At(before, p);
        assert p in now && now[p] == before[p];
      }
    }
  }

  // ---- what a call does to the entries ----

  /** `entry` is what arrived at dst. */
  datatype Change =
    | Nothing
    | Moved(src: string, dst: string, stamp: string, entry: Entry)
    | Copied(src: string, dst: string, stamp: string, entry: Entry)  // and the source not removed
    | Gone(src: string)

  predicate Arrives(c: Change) {
    c.Moved? || c.Copied?
  }

  predicate Leaves(c: Change) {
    c.Moved? || c.Gone?
  }

  function Changed(m: Entries, c: Change): Entries {
    match c
    case Nothing => m
    case Moved(src, dst, stamp, entry) => (m - {src})[dst := entry]
    case Copied(src, dst, stamp, entry) => m[dst := entry]
    case Gone(src) => m - {src}
  }

  /** A subtitle is there, and arrives under the name uniqueDst chooses. */
  ghost predicate Applies(m: Entries, c: Change, env: Env) {
    && (!c.Nothing? ==> c.src in m && IsSubtitle(c.src))
    && (Arrives(c) ==>
          && IsStamp(c.stamp) && Chooses(FoundNames(m, env), env.dir, RecycleName(c.stamp, c.src), c.dst)
          && InDir(env.dir, c.dst) && !Found(m, c.dst, env) && Arriving(m, c.src, c.entry, env))
    && (c.Copied? ==> Found(m, c.src, env) && c.entry.Plain?)
  }

  /** The tree after a move that ended in this way. */
  ghost predicate Ended(before: Files, src: string, dst: string, now: Files, c: Change) {
    match c
    case Moved(s, d, stamp, e) =>
      s == src && d == dst && dst in now && now[dst].data == e && (src != dst ==> src !in now)
    case Copied(s, d, stamp, e) =>
      s == src && d == dst && src != dst && dst in now && now[dst].data == e && At(now, src) == At(before, src)
    case Nothing => At(now, src) == At(before, src) && At(now, dst) == At(before, dst)
    case Gone(s) => false
  }

  lemma EntryAfter(before: Files, src: string, dst: string, now: Files, c: Change, p: string)
    requires !IsPart(src) && !IsPart(dst) && Ended(before, src, dst, now, c)
    requires p != src && p != dst && p != dst + PART ==> At(now, p) == At(before, p)
    ensures At(Named(now), p) == At(Changed(Named(before), c), p)
  {
    assert IsPart(dst + PART);
  }

  lemma EntriesChange(before: Files, src: string, dst: string, now: Files, c: Change, env: Env)
    requires !IsPart(src) && !IsPart(dst) && Moving(before, src, dst, now, env) && Ended(before, src, dst, now, c)
    ensures Named(now) == Changed(Named(before), c)
  {
    forall p ensures At(Named(now), p) == At(Changed(Named(before), c), p) {
      EntryAfter(before, src, dst, now, c, p);
    }
    SameEntries(Named(now), Changed(Named(before), c));
  }

  lemma SameEntries(a: Entries, b: Entries)
    requires forall p :: At(a, p) == At(b, p)
    ensures a == b
  {
    forall p ensures p in a <==> p in b {
      assert At(a, p) == At(b, p);
    }
    forall p | p in a ensures a[p] == b[p] {
      assert At(a, p) == At(b, p);
    }
  }

  // ---- any sequence of calls ----

  /** recycleMu puts the moves of one process in some order: the entries after all of them. */
  function AfterAll(m: Entries, changes: seq<Change>): Entries
    decreases |changes|
  {
    if changes == [] then m else AfterAll(Changed(m, changes[0]), changes[1..])
  }

  /** Each change applies where it happens. */
  ghost predicate AllApply(m: Entries, changes: seq<Change>, env: Env)
    decreases |changes|
  {
    changes != [] ==> Applies(m, changes[0], env) && AllApply(Changed(m, changes[0]), changes[1..], env)
  }

  lemma {:induction false} OneMore(m: Entries, changes: seq<Change>, c: Change, env: Env)
    ensures AfterAll(m, changes + [c]) == Changed(AfterAll(m, changes), c)
    ensures AllApply(m, changes, env) && Applies(AfterAll(m, changes), c, env) ==> AllApply(m, changes + [c], env)
    decreases |changes|
  {
    if changes == [] {
      assert [c][1..] == [];
    } else {
      assert (changes + [c])[0] == changes[0] && (changes + [c])[1..] == changes[1..] + [c];
      OneMore(Changed(m, changes[0]), changes[1..], c, env);
    }
  }
}
