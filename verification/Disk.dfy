/**
 A directory tree as the engine changes it. Every call that writes may fail, and
 `history` keeps each state so far with who made it, so a claim about all of it
 is a claim about a crash at any point.
 */
module Disk {
  import opened Wrappers
  import JobTable

  type Fingerprint = JobTable.Fingerprint

  /** `synced`: the contents have reached the disk and survive a power loss. */
  datatype File<D> = File(ino: nat, fp: Fingerprint, data: D, synced: bool)

  /** A state of the tree; `foreign`: another program's step led to it. */
  datatype Snapshot<D> = Snapshot(files: map<string, File<D>>, foreign: bool)

  function At<V>(files: map<string, V>, path: string): Option<V> {
    if path in files then Some(files[path]) else None
  }

  /** os.SameFile, and the same size and modification time. */
  predicate SameVersion<D>(a: File<D>, b: File<D>) {
    a.ino == b.ino && a.fp == b.fp
  }

  class Tree<D> {
    var files: map<string, File<D>>
    ghost var history: seq<Snapshot<D>>
    ghost var failures: nat  // how many calls the system has failed

    ghost predicate Valid()
      reads this
    {
      |history| > 0 && history[|history| - 1].files == files
    }

    constructor (files: map<string, File<D>>)
      ensures Valid() && this.files == files
    {
      this.files := files;
      history, failures := [Snapshot(files, true)], 0;
    }

    /** Any call that changes nothing may fail: open, close, stat, a probe, making a directory. */
    method Fails() returns (fails: bool)
      modifies this`failures
      ensures failures == old(failures) + if fails then 1 else 0
    {
      fails := *;
      if fails {
        failures := failures + 1;
      }
    }

    method Lstat(path: string) returns (r: Option<File<D>>)
      modifies this`failures
      ensures r.Some? ==> r == At(files, path)
      ensures r.None? && path in files ==> failures > old(failures)
      ensures failures >= old(failures) && (r.Some? ==> failures == old(failures))
    {
      var fails := Fails();
      return if fails then None else At(files, path);
    }

    /** os.CreateTemp under a name of its own: never an existing one. */
    method CreateTemp(name: string, made: File<D>) returns (ok: bool)
      requires Valid()
      modifies this
      ensures if ok then name !in old(files) && Put(name, Some(made)) else Same()
      ensures Counted(ok || name in old(files))
    {
      if name in files {
        return false;
      }
      var fails := Fails();
      ok := !fails;
      if ok {
        files := files[name := made];
        history := history + [Snapshot(files, false)];
      }
    }

    /** A tool writes a file, whole or in part, and reports how it went. */
    method Output(name: string, file: File<D>) returns (ok: bool)
      requires Valid()
      modifies this
      ensures Put(name, Some(file)) && Counted(ok)
    {
      var fails := Fails();
      ok := !fails;
      files := files[name := file];
      history := history + [Snapshot(files, false)];
    }

    method Sync(name: string) returns (ok: bool)
      requires Valid()
      modifies this
      ensures if ok then name in old(files) && Put(name, Some(old(files)[name].(synced := true))) else Same()
      ensures Counted(ok || name !in old(files))
    {
      if name !in files {
        return false;
      }
      var fails := Fails();
      ok := !fails;
      if ok {
        files := files[name := files[name].(synced := true)];
        history := history + [Snapshot(files, false)];
      }
    }

    /** Atomic, and without effect on the contents when both names are the same. */
    method Rename(from: string, to: string) returns (ok: bool)
      requires Valid()
      modifies this
      ensures if ok then from in old(files) && files == (old(files) - {from})[to := old(files)[from]] && Stepped() else Same()
      ensures Counted(ok || from !in old(files))
    {
      if from !in files {
        return false;
      }
      var fails := Fails();
      ok := !fails;
      if ok {
        files := (files - {from})[to := files[from]];
        history := history + [Snapshot(files, false)];
      }
    }

    method Remove(name: string) returns (ok: bool)
      requires Valid()
      modifies this
      ensures if ok then name in old(files) && Put(name, None) else Same()
      ensures Counted(ok || name !in old(files))
    {
      if name !in files {
        return false;
      }
      var fails := Fails();
      ok := !fails;
      if ok {
        files := files - {name};
        history := history + [Snapshot(files, false)];
      }
    }

    /** One more failure, unless it went well or was no fault of the system. */
    twostate predicate Counted(excused: bool)
      reads this
    {
      failures == old(failures) + if excused then 0 else 1
    }

    twostate predicate Same()
      reads this
    {
      Valid() && files == old(files) && history == old(history)
    }

    /** The program itself took one step. */
    twostate predicate Stepped()
      reads this
    {
      Valid() && history == old(history) + [Snapshot(files, false)]
    }

    /** One change to one name, in one step. */
    twostate predicate Put(name: string, file: Option<File<D>>)
      reads this
    {
      files == (if file.Some? then old(files)[name := file.value] else old(files) - {name}) && Stepped()
    }

    /** Any number of steps of other programs, none of them on the protected names. */
    method Others(protected: set<string>)
      requires Valid()
      modifies this`files, this`history
      ensures Valid() && old(history) <= history
      ensures forall i | |old(history)| <= i < |history| :: history[i].foreign
      ensures forall i, p | |old(history)| <= i < |history| && p in protected ::
                At(history[i].files, p) == At(old(files), p)
      ensures forall p | p in protected :: At(files, p) == At(old(files), p)
    {
      var left: int := *;
      while left > 0
        invariant Valid() && old(history) <= history
        invariant forall i | |old(history)| <= i < |history| :: history[i].foreign
        invariant forall i, p | |old(history)| <= i < |history| && p in protected ::
                    At(history[i].files, p) == At(old(files), p)
        invariant forall p | p in protected :: At(files, p) == At(old(files), p)
      {
        left := left - 1;
        var path: string := *;
        var file: Option<File<D>> := *;
        if path !in protected {
          files := if file.Some? then files[path := file.value] else files - {path};
          history := history + [Snapshot(files, true)];
        }
      }
    }
  }

  // ---- what may happen to a path ----

  predicate ChangedAt<D(==)>(h: seq<Snapshot<D>>, path: string, i: nat)
    requires 0 < i < |h|
  {
    At(h[i].files, path) != At(h[i - 1].files, path)
  }

  /** Step i is the program's own and changed what the path holds. */
  ghost predicate OurChange<D>(h: seq<Snapshot<D>>, path: string, i: nat) {
    0 < i < |h| && ChangedAt(h, path, i) && !h[i].foreign
  }

  /** From step n on only other programs changed the path. */
  ghost predicate OnlyOthers<D>(h: seq<Snapshot<D>>, n: nat, path: string) {
    0 < n <= |h| && forall i: nat | n <= i < |h| :: !OurChange(h, path, i)
  }

  /** Another program's step j put there what the path holds at i. */
  ghost predicate PutBy<D>(h: seq<Snapshot<D>>, path: string, j: nat, i: nat) {
    0 < j <= i < |h| && ChangedAt(h, path, j) && h[j].foreign && At(h[j].files, path) == At(h[i].files, path)
  }

  ghost predicate PutSince<D>(h: seq<Snapshot<D>>, n: nat, path: string, i: nat) {
    exists j: nat :: n <= j && PutBy(h, path, j, i)
  }

  lemma PutStays<D>(h: seq<Snapshot<D>>, n: nat, path: string, i: nat)
    requires 0 < i < |h| && !ChangedAt(h, path, i) && PutSince(h, n, path, i - 1)
    ensures PutSince(h, n, path, i)
  {
    var j: nat :| n <= j && PutBy(h, path, j, i - 1);
    assert PutBy(h, path, j, i);
  }

  /** Then what it holds is what it held before, or what another program's step put there. */
  lemma {:induction false} HeldOrPut<D>(h: seq<Snapshot<D>>, n: nat, path: string, i: nat)
    requires OnlyOthers(h, n, path) && n - 1 <= i < |h|
    ensures At(h[i].files, path) == At(h[n - 1].files, path) || PutSince(h, n, path, i)
  {
    if i < n {
    } else if ChangedAt(h, path, i) {
      assert !OurChange(h, path, i);
      assert PutBy(h, path, i, i);
    } else {
      HeldOrPut(h, n, path, i - 1);
      if PutSince(h, n, path, i - 1) {
        PutStays(h, n, path, i);
      }
    }
  }

  lemma SameChange<D>(h: seq<Snapshot<D>>, h': seq<Snapshot<D>>, path: string, i: nat)
    requires h <= h' && i < |h|
    ensures OurChange(h', path, i) <==> OurChange(h, path, i)
  {
  }

  /** More of the history, none of it a step of ours that changed the path. */
  lemma StillOnlyOthers<D>(h: seq<Snapshot<D>>, h': seq<Snapshot<D>>, n: nat, path: string)
    requires OnlyOthers(h, n, path) && h <= h'
    requires forall i: nat | |h| <= i < |h'| :: !OurChange(h', path, i)
    ensures OnlyOthers(h', n, path)
  {
    forall i: nat | n <= i < |h'| ensures !OurChange(h', path, i) {
      if i < |h| {
        SameChange(h, h', path, i);
      }
    }
  }

  lemma OthersStep<D>(h: seq<Snapshot<D>>, h': seq<Snapshot<D>>, n: nat, path: string)
    requires OnlyOthers(h, n, path) && h <= h' && forall i | |h| <= i < |h'| :: h'[i].foreign
    ensures OnlyOthers(h', n, path)
  {
    StillOnlyOthers(h, h', n, path);
  }

  /** A step of ours that leaves the path alone. */
  lemma OwnStep<D>(h: seq<Snapshot<D>>, h': seq<Snapshot<D>>, n: nat, path: string)
    requires OnlyOthers(h, n, path)
    requires h' == h || (|h'| == |h| + 1 && h <= h' && At(h'[|h|].files, path) == At(h[|h| - 1].files, path))
    ensures OnlyOthers(h', n, path)
  {
    if h' != h {
      assert !OurChange(h', path, |h|);
      StillOnlyOthers(h, h', n, path);
    }
  }
}
