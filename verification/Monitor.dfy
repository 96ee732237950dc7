/**
 The watcher and monitor objects (internal/watch/watcher.go,
 internal/watch/monitor.go). Each method is one run of the source's method with
 no other goroutine in between; `Watch` interleaves their lock sections.
 */
module Monitor {
  import Sets
  import W = Watch
  import opened Wrappers

  /** A row of ListLibraries; `watchable`: watching is on for all libraries, and this path is on a local filesystem. */
  datatype Library = Library(id: int, path: string, enabled: bool, watchable: bool) {
    predicate ShouldWatch() {
      enabled && watchable
    }
  }

  class LibWatcher {
    const libID: int
    const root: string
    var timer: bool       // w.timer is not nil
    var armed: bool       // and that timer has yet to expire
    var orphans: nat
    var fires: nat
    var checking: nat
    var stopped: bool
    var dead: bool
    var rootLost: bool

    ghost predicate Valid()
      reads this
    {
      armed ==> timer
    }

    ghost function View(): W.Watcher
      reads this
    {
      W.Watcher(libID, timer, armed, orphans, fires, checking, stopped, dead, rootLost)
    }

    constructor (libID: int, root: string)
      ensures Valid() && View() == W.NewWatcher(libID) && this.root == root && this.libID == libID
    {
      this.libID := libID;
      this.root := root;
      timer, armed, orphans, fires, checking, stopped, dead, rootLost := false, false, 0, 0, 0, false, false, false;
    }

    method Schedule()
      requires Valid()
      modifies this
      ensures Valid() && View() == W.Schedule(old(View())) && timer && armed && orphans == old(orphans)
    {
      if timer {
        armed := true;
        return;
      }
      timer := true;
      armed := true;
    }

    /** Returns whether it calls trigger. */
    method Fire() returns (triggers: bool)
      requires Valid() && fires > 0
      modifies this
      ensures Valid() && View() == W.Checked(W.Forget(old(View())))
      ensures triggers <==> W.Passes(old(View()))
      ensures triggers <==> !old(stopped) && !old(dead)
      ensures !timer && !armed && orphans == old(orphans) + if old(armed) then 1 else 0
    {
      if armed {
        orphans := orphans + 1;
      }
      timer, armed, fires := false, false, fires - 1;
      return !stopped && !dead;
    }

    method Stop()
      requires Valid()
      modifies this
      ensures Valid() && View() == W.Cancel(W.StopTimer(old(View()))) && stopped && !armed && orphans == old(orphans)
    {
      if timer {
        timer, armed := false, false;
      }
      stopped := true;
    }

    method Died()
      requires Valid()
      modifies this
      ensures Valid() && View() == if old(stopped) then old(View()) else W.Die(old(View()))
    {
      if stopped {
        return;
      }
      dead := true;
    }
  }

  /** A registered watcher: the root it was started on, and its state. */
  datatype Entry = Entry(root: string, w: W.Watcher)

  predicate Wanted(want: map<int, Library>, id: int, root: string) {
    id in want && want[id].ShouldWatch() && root == want[id].path
  }

  predicate Distinct(libs: seq<Library>) {
    forall i, j | 0 <= i < j < |libs| :: libs[i].id != libs[j].id
  }

  /** The library's watcher can stay: it is wanted there, alive, and still on its root. */
  predicate Fine(watchers: map<int, Entry>, lib: Library) {
    lib.id in watchers && lib.ShouldWatch() && watchers[lib.id].root == lib.path && !W.Broken(watchers[lib.id].w)
  }

  /** The library is owed a rescan: it is flagged, or its watcher has to go. */
  predicate Owed(watchers: map<int, Entry>, catchup: set<int>, lib: Library) {
    lib.id in catchup || (lib.id in watchers && !Fine(watchers, lib))
  }

  /** The library has a catch-up flag, or a timer that will trigger its rescan. */
  predicate Paid(watchers: map<int, Entry>, catchup: set<int>, lib: Library) {
    lib.id in catchup || (lib.id in watchers && W.WillTrigger(watchers[lib.id].w))
  }

  /** The library has its watcher; if that is a new one it has taken over the flag. */
  predicate Started(watchers: map<int, Entry>, before: map<int, Entry>, catchup: set<int>, flags: set<int>, lib: Library) {
    && Fine(watchers, lib)
    && (!Fine(before, lib) ==>
          lib.id !in catchup && (lib.id in flags || lib.id in before ==> W.WillTrigger(watchers[lib.id].w)))
  }

  function Look(statuses: map<int, string>, id: int): Option<string> {
    if id in statuses then Some(statuses[id]) else None
  }

  /** What the monitor says of the library: the reason why it has no watcher, or the state of a new one. */
  predicate Told(statuses: map<int, string>, watchers: map<int, Entry>,
                 told: map<int, string>, before: map<int, Entry>, lib: Library) {
    if !lib.enabled then Look(statuses, lib.id) == Some("disabled")
    else if !lib.watchable then Look(statuses, lib.id) == Some("polling")
    else if Fine(before, lib) then Look(statuses, lib.id) == Look(told, lib.id)
    else lib.id in statuses && if lib.id in watchers then statuses[lib.id] in {"watching", "watch-limit"}
                               else "error: " <= statuses[lib.id]
  }

  /** What the monitor has noted under its mutex. */
  datatype Book = Book(watchers: map<int, Entry>, statuses: map<int, string>, catchup: set<int>)

  predicate SameAt(a: Book, b: Book, id: int) {
    && (id in a.watchers <==> id in b.watchers)
    && (id in a.watchers ==> a.watchers[id] == b.watchers[id])
    && (id in a.catchup <==> id in b.catchup)
    && Look(a.statuses, id) == Look(b.statuses, id)
  }

  predicate Unfit(watchers: map<int, Entry>, lib: Library) {
    lib.id in watchers && !Fine(watchers, lib)
  }

  /** What the second loop does for one library. `failed`: some watcher could not be started. */
  predicate Visited(first: Book, now: Book, retired: seq<Entry>, failed: bool, lib: Library) {
    && (lib.id in now.watchers ==> Fine(now.watchers, lib))
    && (Owed(first.watchers, first.catchup, lib) ==> Paid(now.watchers, now.catchup, lib))
    && (Fine(first.watchers, lib) ==> SameAt(first, now, lib.id))
    && (Unfit(first.watchers, lib) ==> Halt(first.watchers[lib.id]) in retired)
    && (!failed && lib.ShouldWatch() ==> Started(now.watchers, first.watchers, now.catchup, first.catchup, lib))
    && Told(now.statuses, now.watchers, first.statuses, first.watchers, lib)
  }

  lemma VisitedSince(first: Book, last: Book, now: Book, retired: seq<Entry>, failed: bool, failed': bool, lib: Library)
    requires SameAt(first, last, lib.id) && Visited(last, now, retired, failed, lib) && (failed ==> failed')
    ensures Visited(first, now, retired, failed', lib)
  {
  }

  lemma StillVisited(first: Book, last: Book, now: Book, stopped: seq<Entry>, retired: seq<Entry>,
                     failed: bool, failed': bool, lib: Library)
    requires SameAt(last, now, lib.id) && stopped <= retired && (failed ==> failed')
    requires Visited(first, last, stopped, failed, lib)
    ensures Visited(first, now, retired, failed', lib)
  {
  }

  /** What starting a watcher does for its library. */
  predicate Renewed(before: Book, now: Book, lib: Library) {
    && (lib.id in now.watchers ==> Fine(now.watchers, lib) && lib.id !in now.catchup)
    && (lib.id in before.catchup ==> Paid(now.watchers, now.catchup, lib))
    && lib.id in now.statuses
    && (if lib.id in now.watchers then now.statuses[lib.id] in {"watching", "watch-limit"}
        else "error: " <= now.statuses[lib.id])
  }

  lemma RenewedIsVisited(first: Book, mid: Book, now: Book, retired: seq<Entry>, failed: bool, lib: Library)
    requires lib.ShouldWatch() && !Fine(first.watchers, lib) && Renewed(mid, now, lib)
    requires lib.id in first.watchers || lib.id in first.catchup ==> lib.id in mid.catchup
    requires Unfit(first.watchers, lib) ==> Halt(first.watchers[lib.id]) in retired
    requires lib.id !in now.watchers ==> failed
    ensures Visited(first, now, retired, failed, lib)
  {
  }

  function IdsOf(libs: seq<Library>): set<int> {
    set k | 0 <= k < |libs| :: libs[k].id
  }

  predicate Placed(watchers: map<int, Entry>, lib: Library) {
    lib.id in watchers ==> lib.ShouldWatch() && watchers[lib.id].root == lib.path
  }

  function Halt(e: Entry): Entry {
    e.(w := W.Cancel(W.StopTimer(e.w)))
  }

  /** The entry was registered, under an id that is not registered now. */
  ghost predicate TakenOut(before: map<int, Entry>, watchers: map<int, Entry>, e: Entry) {
    exists id :: id in before && id !in watchers && before[id] == e
  }

  ghost predicate AllTakenOut(before: map<int, Entry>, watchers: map<int, Entry>, toStop: seq<Entry>) {
    forall k | 0 <= k < |toStop| :: TakenOut(before, watchers, toStop[k])
  }

  lemma OneTakenOut(before: map<int, Entry>, watchers: map<int, Entry>, toStop: seq<Entry>, id: int)
    requires AllTakenOut(before, watchers, toStop) && id in before && id in watchers && watchers[id] == before[id]
    ensures AllTakenOut(before, watchers - {id}, toStop + [watchers[id]])
  {
    forall k | 0 <= k < |toStop| ensures TakenOut(before, watchers - {id}, toStop[k]) {
      assert TakenOut(before, watchers, toStop[k]);
    }
    assert TakenOut(before, watchers - {id}, before[id]);
  }

  /** One of these libraries has a watcher that can stay. */
  ghost predicate Stays(watchers: map<int, Entry>, libs: seq<Library>, id: int) {
    exists k | 0 <= k < |libs| :: libs[k].id == id && Fine(watchers, libs[k])
  }

  /** A watcher that could not stay, stopped. */
  ghost predicate Retiree(first: map<int, Entry>, libs: seq<Library>, e: Entry) {
    exists id :: id in first && !Stays(first, libs, id) && e == Halt(first[id])
  }

  /** What the first locked section has done when `left` are still to be looked at. */
  ghost predicate Dropped(want: map<int, Library>, before: map<int, Entry>, flags: set<int>,
                          watchers: map<int, Entry>, catchup: set<int>, toStop: seq<Entry>, left: set<int>) {
    && left <= watchers.Keys <= before.Keys
    && (forall id | id in watchers :: watchers[id] == before[id])
    && (forall id | id in before && id !in left :: id in watchers <==> Wanted(want, id, before[id].root))
    && (forall id | id in before && id !in watchers :: before[id] in toStop)
    && AllTakenOut(before, watchers, toStop)
    && (forall id | id in want :: id in catchup <==> id in flags || (id in before && id !in watchers))
  }

  lemma DroppedOne(want: map<int, Library>, before: map<int, Entry>, flags: set<int>,
                   watchers: map<int, Entry>, catchup: set<int>, toStop: seq<Entry>, left: set<int>, id: int)
    requires Dropped(want, before, flags, watchers, catchup, toStop, left) && id in left
    requires !Wanted(want, id, watchers[id].root)
    ensures Dropped(want, before, flags, watchers - {id}, if id in want then catchup + {id} else catchup,
                    toStop + [watchers[id]], left - {id})
  {
    OneTakenOut(before, watchers, toStop, id);
  }

  lemma DroppedAll(want: map<int, Library>, before: map<int, Entry>, flags: set<int>,
                   watchers: map<int, Entry>, catchup: set<int>, toStop: seq<Entry>)
    requires Dropped(want, before, flags, watchers, catchup, toStop, {})
    ensures watchers.Keys <= want.Keys
    ensures Dropped(want, before, flags, watchers, catchup * want.Keys, toStop, {})
  {
    forall id | id in watchers ensures id in want {
      assert Wanted(want, id, before[id].root);
    }
  }

  /** The libraries by id, as Reconcile's `want` map. */
  method Wants(libs: seq<Library>) returns (want: map<int, Library>)
    requires Distinct(libs)
    ensures forall id | id in want :: want[id].id == id && want[id] in libs
    ensures forall k | 0 <= k < |libs| :: libs[k].id in want && want[libs[k].id] == libs[k]
    ensures want.Keys == IdsOf(libs)
  {
    want := map[];
    for i := 0 to |libs|
      invariant forall id | id in want :: want[id].id == id && want[id] in libs[..i]
      invariant forall k | 0 <= k < i :: libs[k].id in want && want[libs[k].id] == libs[k]
    {
      want := want[libs[i].id := libs[i]];
    }
  }

  lemma DroppedCannotStay(libs: seq<Library>, want: map<int, Library>, before: map<int, Entry>, flags: set<int>,
                          watchers: map<int, Entry>, catchup: set<int>, toStop: seq<Entry>, k: nat)
    requires Dropped(want, before, flags, watchers, catchup, toStop, {}) && k < |toStop|
    requires forall k | 0 <= k < |libs| :: libs[k].id in want && want[libs[k].id] == libs[k]
    ensures Retiree(before, libs, Halt(toStop[k]))
  {
    assert TakenOut(before, watchers, toStop[k]);
    var id :| id in before && id !in watchers && before[id] == toStop[k];
    assert !Wanted(want, id, before[id].root);
    assert !Stays(before, libs, id);
  }

  lemma UnfitRetires(first: map<int, Entry>, libs: seq<Library>, i: nat)
    requires Distinct(libs) && i < |libs| && libs[i].id in first && !Fine(first, libs[i])
    ensures Retiree(first, libs, Halt(first[libs[i].id]))
  {
    assert !Stays(first, libs, libs[i].id);
  }

  lemma LeftCannotStay(libs: seq<Library>, first: map<int, Entry>, left: map<int, Entry>, e: Entry)
    requires left.Keys <= first.Keys && (forall id | id in left :: left[id] == first[id]) && Retiree(left, libs, e)
    ensures Retiree(first, libs, e)
  {
    var id :| id in left && !Stays(left, libs, id) && e == Halt(left[id]);
    assert !Stays(first, libs, id);
  }

  ghost predicate AllVisited(first: Book, now: Book, retired: seq<Entry>, failed: bool, libs: seq<Library>) {
    forall k | 0 <= k < |libs| :: Visited(first, now, retired, failed, libs[k])
  }

  /** Every watcher that could not stay has been stopped. */
  ghost predicate AllRetired(watchers: map<int, Entry>, libs: seq<Library>, retired: seq<Entry>) {
    forall id | id in watchers && !Stays(watchers, libs, id) :: Halt(watchers[id]) in retired
  }

  /** From position n on, only such watchers have been stopped. */
  ghost predicate OnlyRetirees(watchers: map<int, Entry>, libs: seq<Library>, n: nat, retired: seq<Entry>) {
    forall k | n <= k < |retired| :: Retiree(watchers, libs, retired[k])
  }

  ghost predicate Requested(libs: seq<Library>, want: map<int, Library>) {
    && (forall id | id in want :: want[id].id == id && want[id] in libs)
    && (forall k | 0 <= k < |libs| :: libs[k].id in want && want[libs[k].id] == libs[k])
  }

  ghost predicate HalfWith(want: map<int, Library>, first: Book, left: Book, toStop: seq<Entry>,
                           before: seq<Entry>, stopped: seq<Entry>) {
    && Dropped(want, first.watchers, first.catchup, left.watchers, left.catchup, toStop, {})
    && (forall id | id in want :: Look(left.statuses, id) == Look(first.statuses, id))
    && before <= stopped && |stopped| == |before| + |toStop|
    && forall k | 0 <= k < |toStop| :: stopped[|before| + k] == Halt(toStop[k])
  }

  /** What the first half of a pass has done. */
  ghost predicate StoppedHalf(libs: seq<Library>, first: Book, left: Book, toStop: seq<Entry>,
                              before: seq<Entry>, stopped: seq<Entry>) {
    exists want :: Requested(libs, want) && HalfWith(want, first, left, toStop, before, stopped)
  }

  /** What the second loop finds is what the first half has left, so both together visit the libraries. */
  lemma BothHalves(libs: seq<Library>, first: Book, left: Book, now: Book, toStop: seq<Entry>,
                   before: seq<Entry>, stopped: seq<Entry>, retired: seq<Entry>, failed: bool)
    requires StoppedHalf(libs, first, left, toStop, before, stopped) && stopped <= retired
    requires AllVisited(left, now, retired, failed, libs) && OnlyRetirees(left.watchers, libs, |stopped|, retired)
    ensures AllVisited(first, now, retired, failed, libs)
    ensures AllRetired(first.watchers, libs, retired) && OnlyRetirees(first.watchers, libs, |before|, retired)
  {
    var want :| Requested(libs, want) && HalfWith(want, first, left, toStop, before, stopped);
    forall e | e in toStop ensures Halt(e) in retired {
      var k :| 0 <= k < |toStop| && toStop[k] == e;
      assert retired[|before| + k] == Halt(e);
    }
    forall k | 0 <= k < |libs| ensures Visited(first, now, retired, failed, libs[k]) {
      OneAfterDropping(want, first, left, now, toStop, retired, failed, libs[k]);
    }
    forall k | |before| <= k < |retired| ensures Retiree(first.watchers, libs, retired[k]) {
      if k < |stopped| {
        DroppedCannotStay(libs, want, first.watchers, first.catchup, left.watchers, left.catchup, toStop, k - |before|);
      } else {
        LeftCannotStay(libs, first.watchers, left.watchers, retired[k]);
      }
    }
    UnfitAreRetired(libs, want, first, left, now, toStop, retired, failed);
  }

  lemma UnfitAreRetired(libs: seq<Library>, want: map<int, Library>, first: Book, left: Book, now: Book,
                        toStop: seq<Entry>, retired: seq<Entry>, failed: bool)
    requires Requested(libs, want) && (forall e | e in toStop :: Halt(e) in retired)
    requires Dropped(want, first.watchers, first.catchup, left.watchers, left.catchup, toStop, {})
    requires AllVisited(first, now, retired, failed, libs)
    ensures AllRetired(first.watchers, libs, retired)
  {
    forall id | id in first.watchers && !Stays(first.watchers, libs, id)
      ensures Halt(first.watchers[id]) in retired
    {
      if id in left.watchers {
        assert Wanted(want, id, first.watchers[id].root);
        var k :| 0 <= k < |libs| && libs[k] == want[id];
        assert Visited(first, now, retired, failed, libs[k]) && Unfit(first.watchers, libs[k]);
      }
    }
  }

  lemma OneAfterDropping(want: map<int, Library>, first: Book, left: Book, now: Book,
                         toStop: seq<Entry>, retired: seq<Entry>, failed: bool, lib: Library)
    requires lib.id in want && want[lib.id] == lib
    requires Dropped(want, first.watchers, first.catchup, left.watchers, left.catchup, toStop, {})
    requires Look(left.statuses, lib.id) == Look(first.statuses, lib.id)
    requires forall e | e in toStop :: Halt(e) in retired
    requires Visited(left, now, retired, failed, lib)
    ensures Visited(first, now, retired, failed, lib)
  {
    assert lib.id in first.watchers ==>
             (lib.id in left.watchers <==> Wanted(want, lib.id, first.watchers[lib.id].root));
  }

  class WatchMonitor {
    var watchers: map<int, Entry>
    var statuses: map<int, string>
    var catchup: set<int>
    var retired: seq<Entry>       // the watchers it has stopped
    ghost var failedStarts: nat   // how many watchers it could not start

    /** Every library with a watcher or a flag has a status, so that its flag can be dropped with it. */
    ghost predicate Valid()
      reads this
    {
      watchers.Keys <= statuses.Keys && catchup <= statuses.Keys
    }

    constructor ()
      ensures Valid() && watchers == map[] && catchup == {} && retired == []
    {
      watchers, statuses, catchup, retired, failedStarts := map[], map[], {}, [], 0;
    }

    /** The first locked section: take out every watcher that is no longer wanted as it is. */
    method DropUnwanted(want: map<int, Library>) returns (toStop: seq<Entry>)
      requires Valid()
      modifies this`watchers, this`catchup, this`statuses
      ensures Valid() && catchup <= want.Keys && statuses.Keys <= want.Keys
      ensures watchers.Keys <= want.Keys && forall id | id in want :: Look(statuses, id) == Look(old(statuses), id)
      ensures Dropped(want, old(watchers), old(catchup), watchers, catchup, toStop, {})
    {
      toStop := [];
      ghost var before, flags := watchers, catchup;
      var ids := watchers.Keys;
      while ids != {}
        invariant Valid() && statuses == old(statuses) && Dropped(want, before, flags, watchers, catchup, toStop, ids)
        decreases |ids|
      {
        ghost var some := Sets.Pick(ids);
        var id :| id in ids;
        ghost var kept, flagged, stopping, left := watchers, catchup, toStop, ids;
        ids := ids - {id};
        if !Wanted(want, id, watchers[id].root) {
          toStop := toStop + [watchers[id]];
          watchers := watchers - {id};
          if id in want {
            catchup := catchup + {id};
          }
          DroppedOne(want, before, flags, kept, flagged, stopping, left, id);
        }
      }
      DroppedAll(want, before, flags, watchers, catchup, toStop);
      DropGone(want);
    }

    method DropGone(want: map<int, Library>)
      requires Valid() && watchers.Keys <= want.Keys
      modifies this`catchup, this`statuses
      ensures Valid() && catchup == old(catchup) * want.Keys && statuses.Keys == old(statuses).Keys * want.Keys
      ensures forall id | id in want :: Look(statuses, id) == Look(old(statuses), id)
    {
      var gone := set id | id in statuses && id !in want;
      statuses := statuses - gone;
      catchup := catchup - gone;
    }

    method StopEach(toStop: seq<Entry>)
      modifies this`retired
      ensures |retired| == |old(retired)| + |toStop| && old(retired) <= retired
      ensures forall e | e in toStop :: Halt(e) in retired
      ensures forall k | |old(retired)| <= k < |retired| :: retired[k] == Halt(toStop[k - |old(retired)|])
    {
      for i := 0 to |toStop|
        invariant |retired| == |old(retired)| + i && old(retired) <= retired
        invariant forall k | 0 <= k < i :: Halt(toStop[k]) in retired
        invariant forall k | |old(retired)| <= k < |retired| :: retired[k] == Halt(toStop[k - |old(retired)|])
      {
        retired := retired + [Halt(toStop[i])];
      }
    }

    /** Start a watcher, register it and pass it the catch-up flag; the flag stays if the start fails. */
    method Renew(lib: Library)
      requires Valid() && lib.id !in watchers && lib.ShouldWatch()
      modifies this`watchers, this`catchup, this`statuses, this`failedStarts
      ensures Valid() && statuses.Keys == old(statuses).Keys + {lib.id}
      ensures forall id | id != lib.id :: SameAt(old(Now()), Now(), id)
      ensures failedStarts == old(failedStarts) + if lib.id in watchers then 0 else 1
      ensures Renewed(old(Now()), Now(), lib)
    {
      var started: bool := *;
      if !started {
        var why: string := *;
        statuses := statuses[lib.id := "error: " + why];
        failedStarts := failedStarts + 1;
        return;
      }
      watchers := watchers[lib.id := Entry(lib.path, W.NewWatcher(lib.id))];
      var flagged := lib.id in catchup;
      catchup := catchup - {lib.id};
      if flagged {
        watchers := watchers[lib.id := watchers[lib.id].(w := W.Schedule(watchers[lib.id].w))];
      }
      var degraded: bool := *;
      statuses := statuses[lib.id := if degraded then "watch-limit" else "watching"];
    }

    ghost function Now(): Book
      reads this
    {
      Book(watchers, statuses, catchup)
    }

    /** The second loop's body for one library. Starting a watcher may fail. */
    method Visit(lib: Library)
      requires Valid() && Placed(watchers, lib)
      modifies this
      ensures Valid() && statuses.Keys <= old(statuses).Keys + {lib.id}
      ensures forall id | id != lib.id :: SameAt(old(Now()), Now(), id)
      ensures old(failedStarts) <= failedStarts && old(retired) <= retired
      ensures retired == old(retired) + if Unfit(old(watchers), lib) then [Halt(old(watchers)[lib.id])] else []
      ensures Visited(old(Now()), Now(), retired, failedStarts > old(failedStarts), lib)
    {
      if !lib.enabled {
        statuses := statuses[lib.id := "disabled"];
        return;
      }
      if !lib.watchable {
        statuses := statuses[lib.id := "polling"];
        return;
      }
      if lib.id in watchers {
        var existing := watchers[lib.id];
        if !W.Broken(existing.w) {
          return;
        }
        retired := retired + [Halt(existing)];
        watchers := watchers - {lib.id};
        catchup := catchup + {lib.id};
      }
      ghost var mid := Now();
      Renew(lib);
      forall id | id != lib.id ensures SameAt(old(Now()), Now(), id) {
        assert SameAt(mid, Now(), id);
      }
      RenewedIsVisited(old(Now()), mid, Now(), retired, failedStarts > old(failedStarts), lib);
    }

    /** The second loop. */
    method VisitAll(libs: seq<Library>)
      requires Valid() && Distinct(libs) && forall k | 0 <= k < |libs| :: Placed(watchers, libs[k])
      modifies this
      ensures Valid() && statuses.Keys <= old(statuses).Keys + IdsOf(libs)
      ensures old(failedStarts) <= failedStarts && old(retired) <= retired
      ensures OnlyRetirees(old(watchers), libs, |old(retired)|, retired)
      ensures AllVisited(old(Now()), Now(), retired, failedStarts > old(failedStarts), libs)
    {
      ghost var first := Now();
      var i := 0;
      while i < |libs|
        invariant 0 <= i <= |libs| && Valid() && statuses.Keys <= first.statuses.Keys + IdsOf(libs)
        invariant old(failedStarts) <= failedStarts && old(retired) <= retired
        invariant OnlyRetirees(first.watchers, libs, |old(retired)|, retired)
        invariant forall k | i <= k < |libs| :: SameAt(first, Now(), libs[k].id)
        invariant forall k | 0 <= k < i :: Visited(first, Now(), retired, failedStarts > old(failedStarts), libs[k])
      {
        ghost var last, stopped, failed := Now(), retired, failedStarts;
        Visit(libs[i]);
        forall k | i < k < |libs| ensures SameAt(first, Now(), libs[k].id) {
          assert SameAt(last, Now(), libs[k].id);
        }
        if Unfit(first.watchers, libs[i]) {
          UnfitRetires(first.watchers, libs, i);
        }
        VisitedSince(first, last, Now(), retired, failedStarts > failed, failedStarts > old(failedStarts), libs[i]);
        forall k | 0 <= k < i
          ensures Visited(first, Now(), retired, failedStarts > old(failedStarts), libs[k])
        {
          StillVisited(first, last, Now(), stopped, retired, failed > old(failedStarts), failedStarts > old(failedStarts), libs[k]);
        }
        i := i + 1;
      }
    }

    /** The first half of a pass. */
    method StopUnwanted(libs: seq<Library>) returns (ghost toStop: seq<Entry>)
      requires Valid() && Distinct(libs)
      modifies this`watchers, this`catchup, this`statuses, this`retired
      ensures Valid() && statuses.Keys <= IdsOf(libs)
      ensures StoppedHalf(libs, old(Now()), Now(), toStop, old(retired), retired)
    {
      var want := Wants(libs);
      var stopping := DropUnwanted(want);
      toStop := stopping;
      ghost var left := Now();
      StopEach(stopping);
      assert Requested(libs, want) && HalfWith(want, old(Now()), left, toStop, old(retired), retired);
    }

    /**
     One pass over the libraries ListLibraries returned. Afterwards every library
     that was owed a rescan has its catch-up flag or an armed timer, every
     registered watcher is wanted, alive and on its root, those that were so before
     are untouched, and all others have been stopped, and only those. If every
     start succeeded, every library to be watched has its watcher, and those that
     were owed a rescan have a timer armed and no flag.
     */
    method Reconcile(libs: seq<Library>)
      requires Valid() && Distinct(libs)
      modifies this
      ensures Valid() && watchers.Keys <= IdsOf(libs) && catchup <= IdsOf(libs) && statuses.Keys <= IdsOf(libs)
      ensures failedStarts >= old(failedStarts)
      ensures AllVisited(old(Now()), Now(), retired, failedStarts > old(failedStarts), libs)
      ensures AllRetired(old(watchers), libs, retired)
      ensures old(retired) <= retired && OnlyRetirees(old(watchers), libs, |old(retired)|, retired)
    {
      ghost var toStop := StopUnwanted(libs);
      ghost var left, stopped := Now(), retired;
      VisitAll(libs);
      BothHalves(libs, old(Now()), left, Now(), toStop, old(retired), stopped, retired, failedStarts > old(failedStarts));
    }
  }
}
