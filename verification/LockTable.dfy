/**
 KeyedMutex: a table of reference-counted locks, one per key, whose entries are
 deleted while other threads may still wait (internal/engine/engine.go).

 `Lock(key)` and the closure it returns consist of four critical steps. Each is
 a function on `Table`; the invariant is proved for every interleaving of the
 steps of any number of threads. Keys and lock objects are type parameters, so
 the same functions specify the heap-allocated objects of `KeyedMutex` below.
 */
module LockTable {

  datatype Stage =
    | Waiting  // inside Lock: counted in refs, blocked on the object's mutex
    | Holding  // Lock has returned
    | Leaving  // the object's mutex is released, refs not yet decremented

  datatype Ticket<+K, +O> = Ticket(key: K, obj: O, stage: Stage)

  /** `threads` holds a ticket for every thread between entry and exit. */
  datatype Table<!K(==), !O(==)> = Table(
    m: map<K, O>,
    refs: map<O, int>,
    owner: map<O, nat>,
    threads: map<nat, Ticket<K, O>>)

  ghost function EmptyTable<K, O>(): Table<K, O> {
    Table(map[], map[], map[], map[])
  }

  // ---- the four critical steps ----

  /** The object `Lock` picks: the mapped one, or the newly allocated `spare`. */
  function Pick<K, O>(s: Table<K, O>, key: K, spare: O): O {
    if key in s.m then s.m[key] else spare
  }

  ghost predicate CanEnter<K, O>(s: Table<K, O>, t: nat, key: K, spare: O) {
    && t !in s.threads
    && (key !in s.m ==> spare !in s.refs)
    && (key in s.m ==> s.m[key] in s.refs)
  }

  ghost function Enter<K, O>(s: Table<K, O>, t: nat, key: K, spare: O): Table<K, O>
    requires CanEnter(s, t, key, spare)
  {
    var o := Pick(s, key, spare);
    s.(m := s.m[key := o],
       refs := s.refs[o := (if o in s.refs then s.refs[o] else 0) + 1],
       threads := s.threads[t := Ticket(key, o, Waiting)])
  }

  ghost predicate At<K, O>(s: Table<K, O>, t: nat, stage: Stage) {
    t in s.threads && s.threads[t].stage == stage
  }

  ghost predicate CanAcquire<K, O>(s: Table<K, O>, t: nat) {
    At(s, t, Waiting) && s.threads[t].obj !in s.owner
  }

  ghost function Acquire<K, O>(s: Table<K, O>, t: nat): Table<K, O>
    requires CanAcquire(s, t)
  {
    s.(owner := s.owner[s.threads[t].obj := t],
       threads := s.threads[t := s.threads[t].(stage := Holding)])
  }

  ghost function Unlock<K, O>(s: Table<K, O>, t: nat): Table<K, O>
    requires At(s, t, Holding)
  {
    s.(owner := s.owner - {s.threads[t].obj},
       threads := s.threads[t := s.threads[t].(stage := Leaving)])
  }

  ghost predicate CanExit<K, O>(s: Table<K, O>, t: nat) {
    At(s, t, Leaving) && s.threads[t].obj in s.refs
  }

  /** Decrements refs and, at zero, deletes the table entry BY KEY. */
  ghost function Exit<K, O>(s: Table<K, O>, t: nat): Table<K, O>
    requires CanExit(s, t)
  {
    var o := s.threads[t].obj;
    var left := s.refs[o] - 1;
    s.(refs := s.refs[o := left],
       m := if left == 0 then s.m - {s.threads[t].key} else s.m,
       threads := s.threads - {t})
  }

  // ---- the invariant ----

  /** The threads between entry and exit on object o. */
  ghost function Users<K, O>(s: Table<K, O>, o: O): set<nat> {
    set t | t in s.threads && s.threads[t].obj == o
  }

  /** Every thread's object is the one in the table for its key. */
  ghost predicate InTable<K, O>(s: Table<K, O>) {
    forall t | t in s.threads :: s.threads[t].key in s.m && s.m[s.threads[t].key] == s.threads[t].obj
  }

  /** A mapped object is in use, and refs counts its users exactly. */
  ghost predicate Counted<K, O>(s: Table<K, O>) {
    forall k | k in s.m :: s.m[k] in s.refs && s.refs[s.m[k]] == |Users(s, s.m[k])| > 0
  }

  /** Distinct keys have distinct objects. */
  ghost predicate Separate<K, O>(s: Table<K, O>) {
    forall k, l | k in s.m && l in s.m && s.m[k] == s.m[l] :: k == l
  }

  /** A Holding thread owns its object's mutex. */
  ghost predicate HolderOwns<K, O>(s: Table<K, O>) {
    forall t | At(s, t, Holding) :: s.threads[t].obj in s.owner && s.owner[s.threads[t].obj] == t
  }

  /** A locked mutex is locked by a Holding thread on that object: none is orphaned. */
  ghost predicate OwnerHolds<K, O>(s: Table<K, O>) {
    forall o | o in s.owner :: At(s, s.owner[o], Holding) && s.threads[s.owner[o]].obj == o
  }

  ghost predicate Inv<K, O>(s: Table<K, O>) {
    InTable(s) && Counted(s) && Separate(s) && HolderOwns(s) && OwnerHolds(s)
  }

  /** A key other than the entering thread's keeps its count. */
  lemma EnterCountsOther<K, O>(s: Table<K, O>, t: nat, key: K, spare: O, k: K)
    requires InTable(s) && Counted(s) && Separate(s) && CanEnter(s, t, key, spare)
    requires k in s.m && k != key
    ensures Users(Enter(s, t, key, spare), s.m[k]) == Users(s, s.m[k])
    ensures s.m[k] != Pick(s, key, spare)
  {
  }

  lemma NewTicket<K, O>(s: Table<K, O>, s': Table<K, O>, t: nat, ticket: Ticket<K, O>)
    requires t !in s.threads && s'.threads == s.threads[t := ticket]
    ensures Users(s', ticket.obj) == Users(s, ticket.obj) + {t}
    ensures |Users(s', ticket.obj)| == |Users(s, ticket.obj)| + 1
  {
    assert Users(s', ticket.obj) == Users(s, ticket.obj) + {t};
  }

  lemma UnallocatedHasNoUser<K, O>(s: Table<K, O>, o: O)
    requires InTable(s) && Counted(s) && o !in s.refs
    ensures Users(s, o) == {}
  {
    forall t | t in s.threads ensures s.threads[t].obj != o {
      assert s.m[s.threads[t].key] in s.refs;
    }
  }

  lemma EnterCountsOwn<K, O>(s: Table<K, O>, t: nat, key: K, spare: O)
    requires InTable(s) && Counted(s) && CanEnter(s, t, key, spare)
    ensures var s', o := Enter(s, t, key, spare), Pick(s, key, spare);
            o in s'.refs && s'.refs[o] == |Users(s', o)| > 0
  {
    var o := Pick(s, key, spare);
    NewTicket(s, Enter(s, t, key, spare), t, Ticket(key, o, Waiting));
    if key !in s.m {
      UnallocatedHasNoUser(s, o);
    }
  }

  lemma EnterKeepsCount<K, O>(s: Table<K, O>, t: nat, key: K, spare: O)
    requires InTable(s) && Counted(s) && Separate(s) && CanEnter(s, t, key, spare)
    ensures Counted(Enter(s, t, key, spare))
  {
    var s' := Enter(s, t, key, spare);
    forall k | k in s'.m
      ensures s'.m[k] in s'.refs && s'.refs[s'.m[k]] == |Users(s', s'.m[k])| > 0
    {
      if k == key {
        EnterCountsOwn(s, t, key, spare);
      } else {
        EnterCountsOther(s, t, key, spare, k);
      }
    }
  }

  /** Entering and exiting change no holder. */
  lemma SameOwners<K, O>(s: Table<K, O>, s': Table<K, O>)
    requires HolderOwns(s) && OwnerHolds(s) && s'.owner == s.owner
    requires forall t | At(s, t, Holding) :: At(s', t, Holding) && s.threads[t] == s'.threads[t]
    requires forall t | At(s', t, Holding) :: At(s, t, Holding)
    ensures HolderOwns(s') && OwnerHolds(s')
  {
  }

  lemma EnterKeepsInv<K, O>(s: Table<K, O>, t: nat, key: K, spare: O)
    requires Inv(s) && CanEnter(s, t, key, spare)
    ensures Inv(Enter(s, t, key, spare))
  {
    EnterKeepsCount(s, t, key, spare);
    SameOwners(s, Enter(s, t, key, spare));
  }

  /** Two tables with the same threads on the same objects count alike. */
  lemma SameCount<K, O>(s: Table<K, O>, s': Table<K, O>)
    requires InTable(s) && Counted(s) && s.m == s'.m && s.refs == s'.refs
    requires s.threads.Keys == s'.threads.Keys
    requires forall t | t in s.threads :: s.threads[t].obj == s'.threads[t].obj && s.threads[t].key == s'.threads[t].key
    ensures InTable(s') && Counted(s')
  {
    forall k | k in s'.m
      ensures s'.m[k] in s'.refs && s'.refs[s'.m[k]] == |Users(s', s'.m[k])| > 0
    {
      assert Users(s', s.m[k]) == Users(s, s.m[k]);
    }
  }

  lemma AcquireKeepsOwner<K, O>(s: Table<K, O>, t: nat)
    requires HolderOwns(s) && OwnerHolds(s) && CanAcquire(s, t)
    ensures HolderOwns(Acquire(s, t)) && OwnerHolds(Acquire(s, t))
  {
    var s' := Acquire(s, t);
    forall u | At(s', u, Holding) ensures s'.threads[u].obj in s'.owner && s'.owner[s'.threads[u].obj] == u {
      if u != t {
        assert At(s, u, Holding);
      }
    }
    forall o | o in s'.owner ensures At(s', s'.owner[o], Holding) && s'.threads[s'.owner[o]].obj == o {
      if o != s.threads[t].obj {
        assert At(s, s.owner[o], Holding);
      }
    }
  }

  lemma AcquireKeepsInv<K, O>(s: Table<K, O>, t: nat)
    requires Inv(s) && CanAcquire(s, t)
    ensures Inv(Acquire(s, t))
  {
    SameCount(s, Acquire(s, t));
    AcquireKeepsOwner(s, t);
  }

  lemma UnlockKeepsOwner<K, O>(s: Table<K, O>, t: nat)
    requires HolderOwns(s) && OwnerHolds(s) && At(s, t, Holding)
    ensures HolderOwns(Unlock(s, t)) && OwnerHolds(Unlock(s, t))
  {
    var s' := Unlock(s, t);
    forall u | At(s', u, Holding) ensures s'.threads[u].obj in s'.owner && s'.owner[s'.threads[u].obj] == u {
      assert At(s, u, Holding);
    }
    forall o | o in s'.owner ensures At(s', s'.owner[o], Holding) && s'.threads[s'.owner[o]].obj == o {
      assert At(s, s.owner[o], Holding);
    }
  }

  lemma UnlockKeepsInv<K, O>(s: Table<K, O>, t: nat)
    requires Inv(s) && At(s, t, Holding)
    ensures Inv(Unlock(s, t))
  {
    SameCount(s, Unlock(s, t));
    UnlockKeepsOwner(s, t);
  }

  lemma DroppedTicket<K, O>(s: Table<K, O>, s': Table<K, O>, t: nat)
    requires t in s.threads && s'.threads == s.threads - {t}
    ensures Users(s', s.threads[t].obj) == Users(s, s.threads[t].obj) - {t}
    ensures |Users(s', s.threads[t].obj)| == |Users(s, s.threads[t].obj)| - 1
    ensures forall o | o != s.threads[t].obj :: Users(s', o) == Users(s, o)
  {
    var o := s.threads[t].obj;
    assert t in Users(s, o);
    assert Users(s', o) == Users(s, o) - {t};
  }

  /** At refs zero the deletion by key removes the leaving thread's own object, unused by anyone else. */
  lemma DeletionIsSafe<K, O>(s: Table<K, O>, t: nat, u: nat)
    requires InTable(s) && Counted(s) && CanExit(s, t) && u in s.threads && u != t
    requires s.refs[s.threads[t].obj] == 1
    ensures s.threads[u].obj != s.threads[t].obj && s.threads[u].key != s.threads[t].key
  {
    DroppedTicket(s, Exit(s, t), t);
    var left := Users(Exit(s, t), s.threads[t].obj);
    assert |left| == 0 && u !in left;
  }

  lemma ExitKeepsTable<K, O>(s: Table<K, O>, t: nat)
    requires InTable(s) && Counted(s) && CanExit(s, t)
    ensures InTable(Exit(s, t))
  {
    var s' := Exit(s, t);
    forall u | u in s'.threads
      ensures s'.threads[u].key in s'.m && s'.m[s'.threads[u].key] == s'.threads[u].obj
    {
      if s.refs[s.threads[t].obj] == 1 {
        DeletionIsSafe(s, t, u);
      }
    }
  }

  lemma ExitKeepsCount<K, O>(s: Table<K, O>, t: nat)
    requires InTable(s) && Counted(s) && Separate(s) && CanExit(s, t)
    ensures Counted(Exit(s, t))
  {
    var s', key := Exit(s, t), s.threads[t].key;
    DroppedTicket(s, s', t);
    forall k | k in s'.m
      ensures s'.m[k] in s'.refs && s'.refs[s'.m[k]] == |Users(s', s'.m[k])| > 0
    {
      assert s'.m[k] == s.m[k] && (s.m[k] == s.m[key] ==> k == key);
    }
  }

  lemma ExitKeepsInv<K, O>(s: Table<K, O>, t: nat)
    requires Inv(s) && CanExit(s, t)
    ensures Inv(Exit(s, t))
  {
    ExitKeepsTable(s, t);
    ExitKeepsCount(s, t);
    SameOwners(s, Exit(s, t));
  }

  // ---- every run ----

  datatype Step<+K, +O> =
    | EnterStep(t: nat, key: K, spare: O)
    | AcquireStep(t: nat)
    | UnlockStep(t: nat)
    | ExitStep(t: nat)

  ghost predicate Enabled<K, O>(s: Table<K, O>, step: Step<K, O>) {
    match step
    case EnterStep(t, key, spare) => CanEnter(s, t, key, spare)
    case AcquireStep(t) => CanAcquire(s, t)
    case UnlockStep(t) => At(s, t, Holding)
    case ExitStep(t) => CanExit(s, t)
  }

  ghost function Apply<K, O>(s: Table<K, O>, step: Step<K, O>): Table<K, O>
    requires Enabled(s, step)
  {
    match step
    case EnterStep(t, key, spare) => Enter(s, t, key, spare)
    case AcquireStep(t) => Acquire(s, t)
    case UnlockStep(t) => Unlock(s, t)
    case ExitStep(t) => Exit(s, t)
  }

  /** `steps` can be taken one after the other from s, ending in `last`. */
  ghost predicate Run<K, O>(s: Table<K, O>, steps: seq<Step<K, O>>, last: Table<K, O>)
    decreases |steps|
  {
    if steps == [] then last == s
    else Enabled(s, steps[0]) && Run(Apply(s, steps[0]), steps[1..], last)
  }

  lemma ApplyKeepsInv<K, O>(s: Table<K, O>, step: Step<K, O>)
    requires Inv(s) && Enabled(s, step)
    ensures Inv(Apply(s, step))
  {
    match step
    case EnterStep(t, key, spare) => EnterKeepsInv(s, t, key, spare);
    case AcquireStep(t) => AcquireKeepsInv(s, t);
    case UnlockStep(t) => UnlockKeepsInv(s, t);
    case ExitStep(t) => ExitKeepsInv(s, t);
  }

  lemma {:induction false} RunKeepsInv<K, O>(s: Table<K, O>, steps: seq<Step<K, O>>, last: Table<K, O>)
    requires Inv(s) && Run(s, steps, last)
    ensures Inv(last)
    decreases |steps|
  {
    if steps != [] {
      ApplyKeepsInv(s, steps[0]);
      RunKeepsInv(Apply(s, steps[0]), steps[1..], last);
    }
  }

  lemma MappedKeyHasUser<K, O>(s: Table<K, O>, key: K)
    requires Inv(s) && key in s.m
    ensures exists t :: t in s.threads && s.threads[t].obj == s.m[key]
  {
    var t :| t in Users(s, s.m[key]);
  }

  /** A thread alone on its key: Lock lets it through at once, and unlock leaves no trace but the spent object. */
  lemma AlonePasses<K, O>(s: Table<K, O>, t: nat, key: K, spare: O)
    requires t !in s.threads && key !in s.m && spare !in s.refs && spare !in s.owner
    ensures CanEnter(s, t, key, spare) && CanAcquire(Enter(s, t, key, spare), t)
    ensures var held := Acquire(Enter(s, t, key, spare), t);
            && At(held, t, Holding) && CanExit(Unlock(held, t), t)
            && Exit(Unlock(held, t), t) == s.(refs := s.refs[spare := 0])
  {
    var held := Acquire(Enter(s, t, key, spare), t);
    assert held.threads[t].obj == spare && held.refs[spare] == 1;
    var last := Exit(Unlock(held, t), t);
    assert last.m == s.m;
    assert last.refs == s.refs[spare := 0];
    assert last.owner == s.owner;
    assert last.threads == s.threads;
  }

  /** Whoever waits in Lock can go on exactly when no thread holds that key. */
  lemma WaitsExactly<K, O>(s: Table<K, O>, u: nat)
    requires Inv(s) && At(s, u, Waiting)
    ensures CanAcquire(s, u) <==> forall t | At(s, t, Holding) :: s.threads[t].key != s.threads[u].key
  {
    var o := s.threads[u].obj;
    forall t | At(s, t, Holding) && s.threads[t].key == s.threads[u].key ensures o in s.owner {
      assert s.threads[t].obj == s.m[s.threads[u].key];
    }
    if o in s.owner {
      var t := s.owner[o];
      assert At(s, t, Holding) && s.m[s.threads[t].key] == s.m[s.threads[u].key];
    }
  }

  /** Two threads never hold the same key at once. */
  lemma MutualExclusion<K, O>(s: Table<K, O>, t: nat, u: nat)
    requires Inv(s) && At(s, t, Holding) && At(s, u, Holding)
    requires s.threads[t].key == s.threads[u].key
    ensures t == u
  {
    assert s.threads[t].obj == s.threads[u].obj;
  }

  /**
   The main result: after any interleaving of any threads' steps, refs equals
   the number of threads between entry and exit on the object, each of them
   uses the object in the table for its key, same-key holders exclude each
   other, and with nobody inside the table is empty.
   */
  lemma KeyedMutexIsSafe<K, O>(steps: seq<Step<K, O>>, s: Table<K, O>)
    requires Run(EmptyTable<K, O>(), steps, s)
    ensures forall t | t in s.threads ::
              var o := s.threads[t].obj;
              s.threads[t].key in s.m && s.m[s.threads[t].key] == o && o in s.refs && s.refs[o] == |Users(s, o)|
    ensures forall t, u | At(s, t, Holding) && At(s, u, Holding) && s.threads[t].key == s.threads[u].key :: t == u
    ensures s.threads == map[] ==> s.m == map[]
    // no thread that left the critical section is ever stuck before its exit
    ensures forall t | At(s, t, Leaving) :: CanExit(s, t)
  {
    RunKeepsInv(EmptyTable<K, O>(), steps, s);
    forall t, u | At(s, t, Holding) && At(s, u, Holding) && s.threads[t].key == s.threads[u].key
      ensures t == u
    {
      MutualExclusion(s, t, u);
    }
    if s.threads == map[] {
      forall k ensures k !in s.m {
        if k in s.m {
          MappedKeyHasUser(s, k);
        }
      }
    }
  }

  // ---- the objects themselves ----

  /** Every object mapped, used or locked has been allocated. */
  ghost predicate Allocated<K, O>(s: Table<K, O>) {
    && s.m.Values <= s.refs.Keys
    && s.owner.Keys <= s.refs.Keys
    && forall t | t in s.threads :: s.threads[t].obj in s.refs
  }

  class RefMutex {
    var refs: int
    var locked: bool

    constructor ()
      ensures refs == 0 && !locked
    {
      refs, locked := 0, false;
    }
  }

  /**
   The lock table over heap objects. Each method is one critical step; t names
   the calling thread. The ghost field `table` is the abstract table; `Valid`
   ties it to the real map, reference counts and mutexes. Any sequence of calls
   is a run of the table, so `KeyedMutexIsSafe` applies to it.
   */
  class KeyedMutex {
    var m: map<string, RefMutex>
    ghost var table: Table<string, RefMutex>

    ghost predicate Valid()
      reads this, table.refs.Keys
    {
      && Allocated(table)
      && m == table.m
      && forall o | o in table.refs :: o.refs == table.refs[o] && (o.locked <==> o in table.owner)
    }

    constructor ()
      ensures Valid() && table == EmptyTable()
    {
      m, table := map[], EmptyTable();
    }

    method EnterTable(ghost t: nat, key: string) returns (rm: RefMutex)
      requires Valid() && t !in table.threads
      modifies this, table.refs.Keys
      ensures Valid() && CanEnter(old(table), t, key, rm) && table == Enter(old(table), t, key, rm)
      ensures table.threads[t] == Ticket(key, rm, Waiting)
      ensures key !in old(m) ==> fresh(rm)
    {
      if key in m {
        rm := m[key];
        assert rm in m.Values;
      } else {
        rm := new RefMutex();
        m := m[key := rm];
      }
      rm.refs := rm.refs + 1;
      table := Enter(table, t, key, rm);
    }

    method LockObject(ghost t: nat, rm: RefMutex)
      requires Valid() && At(table, t, Waiting) && table.threads[t].obj == rm
      requires !rm.locked  // sync.Mutex blocks the caller until this holds
      modifies this`table, rm`locked
      ensures Valid() && CanAcquire(old(table), t) && table == Acquire(old(table), t)
    {
      rm.locked := true;
      table := Acquire(table, t);
    }

    method UnlockObject(ghost t: nat, rm: RefMutex)
      requires Valid() && At(table, t, Holding) && table.threads[t].obj == rm
      modifies this`table, rm`locked
      ensures Valid() && table == Unlock(old(table), t)
    {
      rm.locked := false;
      table := Unlock(table, t);
    }

    method ExitTable(ghost t: nat, key: string, rm: RefMutex)
      requires Valid() && At(table, t, Leaving) && table.threads[t] == Ticket(key, rm, Leaving)
      modifies this, rm`refs
      ensures Valid() && CanExit(old(table), t) && table == Exit(old(table), t)
    {
      rm.refs := rm.refs - 1;
      if rm.refs == 0 {
        m := m - {key};
      }
      table := Exit(table, t);
    }
  }
}
