/**
 What the visit of one video does to the catalogue: unless a call about it fails
 or another call takes the row away, its row ends up with the file's size and
 modification time and the probe of its contents, whatever the row was before
 and whatever other calls do meanwhile; and every visit can be completed so.
 */
module ScanResults {
  import opened Wrappers
  import opened Catalogue
  import opened ScanProtocol
  import Sets

  /** The path's row has this version's size and modification time, and a probe. */
  ghost predicate Current(m: Media<Reading>, path: string, fp: Fingerprint) {
    exists id :: CurrentAt(m, id, path, fp)
  }

  ghost predicate CurrentAt(m: Media<Reading>, id: int, path: string, fp: Fingerprint) {
    id in m.rows && m.rows[id].path == path && m.rows[id].fp == fp && m.rows[id].probe.Some?
  }

  ghost predicate Shows(s: State, path: string, fp: Fingerprint) {
    path in s.disk && s.disk[path] == fp
  }

  ghost predicate About(stage: Stage, path: string) {
    !stage.Idle? && stage.path == path
  }

  ghost predicate Fails(action: Action) {
    action.LookupFails? || action.ProbeFails? || action.UpsertFails?
  }

  /**
   Call t does not stop, nor does it go past its loop, and nothing it does about
   the path fails; others leave the file and, once it is current, its row alone.
   */
  ghost predicate Lets(s: State, step: Step, t: nat, path: string, fp: Fingerprint)
    requires Enabled(s, step)
  {
    if step.Act? && step.t == t then
      !step.action.Stop? && !step.action.GetLibrary? && (About(s.threads[t].stage, path) ==> !Fails(step.action))
    else
      && Shows(Apply(s, step), path, fp)
      && (Current(s.media, path, fp) ==> Current(Apply(s, step).media, path, fp))
  }

  ghost predicate RunLets(s: State, steps: seq<Step>, t: nat, path: string, fp: Fingerprint)
    decreases |steps|
  {
    steps == [] || (Enabled(s, steps[0]) && Lets(s, steps[0], t, path, fp)
                    && RunLets(Apply(s, steps[0]), steps[1..], t, path, fp))
  }

  /** What the call has in hand about the path, it has from this version of the file. */
  ghost predicate InHandIs(stage: Stage, path: string, fp: Fingerprint) {
    match stage
    case Started(p, info) => p == path ==> info == fp
    case Probing(p, known, info, torn) => p == path ==> info == fp
    case Upserting(p, known, info, result) => p == path ==> info == fp
    case _ => true
  }

  ghost predicate Pending(th: Thread, path: string) {
    path in th.todo || ((th.stage.Started? || th.stage.Probing? || th.stage.Upserting?) && th.stage.path == path)
  }

  ghost predicate Pursued(s: State, t: nat, path: string, fp: Fingerprint) {
    && Shows(s, path, fp) && t in s.threads
    && var th := s.threads[t];
       && th.phase.Visiting?
       && (path in th.todo ==> th.todo[path] == fp) && InHandIs(th.stage, path, fp)
       && (Current(s.media, path, fp) || Pending(th, path))
  }

  lemma TouchKeepsCurrent(m: Media<Reading>, k: int, nlink: nat, summary: string, stamp: int, path: string, fp: Fingerprint)
    requires Current(m, path, fp)
    ensures Current(Touch(m, k, nlink, summary, stamp), path, fp)
  {
    var id :| CurrentAt(m, id, path, fp);
    assert CurrentAt(Touch(m, k, nlink, summary, stamp), id, path, fp);
  }

  lemma UpsertMakesCurrent(m: Media<Reading>, k: int, new_: Row<Reading>, path: string, fp: Fingerprint)
    requires UpsertId(m.rows, k, new_.path) && new_.probe.Some?
    requires if new_.path == path then new_.fp == fp else Current(m, path, fp)
    ensures Current(Upsert(m, k, new_), path, fp)
  {
    if new_.path == path {
      assert CurrentAt(Upsert(m, k, new_), k, path, fp);
    } else {
      var id :| CurrentAt(m, id, path, fp);
      assert CurrentAt(Upsert(m, k, new_), id, path, fp);
    }
  }

  lemma OwnUpsertPursues(s: State, t: nat, action: Action, path: string, fp: Fingerprint)
    requires Pursued(s, t, path, fp) && Enabled(s, Act(t, action)) && Lets(s, Act(t, action), t, path, fp)
    requires action.UpsertRow?
    ensures Pursued(Apply(s, Act(t, action)), t, path, fp)
  {
    var th := s.threads[t];
    if Current(s.media, path, fp) || th.stage.path == path {
      UpsertMakesCurrent(s.media, action.id, NewRow(th, action.nlink, action.summary), path, fp);
    }
  }

  lemma OwnTouchPursues(s: State, t: nat, action: Action, path: string, fp: Fingerprint)
    requires Pursued(s, t, path, fp) && Enabled(s, Act(t, action)) && Lets(s, Act(t, action), t, path, fp)
    requires action.TouchRow?
    ensures Pursued(Apply(s, Act(t, action)), t, path, fp)
  {
    var th := s.threads[t];
    if Current(s.media, path, fp) {
      TouchKeepsCurrent(s.media, th.stage.id, action.nlink, action.summary, th.stamp, path, fp);
    }
  }

  lemma OwnLookupPursues(s: State, t: nat, action: Action, path: string, fp: Fingerprint)
    requires Pursued(s, t, path, fp) && Enabled(s, Act(t, action)) && Lets(s, Act(t, action), t, path, fp)
    requires action.LookupFinds?
    ensures Pursued(Apply(s, Act(t, action)), t, path, fp)
  {
    var stage := s.threads[t].stage;
    assert CurrentAt(s.media, action.id, stage.path, stage.info) <==>
             s.media.rows[action.id].probe.Some? && s.media.rows[action.id].fp == stage.info;
  }

  lemma OwnQuietStepPursues(s: State, t: nat, action: Action, path: string, fp: Fingerprint)
    requires Pursued(s, t, path, fp) && Enabled(s, Act(t, action)) && Lets(s, Act(t, action), t, path, fp)
    requires !action.UpsertRow? && !action.TouchRow? && !action.LookupFinds?
    ensures Pursued(Apply(s, Act(t, action)), t, path, fp)
  {
    assert TableAfter(s, s.threads[t], action) == s.media;
  }

  lemma OwnStepPursues(s: State, t: nat, action: Action, path: string, fp: Fingerprint)
    requires Pursued(s, t, path, fp) && Enabled(s, Act(t, action)) && Lets(s, Act(t, action), t, path, fp)
    ensures Pursued(Apply(s, Act(t, action)), t, path, fp)
  {
    if action.UpsertRow? {
      OwnUpsertPursues(s, t, action, path, fp);
    } else if action.TouchRow? {
      OwnTouchPursues(s, t, action, path, fp);
    } else if action.LookupFinds? {
      OwnLookupPursues(s, t, action, path, fp);
    } else {
      OwnQuietStepPursues(s, t, action, path, fp);
    }
  }

  lemma OtherStepPursues(s: State, step: Step, t: nat, path: string, fp: Fingerprint)
    requires Pursued(s, t, path, fp) && Enabled(s, step) && Lets(s, step, t, path, fp) && !(step.Act? && step.t == t)
    ensures Pursued(Apply(s, step), t, path, fp)
  {
    var th, th' := s.threads[t], Apply(s, step).threads[t];
    assert th' == th || exists p :: th' == Disturb(th, p);
  }

  lemma {:induction false} RunPursues(s: State, steps: seq<Step>, last: State, t: nat, path: string, fp: Fingerprint)
    requires Pursued(s, t, path, fp) && Run(s, steps, last) && RunLets(s, steps, t, path, fp)
    ensures Pursued(last, t, path, fp)
    decreases |steps|
  {
    if steps != [] {
      if steps[0].Act? && steps[0].t == t {
        OwnStepPursues(s, t, steps[0].action, path, fp);
      } else {
        OtherStepPursues(s, steps[0], t, path, fp);
      }
      RunPursues(Apply(s, steps[0]), steps[1..], last, t, path, fp);
    }
  }

  /**
   From the moment a call has a video still to visit, with the size and
   modification time the file has: once it is done with the video, the
   catalogue has a row for the path with just these, and the probe of its
   contents.
   */
  lemma VisitedIsCurrent(s: State, steps: seq<Step>, last: State, t: nat, path: string)
    requires Reachable(s) && t in s.threads && s.threads[t].phase.Visiting? && path in s.threads[t].todo
    requires Shows(s, path, s.threads[t].todo[path]) && !About(s.threads[t].stage, path)
    requires Run(s, steps, last) && RunLets(s, steps, t, path, s.threads[t].todo[path])
    ensures t in last.threads && path in last.disk && last.disk[path] == s.disk[path]
    ensures path !in last.threads[t].todo && !About(last.threads[t].stage, path) ==>
              exists id :: id in last.media.rows && last.media.rows[id].path == path
                           && last.media.rows[id].fp == s.disk[path] && last.media.rows[id].probe == Some(Of(s.disk[path]))
  {
    var fp := s.disk[path];
    RunPursues(s, steps, last, t, path, fp);
    if path !in last.threads[t].todo && !About(last.threads[t].stage, path) {
      ReachableInv(s);
      RunInv(s, steps, last);
      var id :| CurrentAt(last.media, id, path, fp);
      assert last.media.rows[id].probe == Some(Of(fp));
    }
  }

  // ---- a visit can be completed ----

  ghost function Rank(stage: Stage): nat {
    match stage
    case Idle => 0
    case Started(p, info) => 4
    case Probing(p, known, info, torn) => 3
    case Upserting(p, known, info, result) => 2
    case Touching(p, id) => 2
    case Linking(p, id) => 1
  }

  lemma SomeUpsertId(m: Media<Reading>, path: string) returns (id: int)
    ensures UpsertId(m.rows, id, path)
  {
    if k :| HasPath(m.rows, k, path) {
      id := k;
    } else if m.rows == map[] {
      id := 1;
    } else {
      Sets.Greatest(m.rows.Keys);
      var last :| last in m.rows && forall k | k in m.rows :: k <= last;
      id := last + 1;
      forall k | k in m.rows ensures m.rows[k].path != path {
        assert !HasPath(m.rows, k, path);
      }
    }
  }

  lemma NextAction(s: State, t: nat, path: string) returns (action: Action)
    requires t in s.threads && s.threads[t].phase.Visiting? && About(s.threads[t].stage, path) && path in s.disk
    ensures CanAct(s, s.threads[t], action) && !Fails(action) && !action.Stop? && !action.GetLibrary?
    ensures var th, th' := s.threads[t], ThreadAfter(s, s.threads[t], action);
            Rank(th'.stage) < Rank(th.stage) && th'.todo == th.todo && (th'.stage.Idle? || About(th'.stage, path))
  {
    match s.threads[t].stage
    case Started(p, info) =>
      if id :| HasPath(s.media.rows, id, p) {
        action := LookupFinds(id, false);
      } else {
        action := LookupMisses;
        forall k | k in s.media.rows ensures s.media.rows[k].path != p {
          assert !HasPath(s.media.rows, k, p);
        }
      }
    case Probing(p, known, info, torn) => action := ProbeEnds(Of(s.disk[p]));
    case Upserting(p, known, info, result) =>
      var id := SomeUpsertId(s.media, p);
      action := UpsertRow(id, 1, "");
    case Touching(p, id) => action := TouchRow(1, "");
    case Linking(p, id) => action := Link(true);
  }

  /** The call alone can finish the visit it is at, with nothing failing, and the file is then current. */
  lemma {:induction false} VisitCompletes(s: State, t: nat, path: string, fp: Fingerprint)
    returns (steps: seq<Step>, last: State)
    requires Pursued(s, t, path, fp) && About(s.threads[t].stage, path) && path !in s.threads[t].todo
    ensures Run(s, steps, last) && RunLets(s, steps, t, path, fp) && |steps| <= 4
    ensures forall k | 0 <= k < |steps| :: steps[k].Act? && steps[k].t == t
    ensures t in last.threads && last.threads[t].stage.Idle? && last.threads[t].todo == s.threads[t].todo
    ensures Current(last.media, path, fp)
    ensures |steps| <= Rank(s.threads[t].stage)
    decreases Rank(s.threads[t].stage)
  {
    var action := NextAction(s, t, path);
    var step := Act(t, action);
    var s' := Apply(s, step);
    OwnStepPursues(s, t, action, path, fp);
    var rest: seq<Step>;
    if s'.threads[t].stage.Idle? {
      rest, last := [], s';
    } else {
      rest, last := VisitCompletes(s', t, path, fp);
    }
    steps := [step] + rest;
    assert steps[1..] == rest;
  }
}
