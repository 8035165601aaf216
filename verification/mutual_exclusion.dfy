/**
 Mutual exclusion: in a program whose SYNC_LEAVE calls match its SYNC_ENTER calls, two tasks are never
 inside regions that share a lock.

 An automatic region is opened by a successful SYNC_ENTER of mode 0 and closed by the SYNC_LEAVE of the
 same locks; `open` lists the open ones of each task, the innermost last. The regions of LOCK statements
 are the entries of the task's explicit stack.
 */
module MutualExclusion {
  import opened Basics
  import opened LockTable
  import opened LockAccounting
  import opened LockSteps
  import opened TaskPool
  import opened Runtime
  import opened Invariants
  import opened UserSteps
  import opened Runs
  import opened LockFrames

  type Regions = map<nat, seq<seq<nat>>>

  function OpenOf(open: Regions, key: nat): seq<seq<nat>> {
    if key in open then open[key] else []
  }

  // How often the open automatic regions of `key` name the lock.
  function Enclosing(open: Regions, key: nat, id: nat): nat {
    Count(Flat(OpenOf(open, key)), id)
  }

  // The depth of each lock is the number of open automatic regions around its owner.
  ghost predicate AutoOk(t: Table, open: Regions) {
    forall k: nat, id: nat :: Enclosing(open, k, id) == if Owner(t, id) == k then Rec(t, id).autoDepth else 0
  }

  // ---------------------------------------------------------------- the regions over a run

  function Opened(open: Regions, key: nat, ids: seq<nat>): Regions {
    open[key := OpenOf(open, key) + [ids]]
  }

  function Closed(open: Regions, key: nat): Regions
    requires OpenOf(open, key) != []
  {
    open[key := OpenOf(open, key)[..|OpenOf(open, key)| - 1]]
  }

  function EnterRegions(open: Regions, t: Table, key: nat, ids: seq<nat>, explicitly: bool): Regions {
    if !explicitly && Enter(t, key, ids, explicitly).Entered? then Opened(open, key, ids) else open
  }

  // What a step does to the open automatic regions.
  function RegionsAfter(s: State, open: Regions, i: nat, a: Action): Regions
    requires CanStep(s, i, a)
  {
    var th := s.threads[i];
    if th.stack == [] then open
    else
      var key := Cur(th);
      match th.pc
      case User =>
        (match a
         case SyncEnter(ids, ex) => EnterRegions(open, s.table, key, Ordered(ids), ex)
         case SyncLeave(_) => if OpenOf(open, key) != [] then Closed(open, key) else open
         case Shutdown(_) => open - {key}
         case _ => open)
      case LockWoken(ids, ex) => EnterRegions(open, s.table.(edges := s.table.edges - {key}), key, ids, ex)
      case Returned(_) => open - {key}
      case _ => open
  }

  // A SYNC_LEAVE closes the innermost open automatic region of its task.
  predicate Matched(s: State, open: Regions, i: nat, a: Action)
    requires CanStep(s, i, a)
  {
    s.threads[i].pc.User? && a.SyncLeave? ==>
      var regions := OpenOf(open, Cur(s.threads[i]));
      regions != [] && regions[|regions| - 1] == Ordered(a.ids)
  }

  // ---------------------------------------------------------------- tables

  lemma EdgesKeepAuto(t: Table, u: Table, open: Regions)
    requires AutoOk(t, open) && u.locks == t.locks
    ensures AutoOk(u, open)
  {
    forall k: nat, id: nat
      ensures Enclosing(open, k, id) == if Owner(u, id) == k then Rec(u, id).autoDepth else 0
    {
      assert Rec(u, id) == Rec(t, id);
    }
  }

  lemma LastIsNew(ids: seq<nat>)
    requires Increasing(ids) && ids != []
    ensures var n := |ids| - 1;
            ids[n] !in ids[..n] && forall id: nat :: id in ids <==> id in ids[..n] || id == ids[n]
  {
    assert ids == ids[..|ids| - 1] + [ids[|ids| - 1]];
  }

  lemma SingleCount(ids: seq<nat>, id: nat)
    requires Increasing(ids)
    ensures Count(ids, id) == if id in ids then 1 else 0
  {
    if ids != [] {
      var n := |ids| - 1;
      SingleCount(ids[..n], id);
      LastIsNew(ids);
    }
  }

  lemma OpenedCounts(open: Regions, key: nat, ids: seq<nat>, k: nat, id: nat)
    requires Increasing(ids)
    ensures Enclosing(Opened(open, key, ids), k, id)
            == Enclosing(open, k, id) + if k == key && id in ids then 1 else 0
  {
    FlatAppend(OpenOf(open, key), ids);
    CountAppend(Flat(OpenOf(open, key)), ids, id);
    SingleCount(ids, id);
  }

  lemma ClosedCounts(open: Regions, key: nat, ids: seq<nat>, k: nat, id: nat)
    requires Increasing(ids) && OpenOf(open, key) != [] && OpenOf(open, key)[|OpenOf(open, key)| - 1] == ids
    ensures Enclosing(open, k, id)
            == Enclosing(Closed(open, key), k, id) + if k == key && id in ids then 1 else 0
  {
    var regions := OpenOf(open, key);
    assert regions == regions[..|regions| - 1] + [ids];
    OpenedCounts(Closed(open, key), key, ids, k, id);
    assert OpenOf(Opened(Closed(open, key), key, ids), key) == regions;
  }

  lemma EnterKeepsAuto(t: Table, open: Regions, key: nat, ids: seq<nat>, explicitly: bool)
    requires TableOk(t) && AutoOk(t, open) && Increasing(ids)
    ensures var r := Enter(t, key, ids, explicitly);
            && (r.Entered? ==> AutoOk(r.t, EnterRegions(open, t, key, ids, explicitly)))
            && (r.Blocked? ==> AutoOk(r.t, open))
  {
    var r := Enter(t, key, ids, explicitly);
    EnterTakesAllOrNone(t, key, ids, explicitly);
    if r.Entered? {
      var after := EnterRegions(open, t, key, ids, explicitly);
      forall k: nat, id: nat
        ensures Enclosing(after, k, id) == if Owner(r.t, id) == k then Rec(r.t, id).autoDepth else 0
      {
        OpenedCounts(open, key, ids, k, id);
        assert Enclosing(open, k, id) == if Owner(t, id) == k then Rec(t, id).autoDepth else 0;
        EnteredRecord(t, key, ids, explicitly, id);
      }
    } else if r.Blocked? {
      BlockedEnterIsNoOp(t, key, ids, explicitly);
      forall k: nat, id: nat
        ensures Enclosing(open, k, id) == if Owner(r.t, id) == k then Rec(r.t, id).autoDepth else 0
      {
        assert Rec(r.t, id) == Rec(t, id);
      }
    }
  }

  // A lock that was taken was free or the task's own before.
  lemma EnteredRecord(t: Table, key: nat, ids: seq<nat>, explicitly: bool, id: nat)
    requires TableOk(t) && Increasing(ids) && Enter(t, key, ids, explicitly).Entered?
    ensures Rec(Enter(t, key, ids, explicitly).t, id)
            == if id in ids then Deeper(Rec(t, id), key, explicitly) else Rec(t, id)
    ensures id in ids ==> (Owner(t, id) == -1 && Rec(t, id).autoDepth == 0) || Owner(t, id) == key
  {
    EnterTakesAllOrNone(t, key, ids, explicitly);
    if id in ids {
      var j :| 0 <= j < |ids| && ids[j] == id;
      assert Takable(Rec(t, ids[j]), key, explicitly);
      assert RecOk(Rec(t, id));
    }
  }

  // ---------------------------------------------------------------- SYNC_LEAVE

  function Shallower(r: LockRec): LockRec
    requires r.autoDepth > 0
  {
    var left := r.(autoDepth := r.autoDepth - 1);
    if left.autoDepth == 0 && left.explicitDepth == 0 then left.(owner := -1) else left
  }

  lemma LeaveOne(t: Table, key: nat, one: nat, id: nat)
    requires Owner(t, one) == key && Rec(t, one).autoDepth > 0
    ensures var r := Release(t, key, one, false);
            r.Ok? && Rec(r.t, id) == if id == one then Shallower(Rec(t, id)) else Rec(t, id)
  {
  }

  lemma {:induction false} LeaveReleases(t: Table, key: nat, ids: seq<nat>, id: nat)
    requires Increasing(ids)
    requires forall one :: one in ids ==> Owner(t, one) == key && Rec(t, one).autoDepth > 0
    ensures var r := ReleaseReversed(t, key, ids, false);
            r.Ok? && Rec(r.t, id) == if id in ids then Shallower(Rec(t, id)) else Rec(t, id)
    decreases |ids|
  {
    if ids != [] {
      var n := |ids| - 1;
      LastIsNew(ids);
      LeaveOne(t, key, ids[n], id);
      var u := Release(t, key, ids[n], false).t;
      forall one | one in ids[..n] ensures Owner(u, one) == key && Rec(u, one).autoDepth > 0 {
        LeaveOne(t, key, ids[n], one);
      }
      LeaveReleases(u, key, ids[..n], id);
    }
  }

  // A matching SYNC_LEAVE never reports an internal error, and closes exactly its region.
  lemma LeaveKeepsAuto(t: Table, open: Regions, key: nat, ids: seq<nat>)
    requires TableOk(t) && AutoOk(t, open) && Increasing(ids)
    requires OpenOf(open, key) != [] && OpenOf(open, key)[|OpenOf(open, key)| - 1] == ids
    ensures var r := ReleaseReversed(t, key, ids, false);
            r.Ok? && AutoOk(r.t, Closed(open, key))
  {
    forall one | one in ids ensures Owner(t, one) == key && Rec(t, one).autoDepth > 0 {
      ClosedCounts(open, key, ids, key, one);
      assert Enclosing(open, key, one) > 0;
    }
    LeaveReleases(t, key, ids, 0);
    var u := ReleaseReversed(t, key, ids, false).t;
    forall k: nat, id: nat
      ensures Enclosing(Closed(open, key), k, id) == if Owner(u, id) == k then Rec(u, id).autoDepth else 0
    {
      LeaveReleases(t, key, ids, id);
      ClosedCounts(open, key, ids, k, id);
      assert Enclosing(open, k, id) == if Owner(t, id) == k then Rec(t, id).autoDepth else 0;
    }
  }

  // ---------------------------------------------------------------- LOCK entries do not touch automatic depths

  ghost predicate SameAuto(t: Table, u: Table) {
    forall id: nat :: Rec(u, id).autoDepth == Rec(t, id).autoDepth
                      && (Rec(t, id).autoDepth > 0 ==> Owner(u, id) == Owner(t, id))
  }

  lemma SameAutoKeeps(t: Table, u: Table, open: Regions)
    requires AutoOk(t, open) && SameAuto(t, u) && TableOk(t)
    ensures AutoOk(u, open)
  {
    forall k: nat, id: nat
      ensures Enclosing(open, k, id) == if Owner(u, id) == k then Rec(u, id).autoDepth else 0
    {
      assert Rec(u, id).autoDepth == Rec(t, id).autoDepth;
    }
  }

  lemma {:induction false} ExplicitReleaseKeepsAuto(t: Table, key: nat, ids: seq<nat>)
    ensures var r := ReleaseReversed(t, key, ids, true);
            r.Ok? ==> SameAuto(t, r.t)
    decreases |ids|
  {
    if ids != [] {
      var r := Release(t, key, ids[|ids| - 1], true);
      if r.Ok? {
        assert SameAuto(t, r.t);
        ExplicitReleaseKeepsAuto(r.t, key, ids[..|ids| - 1]);
        var last := ReleaseReversed(r.t, key, ids[..|ids| - 1], true);
        if last.Ok? {
          SameAutoTrans(t, r.t, last.t);
        }
      }
    }
  }

  lemma SameAutoTrans(t: Table, u: Table, v: Table)
    requires SameAuto(t, u) && SameAuto(u, v)
    ensures SameAuto(t, v)
  {
    forall id: nat ensures Rec(v, id).autoDepth == Rec(t, id).autoDepth
                           && (Rec(t, id).autoDepth > 0 ==> Owner(v, id) == Owner(t, id))
    {
      assert Rec(u, id).autoDepth == Rec(t, id).autoDepth;
    }
  }

  lemma PopKeepsAuto(t: Table, key: nat)
    requires TableOk(t)
    ensures PopExplicit(t, key).Ok? && SameAuto(t, PopExplicit(t, key).t)
  {
    PopKeepsOk(t, key);
    var st := StackOf(t, key);
    if st != [] {
      var mid := t.(stacks := t.stacks[key := st[..|st| - 1]], entries := t.entries - 1);
      ExplicitReleaseKeepsAuto(mid, key, st[|st| - 1]);
      SameLocksSameAuto(t, mid);
      var r := ReleaseReversed(mid, key, st[|st| - 1], true);
      SameAutoTrans(t, mid, r.t);
      SameLocksSameAuto(r.t, PopExplicit(t, key).t);
      SameAutoTrans(t, r.t, PopExplicit(t, key).t);
    }
  }

  lemma SameLocksSameAuto(t: Table, u: Table)
    requires t.locks == u.locks
    ensures SameAuto(t, u)
  {
  }

  lemma {:induction false} PopToKeepsAuto(t: Table, key: nat, mark: int)
    requires TableOk(t)
    ensures PopTo(t, key, mark).Ok? && SameAuto(t, PopTo(t, key, mark).t)
    decreases |StackOf(t, key)|
  {
    PopToKeepsOk(t, key, mark);
    if |StackOf(t, key)| <= mark || StackOf(t, key) == [] {
      SameLocksSameAuto(t, t);
    } else {
      PopKeepsOk(t, key);
      PopShortens(t, key);
      PopKeepsAuto(t, key);
      var u := PopExplicit(t, key).t;
      PopToKeepsAuto(u, key, mark);
      SameAutoTrans(t, u, PopTo(u, key, mark).t);
    }
  }

  lemma SweepKeepsAuto(t: Table, open: Regions, key: nat)
    requires AutoOk(t, open)
    ensures AutoOk(Sweep(t, key), open - {key})
  {
    var u := Sweep(t, key);
    forall k: nat, id: nat
      ensures Enclosing(open - {key}, k, id) == if Owner(u, id) == k then Rec(u, id).autoDepth else 0
    {
      assert Enclosing(open, k, id) == if Owner(t, id) == k then Rec(t, id).autoDepth else 0;
      assert Rec(u, id) == if Owner(t, id) == key then FREE else Rec(t, id);
    }
  }

  lemma ReleaseAllKeepsAuto(t: Table, open: Regions, key: nat)
    requires TableOk(t) && AutoOk(t, open)
    ensures ReleaseAll(t, key).Ok? && AutoOk(ReleaseAll(t, key).t, open - {key})
  {
    PopToKeepsAuto(t, key, 0);
    SameAutoKeeps(t, PopTo(t, key, 0).t, open);
    SweepKeepsAuto(PopTo(t, key, 0).t, open, key);
  }

  // ---------------------------------------------------------------- mutual exclusion

  // The task is inside a region, of either kind, that names the lock.
  ghost predicate Inside(t: Table, open: Regions, key: nat, id: nat) {
    Enclosing(open, key, id) > 0 || Count(Flat(StackOf(t, key)), id) > 0
  }

  lemma InsideMeansOwner(t: Table, open: Regions, key: nat, id: nat)
    requires TableOk(t) && AutoOk(t, open) && Inside(t, open, key, id)
    ensures Owner(t, id) == key
  {
    assert Uses(t, key, id, 0, []) == if Owner(t, id) == key then Rec(t, id).explicitDepth else 0;
    assert Enclosing(open, key, id) == if Owner(t, id) == key then Rec(t, id).autoDepth else 0;
  }

  lemma NobodyIsInsideWithoutOwner(t: Table, open: Regions, a: nat, b: nat, id: nat)
    requires TableOk(t) && AutoOk(t, open) && a != b
    ensures !(Inside(t, open, a, id) && Inside(t, open, b, id))
  {
    if Inside(t, open, a, id) {
      InsideMeansOwner(t, open, a, id);
    }
    if Inside(t, open, b, id) {
      InsideMeansOwner(t, open, b, id);
    }
  }

  // ---------------------------------------------------------------- every step of a matched program

  lemma QuietedAuto(s: State, t: Table, open: Regions)
    requires AutoOk(t, open)
    ensures AutoOk(SetTable(s, t).table, open)
  {
    EdgesKeepAuto(t, SetTable(s, t).table, open);
  }

  lemma EnterStepKeepsAuto(s: State, open: Regions, i: nat, ids: seq<nat>, explicitly: bool)
    requires TableOk(s.table) && AutoOk(s.table, open) && Increasing(ids)
    requires i < |s.threads| && s.threads[i].stack != []
    ensures var u := EnterStep(s, i, ids, explicitly);
            u.fatal || AutoOk(u.table, EnterRegions(open, s.table, Cur(s.threads[i]), ids, explicitly))
  {
    var key := Cur(s.threads[i]);
    EnterKeepsAuto(s.table, open, key, ids, explicitly);
    var r := Enter(s.table, key, ids, explicitly);
    if r.Entered? {
      QuietedAuto(s, r.t, EnterRegions(open, s.table, key, ids, explicitly));
    } else if r.Blocked? {
      var u := r.t.(edges := r.t.edges[key := OnLock(r.on)]);
      EdgesKeepAuto(r.t, u, open);
      QuietedAuto(s, u, open);
      QuietedAuto(s, r.t, open);
    }
  }

  lemma ReleasedStepKeepsAuto(s: State, open: Regions, i: nat, r: Released, pc: Pc)
    requires i < |s.threads| && r.Ok? && AutoOk(r.t, open)
    ensures AutoOk(ReleasedStep(s, i, r, pc).table, open)
  {
    QuietedAuto(s, r.t, open);
  }

  lemma CallKeepsAuto(s: State, open: Regions, i: nat, a: Action)
    requires TableOk(s.table) && AutoOk(s.table, open) && CanStep(s, i, a) && s.threads[i].pc.User?
    requires Matched(s, open, i, a)
    ensures UserStep(s, i, a).fatal || AutoOk(UserStep(s, i, a).table, RegionsAfter(s, open, i, a))
    ensures a.SyncLeave? ==> !UserStep(s, i, a).fatal
  {
    var key := Cur(s.threads[i]);
    match a
    case SyncEnter(ids, ex) =>
      OrderedIsSortedAndComplete(ids);
      EnterStepKeepsAuto(s, open, i, Ordered(ids), ex);
    case SyncLeave(ids) =>
      OrderedIsSortedAndComplete(ids);
      LeaveKeepsAuto(s.table, open, key, Ordered(ids));
      ReleasedStepKeepsAuto(s, Closed(open, key), i, ReleaseReversed(s.table, key, Ordered(ids), false), User);
    case Unlock =>
      PopKeepsAuto(s.table, key);
      SameAutoKeeps(s.table, PopExplicit(s.table, key).t, open);
      ReleasedStepKeepsAuto(s, open, i, PopExplicit(s.table, key), User);
    case ReleaseTo(mark) =>
      PopToKeepsAuto(s.table, key, mark);
      SameAutoKeeps(s.table, PopTo(s.table, key, mark).t, open);
      ReleasedStepKeepsAuto(s, open, i, PopTo(s.table, key, mark), User);
    case Shutdown(_) =>
      ReleaseAllKeepsAuto(s.table, open, key);
      ReleasedStepKeepsAuto(s, open - {key}, i, ReleaseAll(s.table, key), User);
    case Wait(_) => EdgesKeepAuto(s.table, UserStep(s, i, a).table, open);
    case _ =>
  }

  lemma SectionKeepsAuto(s: State, open: Regions, i: nat)
    requires Inv(s) && AutoOk(s.table, open) && CanStep(s, i, Run) && !s.threads[i].pc.User?
    ensures RunStep(s, i).fatal || AutoOk(RunStep(s, i).table, RegionsAfter(s, open, i, Run))
  {
    var pc := s.threads[i].pc;
    assert ThreadOk(s, i);
    if pc.LockWoken? {
      var t := s.table.(edges := s.table.edges - {Cur(s.threads[i])});
      EdgesKeepTableOk(s.table, t);
      EdgesKeepAuto(s.table, t, open);
      EnterStepKeepsAuto(s.(table := t), open, i, pc.ids, pc.explicitly);
    } else if pc.Returned? {
      var key := Cur(s.threads[i]);
      ReleaseAllKeepsAuto(s.table, open, key);
      ReleasedStepKeepsAuto(s, open - {key}, i, ReleaseAll(s.table, key), Released(pc.failure));
    } else {
      QuietSectionKeepsAuto(s, open, i);
    }
  }

  lemma QuietSectionKeepsAuto(s: State, open: Regions, i: nat)
    requires AutoOk(s.table, open) && CanStep(s, i, Run)
    requires var pc := s.threads[i].pc; !pc.User? && !pc.LockWoken? && !pc.Returned?
    ensures AutoOk(RunStep(s, i).table, RegionsAfter(s, open, i, Run))
  {
    QuietLocks(s, i);
    EdgesKeepAuto(s.table, RunStep(s, i).table, open);
  }

  // ---------------------------------------------------------------- runs of matched programs

  // A run together with the regions its tasks have opened: a state and the open regions at each point.
  datatype Point = Point(state: State, open: Regions)

  ghost predicate MatchedNext(p: Point, q: Point) {
    || (exists i: nat, a: Action :: CanStep(p.state, i, a) && Matched(p.state, p.open, i, a)
                                    && q == Point(Step(p.state, i, a), RegionsAfter(p.state, p.open, i, a)))
    || (exists i: nat :: CanHappen(p.state, SpuriousWake(i)) && q == Point(After(p.state, SpuriousWake(i)), p.open))
  }

  ghost predicate IsMatchedRun(configured: nat, run: seq<Point>) {
    && run != [] && run[0] == Point(Initial(configured), map[])
    && forall k :: 0 < k < |run| ==> MatchedNext(run[k - 1], run[k])
  }

  ghost predicate PointOk(p: Point) {
    Inv(p.state) && AutoOk(p.state.table, p.open)
  }

  lemma MatchedStepKeepsOk(p: Point, q: Point)
    requires PointOk(p) && MatchedNext(p, q)
    ensures q.state.fatal || PointOk(q)
  {
    if i: nat, a: Action :| CanStep(p.state, i, a) && Matched(p.state, p.open, i, a)
                            && q == Point(Step(p.state, i, a), RegionsAfter(p.state, p.open, i, a)) {
      assert CanHappen(p.state, ThreadStep(i, a)) && After(p.state, ThreadStep(i, a)) == q.state;
      EventKeepsInv(p.state, ThreadStep(i, a));
      if p.state.threads[i].pc.User? {
        CallKeepsAuto(p.state, p.open, i, a);
      } else {
        SectionKeepsAuto(p.state, p.open, i);
      }
    } else {
      var i: nat :| CanHappen(p.state, SpuriousWake(i)) && q == Point(After(p.state, SpuriousWake(i)), p.open);
      EventKeepsInv(p.state, SpuriousWake(i));
    }
  }

  lemma MatchedNextIsNotFatal(p: Point, q: Point)
    requires MatchedNext(p, q)
    ensures !p.state.fatal
  {
  }

  lemma NothingOpen(t: Table, open: Regions)
    requires open == map[] && forall id: nat :: Owner(t, id) < 0
    ensures AutoOk(t, open)
  {
  }

  lemma StartIsOk(p: Point)
    requires Fresh(p.state) && p.open == map[]
    ensures PointOk(p)
  {
    assert AutoOk(p.state.table, p.open) by {
      NothingOpen(p.state.table, p.open);
    }
    assert Inv(p.state) by {
      FreshInv(p.state);
    }
  }

  lemma {:induction false} MatchedRunsAreOk(configured: nat, run: seq<Point>, n: nat)
    requires IsMatchedRun(configured, run) && n < |run|
    ensures run[n].state.fatal || PointOk(run[n])
    decreases n
  {
    if n == 0 {
      EmptyTable(run[0].state.table);
      StartIsOk(run[0]);
    } else {
      MatchedRunsAreOk(configured, run, n - 1);
      assert MatchedNext(run[n - 1], run[n]);
      MatchedNextIsNotFatal(run[n - 1], run[n]);
      MatchedStepKeepsOk(run[n - 1], run[n]);
    }
  }

  // In no state of a run of a matched program are two tasks inside regions that share a lock.
  lemma TasksExcludeEachOther(configured: nat, run: seq<Point>, n: nat, a: nat, b: nat, id: nat)
    requires IsMatchedRun(configured, run) && n < |run| && !run[n].state.fatal && a != b
    ensures !(Inside(run[n].state.table, run[n].open, a, id) && Inside(run[n].state.table, run[n].open, b, id))
  {
    MatchedRunsAreOk(configured, run, n);
    NobodyIsInsideWithoutOwner(run[n].state.table, run[n].open, a, b, id);
  }
}
