/**
 The diagnosis of the cycle detector is never a false alarm: had the program gone on, no task of the
 reported cycle could ever have run again.
 */
module Deadlock {
  import opened Basics
  import opened LockTable
  import opened LockAccounting
  import opened TaskPool
  import opened WaitGraph
  import opened Runtime
  import opened Invariants
  import opened LockSteps
  import opened LockFrames
  import opened TaskSteps
  import opened UserSteps
  import opened Runs
  import opened Progress

  ghost predicate OwnedIn(s: State, k: nat, ids: seq<nat>, c: set<nat>) {
    exists id: nat :: id in ids && Owner(s.table, id) >= 0 && Owner(s.table, id) != k && Owner(s.table, id) in c
  }

  // The task at depth d of thread i can only be moved on by a task of c.
  ghost predicate Stuck(s: State, i: nat, d: nat, c: set<nat>)
    requires i < |s.threads| && d < |s.threads[i].stack|
  {
    var th := s.threads[i];
    if d < |th.stack| - 1 then th.stack[d + 1] in c || (d < |th.waits| && th.waits[d] in c)
    else
      match th.pc
      case LockNoted(ids, _, _) => OwnedIn(s, th.stack[d], ids, c)
      case LockWait(ids, _, _) => OwnedIn(s, th.stack[d], ids, c)
      case LockWoken(ids, _) => OwnedIn(s, th.stack[d], ids, c)
      case LoopTop(h) => h in c
      case HoldsNothing(h) => h in c
      case Decided(h, _) => h in c
      case TaskWait(h) => h in c
      case Popped(h, _) => h in c
      case HelpClaimed(h, _) => h in c
      case Helped(h, _) => h in c
      case _ => false
  }

  ghost predicate StuckTask(s: State, k: nat, c: set<nat>) {
    exists i: nat, d: nat :: HasFrame(s, i, d, k) && Stuck(s, i, d, c)
  }

  // A set of tasks each of which waits, on its stack, for another task of the set.
  ghost predicate Trapped(s: State, c: set<nat>) {
    forall k: nat :: k in c ==> StuckTask(s, k, c)
  }

  // ---------------------------------------------------------------- frames

  lemma FrameOf(s: State, i: nat, d: nat, k: nat)
    requires Inv(s) && HasFrame(s, i, d, k)
    ensures if k == 0 then i == 0 && d == 0 else HasLoc(s, k, OnStack(i, d))
  {
    assert ThreadOk(s, i);
    assert (i == 0 && d == 0) || HasLoc(s, s.threads[i].stack[d], OnStack(i, d));
  }

  lemma StuckWhereItIs(s: State, i: nat, d: nat, k: nat, c: set<nat>)
    requires Inv(s) && HasFrame(s, i, d, k) && StuckTask(s, k, c)
    ensures Stuck(s, i, d, c)
  {
    var j: nat, e: nat :| HasFrame(s, j, e, k) && Stuck(s, j, e, c);
    FrameOf(s, i, d, k);
    FrameOf(s, j, e, k);
  }

  // A stuck task has not finished.
  lemma StuckIsUnfinished(s: State, k: nat, c: set<nat>)
    requires Inv(s) && k > 0 && StuckTask(s, k, c)
    ensures ValidTask(s.pool, k) && TaskAt(s.pool, k).state.Running?
  {
    var i: nat, d: nat :| HasFrame(s, i, d, k) && Stuck(s, i, d, c);
    FrameOf(s, i, d, k);
    assert LocOk(s, k);
  }

  // Trapped tasks are stopped: none of them runs compiled code, and none has finished.
  lemma TrappedTasksAreStopped(s: State, c: set<nat>, k: nat)
    requires Inv(s) && Trapped(s, c) && k in c
    ensures k > 0 ==> ValidTask(s.pool, k) && TaskAt(s.pool, k).state.Running?
    ensures forall i :: 0 <= i < |s.threads| && s.threads[i].stack != [] && Cur(s.threads[i]) == k
                        ==> !s.threads[i].pc.User? && !s.threads[i].pc.Returned? && !s.threads[i].pc.Released?
  {
    assert StuckTask(s, k, c);
    if k > 0 {
      StuckIsUnfinished(s, k, c);
    }
    forall i | 0 <= i < |s.threads| && s.threads[i].stack != [] && Cur(s.threads[i]) == k
      ensures !s.threads[i].pc.User? && !s.threads[i].pc.Returned? && !s.threads[i].pc.Released?
    {
      StuckWhereItIs(s, i, |s.threads[i].stack| - 1, k, c);
    }
  }

  // ---------------------------------------------------------------- a stuck thread makes no headway

  lemma {:induction false} AcquiredAreOurs(t: Table, key: nat, ids: seq<nat>, i: nat, explicitly: bool, j: nat)
    requires i <= j < |ids| && Acquire(t, key, ids, i, explicitly).All?
    ensures Owner(t, ids[j]) < 0 || Owner(t, ids[j]) == key
    decreases |ids| - i
  {
    if i < j {
      AcquiredAreOurs(TryAcquire(t, key, ids[i], explicitly).t, key, ids, i + 1, explicitly, j);
    }
  }

  lemma StuckEnterIsBlocked(s: State, t: Table, k: nat, ids: seq<nat>, explicitly: bool, c: set<nat>)
    requires TableOk(s.table) && t == s.table.(edges := t.edges) && OwnedIn(s, k, ids, c)
    ensures !Enter(t, k, ids, explicitly).Entered?
  {
    var id: nat :| id in ids && Owner(s.table, id) >= 0 && Owner(s.table, id) != k;
    assert Rec(t, id) == Rec(s.table, id);
    var j :| 0 <= j < |ids| && ids[j] == id;
    if Acquire(t, k, ids, 0, explicitly).All? {
      AcquiredAreOurs(t, k, ids, 0, explicitly, j);
    }
  }

  lemma SameOwnersOwnedIn(s: State, u: State, k: nat, ids: seq<nat>, c: set<nat>)
    requires OwnedIn(s, k, ids, c)
    requires forall id: nat :: Owner(u.table, id) == Owner(s.table, id)
    ensures OwnedIn(u, k, ids, c)
  {
    var id: nat :| id in ids && Owner(s.table, id) >= 0 && Owner(s.table, id) != k && Owner(s.table, id) in c;
    assert Owner(u.table, id) == Owner(s.table, id);
  }

  ghost predicate StuckTop(s: State, i: nat, c: set<nat>) {
    i < |s.threads| && s.threads[i].stack != [] && Stuck(s, i, |s.threads[i].stack| - 1, c)
  }

  // The step of a stuck thread: no lock changes hands, and its task is still stuck afterwards.
  ghost predicate NoHeadway(s: State, u: State, i: nat, c: set<nat>)
    requires StuckTop(s, i, c)
  {
    && (forall id: nat :: Owner(u.table, id) == Owner(s.table, id))
    && var d := |s.threads[i].stack| - 1;
       HasFrame(u, i, d, Cur(s.threads[i])) && Stuck(u, i, d, c)
  }

  lemma StuckWoken(s: State, i: nat, c: set<nat>)
    requires TableOk(s.table) && CanStep(s, i, Run) && StuckTop(s, i, c) && s.threads[i].pc.LockWoken?
    ensures RunStep(s, i).fatal || NoHeadway(s, RunStep(s, i), i, c)
  {
    var pc := s.threads[i].pc;
    var k := Cur(s.threads[i]);
    var t := s.table.(edges := s.table.edges - {k});
    StuckEnterIsBlocked(s, t, k, pc.ids, pc.explicitly, c);
    EnterKeepsLocks(s, t, i, pc.ids, pc.explicitly);
    var u := RunStep(s, i);
    hide TableOk, Enter, CycleLocked, OwnedIn;
    if !u.fatal {
      forall id: nat ensures Owner(u.table, id) == Owner(s.table, id) {
        assert Rec(u.table, id) == Rec(s.table, id);
      }
      SameOwnersOwnedIn(s, u, k, pc.ids, c);
    }
  }

  lemma StuckLockWait(s: State, i: nat, c: set<nat>)
    requires CanStep(s, i, Run) && StuckTop(s, i, c) && (s.threads[i].pc.LockNoted? || s.threads[i].pc.LockWait?)
    ensures NoHeadway(s, RunStep(s, i), i, c)
  {
    SameOwnersOwnedIn(s, RunStep(s, i), Cur(s.threads[i]), s.threads[i].pc.ids, c);
  }

  lemma StuckTaskWait(s: State, i: nat, c: set<nat>)
    requires Inv(s) && Trapped(s, c) && CanStep(s, i, Run) && StuckTop(s, i, c)
    requires s.threads[i].pc.Decided?
    ensures NoHeadway(s, RunStep(s, i), i, c)
  {
    hide ThreadsOk, TasksOk, RecordsOk, LocksOk, WorkersOk, EndingOk, StuckTask;
    var h := s.threads[i].pc.handle;
    OneThread(s, i);
    assert StuckTask(s, h, c);
    StuckIsUnfinished(s, h, c);
  }

  lemma StuckHelp(s: State, i: nat, c: set<nat>)
    requires ThreadsOk(s) && CanStep(s, i, Run) && StuckTop(s, i, c) && s.threads[i].pc.HelpClaimed?
    ensures NoHeadway(s, RunStep(s, i), i, c)
  {
    assert ThreadOk(s, i);
  }

  lemma StuckLoop(s: State, i: nat, c: set<nat>)
    requires CanStep(s, i, Run) && StuckTop(s, i, c)
    requires var pc := s.threads[i].pc;
             pc.LoopTop? || pc.HoldsNothing? || pc.TaskWait? || pc.Popped? || pc.Helped?
    ensures RunStep(s, i).fatal || NoHeadway(s, RunStep(s, i), i, c)
  {
    forall id: nat ensures Owner(RunStep(s, i).table, id) == Owner(s.table, id) {
    }
  }

  lemma StuckRun(s: State, i: nat, c: set<nat>)
    requires Inv(s) && Trapped(s, c) && CanStep(s, i, Run) && StuckTop(s, i, c)
    ensures RunStep(s, i).fatal || NoHeadway(s, RunStep(s, i), i, c)
  {
    match s.threads[i].pc
    case LockNoted(_, _, _) => StuckLockWait(s, i, c);
    case LockWait(_, _, _) => StuckLockWait(s, i, c);
    case LockWoken(_, _) => StuckWoken(s, i, c);
    case Decided(_, _) => StuckTaskWait(s, i, c);
    case HelpClaimed(_, _) => StuckHelp(s, i, c);
    case LoopTop(_) => StuckLoop(s, i, c);
    case HoldsNothing(_) => StuckLoop(s, i, c);
    case TaskWait(_) => StuckLoop(s, i, c);
    case Popped(_, _) => StuckLoop(s, i, c);
    case Helped(_, _) => StuckLoop(s, i, c);
  }

  // ---------------------------------------------------------------- every step keeps a trapped set trapped

  // Locks owned by a trapped task never change hands.
  lemma TrappedLocksStay(s: State, u: State, i: nat, c: set<nat>, id: nat)
    requires Inv(s) && Trapped(s, c) && i < |s.threads| && OthersKeepLocks(s, u, i)
    requires StuckTop(s, i, c) ==> NoHeadway(s, u, i, c)
    requires Owner(s.table, id) >= 0 && Owner(s.table, id) in c
    ensures Owner(u.table, id) == Owner(s.table, id)
  {
    var m: nat := Owner(s.table, id);
    if MyKey(s, i, m) {
      assert StuckTask(s, m, c);
      StuckWhereItIs(s, i, |s.threads[i].stack| - 1, m, c);
    }
  }

  lemma OtherThreadStuck(s: State, u: State, i: nat, j: nat, d: nat, k: nat, c: set<nat>)
    requires Inv(s) && Trapped(s, c) && i < |s.threads| && OthersKeepLocks(s, u, i)
    requires StuckTop(s, i, c) ==> NoHeadway(s, u, i, c)
    requires FrameThreads(s, u, i) && j != i && HasFrame(s, j, d, k) && Stuck(s, j, d, c)
    ensures HasFrame(u, j, d, k) && Stuck(u, j, d, c)
  {
    var pc := s.threads[j].pc;
    if d == |s.threads[j].stack| - 1 && (pc.LockNoted? || pc.LockWait? || pc.LockWoken?) {
      var id: nat :| id in pc.ids && Owner(s.table, id) >= 0 && Owner(s.table, id) != k && Owner(s.table, id) in c;
      TrappedLocksStay(s, u, i, c, id);
    }
  }

  // The suspended tasks of a thread stay stuck.
  ghost predicate KeepsSuspended(s: State, u: State, i: nat, c: set<nat>)
    requires i < |s.threads|
  {
    forall d: nat :: d < |s.threads[i].stack| - 1 && Stuck(s, i, d, c) ==>
      HasFrame(u, i, d, s.threads[i].stack[d]) && Stuck(u, i, d, c)
  }

  lemma UserKeepsSuspended(s: State, i: nat, a: Action, c: set<nat>)
    requires CanStep(s, i, a) && s.threads[i].pc.User?
    ensures KeepsSuspended(s, UserStep(s, i, a), i, c)
  {
    UserThreads(s, i, a);
  }

  // The task on top has gone and is not in c; the one below it goes on helping.
  lemma UnstackedStaysStuck(s: State, u: State, i: nat, d: nat, c: set<nat>)
    requires i < |s.threads| && i < |u.threads| && d < |s.threads[i].stack| - 1
    requires var th := s.threads[i];
             && |th.waits| == |th.stack| - 1 && Cur(th) !in c
             && u.threads[i] == Thread(th.worker, th.stack[..|th.stack| - 1], th.waits[..|th.waits| - 1],
                                       Helped(th.waits[|th.waits| - 1], Cur(th)))
    requires Stuck(s, i, d, c)
    ensures HasFrame(u, i, d, s.threads[i].stack[d]) && Stuck(u, i, d, c)
  {
  }

  lemma FinishKeepsSuspended(s: State, i: nat, c: set<nat>)
    requires Inv(s) && Trapped(s, c) && CanStep(s, i, Run) && s.threads[i].pc.Released?
    ensures KeepsSuspended(s, RunStep(s, i), i, c)
  {
    hide ThreadsOk, TasksOk, RecordsOk, LocksOk, WorkersOk, EndingOk, Trapped, SuspendedOk, SleepOk, FinishStep, Stuck, HasFrame;
    OneThread(s, i);
    FinishIs(s, i, s.threads[i].pc.failure);
    if Cur(s.threads[i]) in c {
      TrappedTasksAreStopped(s, c, Cur(s.threads[i]));
    }
    var u := RunStep(s, i);
    hide RunStep, CanStep, Inv, PcOk;
    forall d: nat | d < |s.threads[i].stack| - 1 && Stuck(s, i, d, c)
      ensures HasFrame(u, i, d, s.threads[i].stack[d]) && Stuck(u, i, d, c)
    {
      UnstackedStaysStuck(s, u, i, d, c);
    }
  }

  lemma QuietKeepsSuspended(s: State, i: nat, c: set<nat>)
    requires CanStep(s, i, Run) && !s.threads[i].pc.User?
    requires !s.threads[i].pc.Claimed? && !s.threads[i].pc.HelpClaimed? && !s.threads[i].pc.Released?
    ensures KeepsSuspended(s, RunStep(s, i), i, c)
  {
    QuietStack(s, i);
  }

  lemma RunKeepsSuspended(s: State, i: nat, c: set<nat>)
    requires Inv(s) && Trapped(s, c) && CanStep(s, i, Run) && !s.threads[i].pc.User?
    ensures KeepsSuspended(s, RunStep(s, i), i, c)
  {
    var pc := s.threads[i].pc;
    if pc.Released? {
      FinishKeepsSuspended(s, i, c);
    } else if pc.HelpClaimed? || pc.Claimed? {
      BeginKeepsSuspended(s, i, c);
    } else {
      QuietKeepsSuspended(s, i, c);
    }
  }

  lemma BeginKeepsSuspended(s: State, i: nat, c: set<nat>)
    requires ThreadsOk(s) && CanStep(s, i, Run) && (s.threads[i].pc.HelpClaimed? || s.threads[i].pc.Claimed?)
    ensures KeepsSuspended(s, RunStep(s, i), i, c)
  {
    assert ThreadOk(s, i);
  }

  lemma SameThreadStuck(s: State, u: State, i: nat, d: nat, k: nat, c: set<nat>)
    requires i < |s.threads| && HasFrame(s, i, d, k) && Stuck(s, i, d, c)
    requires KeepsSuspended(s, u, i, c) && (StuckTop(s, i, c) ==> NoHeadway(s, u, i, c))
    ensures HasFrame(u, i, d, k) && Stuck(u, i, d, c)
  {
    if d == |s.threads[i].stack| - 1 {
      hide Stuck, KeepsSuspended;
      assert StuckTop(s, i, c);
    } else {
      hide Stuck;
    }
  }

  lemma KeepsTrapped(s: State, u: State, i: nat, c: set<nat>)
    requires Inv(s) && Trapped(s, c) && i < |s.threads|
    requires FrameThreads(s, u, i) && OthersKeepLocks(s, u, i) && KeepsSuspended(s, u, i, c)
    requires StuckTop(s, i, c) ==> NoHeadway(s, u, i, c)
    ensures Trapped(u, c)
  {
    hide Inv, Stuck, FrameThreads, OthersKeepLocks, KeepsSuspended, NoHeadway, StuckTop;
    forall k: nat | k in c ensures StuckTask(u, k, c) {
      assert StuckTask(s, k, c);
      var j: nat, d: nat :| HasFrame(s, j, d, k) && Stuck(s, j, d, c);
      if j != i {
        OtherThreadStuck(s, u, i, j, d, k, c);
      } else {
        SameThreadStuck(s, u, i, d, k, c);
      }
      assert HasFrame(u, j, d, k) && Stuck(u, j, d, c);
    }
  }

  lemma ThreadStepKeepsTrapped(s: State, i: nat, a: Action, c: set<nat>)
    requires Inv(s) && Trapped(s, c) && CanStep(s, i, a)
    ensures Step(s, i, a).fatal || Trapped(Step(s, i, a), c)
  {
    var u := Step(s, i, a);
    if !u.fatal {
      StepKeepsOthers(s, i, a);
      if s.threads[i].pc.User? {
        UserKeepsSuspended(s, i, a, c);
      } else {
        RunKeepsSuspended(s, i, c);
      }
      if StuckTop(s, i, c) {
        StuckRun(s, i, c);
      }
      KeepsTrapped(s, u, i, c);
    }
  }

  lemma EventKeepsTrapped(s: State, e: Event, c: set<nat>)
    requires Inv(s) && Trapped(s, c) && CanHappen(s, e)
    ensures After(s, e).fatal || (Inv(After(s, e)) && Trapped(After(s, e), c))
  {
    EventKeepsInv(s, e);
    match e
    case ThreadStep(i, a) => ThreadStepKeepsTrapped(s, i, a, c);
    case SpuriousWake(_) => SameThreadsTrapped(s, After(s, e), c);
  }

  lemma SameThreadsTrapped(s: State, u: State, c: set<nat>)
    requires Trapped(s, c) && u.threads == s.threads && u.table == s.table
    ensures Trapped(u, c)
  {
    forall k: nat | k in c ensures StuckTask(u, k, c) {
      assert StuckTask(s, k, c);
      var j: nat, d: nat :| HasFrame(s, j, d, k) && Stuck(s, j, d, c);
      assert HasFrame(u, j, d, k) && Stuck(u, j, d, c);
    }
  }

  // ---------------------------------------------------------------- a cycle is a trap

  // The tasks that the walk from `me` meets.
  ghost function Met(t: Table, me: nat): set<nat> {
    set k: nat | k in t.edges.Keys && Reaches(t, me, k)
  }

  lemma {:induction false} IterSucc(t: Table, k: nat, n: nat)
    requires Iter(t, k, n).Some?
    ensures Iter(t, k, n + 1) == Succ(t, Iter(t, k, n).value)
  {
    IterAppend(t, k, n, 1);
    var x := Iter(t, k, n).value;
    match Succ(t, x)
    case None => assert Iter(t, x, 1) == None;
    case Some(y) => assert Iter(t, y, 0) == Some(y);
  }

  // On a cycle every task met waits for another task met.
  lemma CycleIsClosed(t: Table, me: nat, n: nat, k: nat)
    requires n > 0 && Iter(t, me, n) == Some(me) && k in Met(t, me)
    ensures Succ(t, k).Some? && Succ(t, k).value in Met(t, me)
  {
    var m: nat :| Iter(t, me, m) == Some(k);
    CycleNeverEnds(t, me, n, m + 2);
    var long: nat :| long >= m + 2 && Iter(t, me, long) == Some(me);
    IterAppend(t, me, m, long - m);
    IterSucc(t, me, m);
    var next := Succ(t, k).value;
    assert Iter(t, me, m + 1) == Some(next);
    IterAppend(t, me, m + 1, long - m - 1);
    assert Iter(t, next, long - m - 1) == Some(me);
  }

  // The threads of the tasks on a cycle are where the waits put them.
  lemma WaiterIsStuck(s: State, k: nat, c: set<nat>)
    requires Inv(s) && k in s.table.edges
    requires Succ(s.table, k).Some? && Succ(s.table, k).value in c
    requires s.table.edges[k].OnLock? ==> Succ(s.table, k).value != k
    requires forall x: nat :: x in c ==> x in s.table.edges
    ensures StuckTask(s, k, c)
  {
    var i, d := LiveTaskIsOnStack(s, k);
    assert ThreadOk(s, i);
    var next := Succ(s.table, k).value;
    if d == |s.threads[i].stack| - 1 {
      CurrentWaiterIsStuck(s, i, c);
    }
    assert HasFrame(s, i, d, k) && Stuck(s, i, d, c);
  }

  lemma OffStackDoesNotWait(s: State, task: nat)
    requires Inv(s) && ValidTask(s.pool, task) && task in s.table.edges
    ensures TaskAt(s.pool, task).state.Running? && s.loc[task - 1].OnStack?
  {
    assert Live(s, task);
    assert LocOk(s, task);
  }

  lemma CurrentWaiterIsStuck(s: State, i: nat, c: set<nat>)
    requires Inv(s) && i < |s.threads| && s.threads[i].stack != []
    requires var k := Cur(s.threads[i]);
             var next := Succ(s.table, k);
             k in s.table.edges && next.Some? && next.value in c && (s.table.edges[k].OnLock? ==> next.value != k)
    requires forall x: nat :: x in c ==> x in s.table.edges
    ensures StuckTop(s, i, c)
  {
    assert ThreadOk(s, i);
    var k := Cur(s.threads[i]);
    var next := Succ(s.table, k).value;
    match s.threads[i].pc
    case LockNoted(ids, _, id) => assert id in ids && Owner(s.table, id) == next;
    case LockWait(ids, _, id) => assert id in ids && Owner(s.table, id) == next;
    case LockWoken(ids, _) => assert s.table.edges[k].id in ids && Owner(s.table, s.table.edges[k].id) == next;
    case HelpClaimed(_, t) => OffStackDoesNotWait(s, t);
    case Helped(_, t) => OffStackDoesNotWait(s, t);
    case WaitOver(h) => OffStackDoesNotWait(s, h);
    case _ =>
  }

  // A cycle in the wait graph traps all its tasks.
  lemma CycleIsTrap(s: State, me: nat, n: nat)
    requires Inv(s) && n > 0 && Iter(s.table, me, n) == Some(me)
    requires forall k: nat :: k in s.table.edges && s.table.edges[k].OnLock? ==> Succ(s.table, k) != Some(k)
    ensures me in Met(s.table, me) && Trapped(s, Met(s.table, me))
  {
    var c := Met(s.table, me);
    var none: nat := 0;
    assert Iter(s.table, me, none) == Some(me);
    assert Succ(s.table, me).Some?;
    forall k: nat | k in c ensures StuckTask(s, k, c) {
      CycleIsClosed(s.table, me, n, k);
      WaiterIsStuck(s, k, c);
    }
  }
}
