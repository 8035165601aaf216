/**
 The calls of compiled code, the end of the main program and spurious wake-ups keep the invariant, so
 every step of the runtime does.
 */
module UserSteps {
  import opened Basics
  import opened LockTable
  import opened LockAccounting
  import opened TaskPool
  import opened WaitGraph
  import opened Runtime
  import opened Invariants
  import opened LockSteps
  import opened PoolSteps
  import opened TaskSteps

  // ---------------------------------------------------------------- task records

  // A section that rewrites task records without changing any state.
  ghost predicate RecordsRewritten(s: State, p: Pool) {
    && p == s.pool.(tasks := p.tasks) && |p.tasks| == |s.pool.tasks|
    && forall k :: 0 <= k < |p.tasks| ==> p.tasks[k].state == s.pool.tasks[k].state && RecordOk(p.tasks[k])
  }

  lemma RecordsThreads(s: State, p: Pool, i: nat)
    requires ThreadsOk(s) && i < |s.threads| && !Sleeping(s, i) && RecordsRewritten(s, p)
    ensures ThreadsOk(s.(pool := p))
  {
    var u := s.(pool := p);
    assert ThreadOk(s, i);
    OwnShapeKept(s, u, i);
    assert SuspendedOk(u, i) && PcOk(u, i) && SleepOk(u, i);
    assert Frame(s, u, i);
    hide Frame, PcOk, SuspendedOk, SleepOk, ShapeOk;
    ThreadsKeepOk(s, u, i);
  }

  lemma RecordsKeepInv(s: State, p: Pool, i: nat)
    requires Inv(s) && i < |s.threads| && !Sleeping(s, i) && RecordsRewritten(s, p)
    ensures Inv(s.(pool := p))
  {
    hide ThreadsOk, TasksOk, LocksOk, RecordOk;
    var u := s.(pool := p);
    RecordsThreads(s, p, i);
    TasksUntouched(s, u, i);
    SameTableLocks(s, u);
    CountsAfter(s, u, i);
    assert WorkersOk(u) && EndingOk(u) && RecordsOk(u);
    hide RecordsOk, WorkersOk, EndingOk;
  }

  lemma RunningTask(s: State, i: nat)
    requires Inv(s) && i < |s.threads| && s.threads[i].stack != [] && Cur(s.threads[i]) > 0
    ensures ValidTask(s.pool, Cur(s.threads[i])) && TaskAt(s.pool, Cur(s.threads[i])).state == Running
  {
    assert ThreadOk(s, i);
    var d := |s.threads[i].stack| - 1;
    assert (i == 0 && d == 0) || HasLoc(s, s.threads[i].stack[d], OnStack(i, d));
    assert LocOk(s, Cur(s.threads[i]));
  }

  lemma RecordCallKeepsInv(s: State, i: nat, a: Action)
    requires Inv(s) && CanStep(s, i, a) && s.threads[i].pc.User?
    requires a.Cancel? || a.Throw? || a.CancelCheck?
    ensures UserStep(s, i, a).fatal || Inv(UserStep(s, i, a))
  {
    var u := UserStep(s, i, a);
    assert ThreadOk(s, i);
    assert RecordsOk(s);
    if Cur(s.threads[i]) > 0 {
      RunningTask(s, i);
    }
    if !u.fatal {
      assert s.(pool := u.pool) == u;
      RecordsKeepInv(s, u.pool, i);
    }
  }

  // ---------------------------------------------------------------- SPAWN

  lemma SpawnPool(p: Pool, configured: nat)
    requires 0 <= p.idleWorkers && 0 <= p.blockedWorkers && p.idleWorkers + p.blockedWorkers <= Workers(p)
    requires !p.started ==> Workers(p) == 0
    ensures var q := SpawnTask(p, configured);
            && q.started && q.stopping == p.stopping && Workers(q) >= Workers(p)
            && q.tasks == p.tasks + [TaskRun(Pending, "", false, 0)] && q.queue == p.queue + [|p.tasks| + 1]
            && q.idleWorkers == p.idleWorkers && q.blockedWorkers == p.blockedWorkers
            && (!q.stopping ==> q.blockedWorkers < Workers(q))
  {
  }

  lemma SpawnThreads(s: State, i: nat, wake: nat)
    requires Inv(s) && CanStep(s, i, Action.Spawn(wake)) && s.threads[i].pc.User?
    ensures var u := UserStep(s, i, Action.Spawn(wake));
            && FrameThreads(s, u, i) && u.threads[i] == s.threads[i]
            && |u.threads| == |s.threads| + Workers(u.pool) - Workers(s.pool)
            && u.pool == SpawnTask(s.pool, s.configured) && Workers(u.pool) >= Workers(s.pool)
            && ThreadsOk(u)
  {
    var u := UserStep(s, i, Action.Spawn(wake));
    assert ThreadOk(s, i);
    IdlePlusBlocked(s);
    SpawnPool(s.pool, s.configured);
    OwnShapeKept(s, u, i);
    assert SuspendedOk(u, i) && PcOk(u, i) && SleepOk(u, i);
    ThreadsKeepOk(s, u, i);
  }

  lemma SpawnTasks(s: State, i: nat, wake: nat)
    requires Inv(s) && CanStep(s, i, Action.Spawn(wake)) && s.threads[i].pc.User?
    ensures var u := UserStep(s, i, Action.Spawn(wake));
            TasksOk(u) && RecordsOk(u)
  {
    var u := UserStep(s, i, Action.Spawn(wake));
    SpawnThreads(s, i, wake);
    IdlePlusBlocked(s);
    SpawnPool(s.pool, s.configured);
    forall k | 1 <= k <= |u.loc| ensures LocOk(u, k) {
      if k <= |s.loc| {
        assert LocOk(s, k);
      } else {
        assert u.pool.queue[|u.pool.queue| - 1] == k;
      }
    }
    forall j | 0 <= j < |s.pool.queue| ensures HasLoc(u, u.pool.queue[j], Queued) && u.pool.queue[j] <= |s.loc| {
      assert HasLoc(s, s.pool.queue[j], Queued);
    }
  }

  lemma SpawnKeepsInv(s: State, i: nat, wake: nat)
    requires Inv(s) && CanStep(s, i, Action.Spawn(wake)) && s.threads[i].pc.User?
    ensures Inv(UserStep(s, i, Action.Spawn(wake)))
  {
    var u := UserStep(s, i, Action.Spawn(wake));
    SpawnThreads(s, i, wake);
    SpawnTasks(s, i, wake);
    IdlePlusBlocked(s);
    SpawnPool(s.pool, s.configured);
    SameTableLocks(s, u);
    CountsAfter(s, u, i);
    SpawnWakes(s, wake);
  }

  // notify_one takes one sleeper out of the sleeping set when there is one.
  lemma SpawnWakes(s: State, wake: nat)
    requires s.sleepWork == {} || wake in s.sleepWork
    ensures |s.sleepWork - {wake}| == if s.sleepWork == {} then 0 else |s.sleepWork| - 1
  {
  }

  // ---------------------------------------------------------------- the end of the main program

  lemma MainExits(s: State, u: State, i: nat)
    requires Inv(s) && CanStep(s, i, Snapshot) && s.threads[i].pc.User?
    requires !s.pool.started && u == SetPc(s, i, Exited)
    ensures Inv(u)
  {
    assert ThreadOk(s, i);
    OwnShapeKept(s, u, i);
    ThreadsKeepOk(s, u, i);
    TasksUntouched(s, u, i);
    SameTableLocks(s, u);
    CountsAfter(s, u, i);
  }

  lemma EndingKeepsInv(s: State, ending: Ending)
    requires Inv(s) && EndingOk(s.(ending := ending))
    ensures Inv(s.(ending := ending))
  {
    var u := s.(ending := ending);
    forall i | 0 <= i < |u.threads| ensures ThreadOk(u, i) {
      assert ThreadOk(s, i);
      assert ShapeOk(u, i) && SuspendedOk(u, i) && PcOk(u, i) && SleepOk(u, i);
    }
    forall task | 1 <= task <= |u.loc| ensures LocOk(u, task) {
      assert LocOk(s, task);
    }
    assert TasksOk(u) by {
      forall j | 0 <= j < |u.pool.queue| ensures HasLoc(u, u.pool.queue[j], Queued) {
        assert HasLoc(s, s.pool.queue[j], Queued);
      }
    }
    SameTableLocks(s, u);
    assert IdleSet(u) == IdleSet(s) && BlockedSet(u) == BlockedSet(s);
    assert ThreadsOk(u) && WorkersOk(u) && RecordsOk(u);
    hide ThreadsOk, TasksOk, RecordsOk, LocksOk, WorkersOk, EndingOk;
  }

  lemma SnapshotKeepsInv(s: State, i: nat)
    requires Inv(s) && CanStep(s, i, Snapshot) && s.threads[i].pc.User?
    ensures Inv(UserStep(s, i, Snapshot))
  {
    if !s.pool.started {
      MainExits(s, SetPc(s, i, Exited), i);
    } else {
      var p := MarkAll(s.pool, s.ending.normalExit);
      assert RecordsOk(s);
      RecordsKeepInv(s, p, i);
      EndingKeepsInv(s.(pool := p), Draining(|s.pool.tasks|, 0));
    }
  }

  lemma StopThreads(s: State, i: nat)
    requires Inv(s) && CanStep(s, i, Stop) && s.threads[i].pc.User?
    ensures ThreadsOk(UserStep(s, i, Stop))
  {
    var u := UserStep(s, i, Stop);
    assert ThreadOk(s, i);
    OwnShapeKept(s, u, i);
    assert SuspendedOk(u, i) && PcOk(u, i) && SleepOk(u, i);
    ThreadsKeepOk(s, u, i);
  }

  lemma StopKeepsInv(s: State, i: nat)
    requires Inv(s) && CanStep(s, i, Stop) && s.threads[i].pc.User?
    ensures Inv(UserStep(s, i, Stop))
  {
    var u := UserStep(s, i, Stop);
    StopThreads(s, i);
    TasksUntouched(s, u, i);
    SameTableLocks(s, u);
    CountsAfter(s, u, i);
  }

  // ---------------------------------------------------------------- all calls of compiled code

  lemma LockCallKeepsInv(s: State, i: nat, a: Action)
    requires Inv(s) && CanStep(s, i, a) && s.threads[i].pc.User?
    requires a.SyncEnter? || a.SyncLeave? || a.Unlock? || a.ReleaseTo?
    ensures UserStep(s, i, a).fatal || Inv(UserStep(s, i, a))
  {
    var key := Cur(s.threads[i]);
    assert ThreadOk(s, i);
    hide Inv;
    match a
    case SyncEnter(ids, ex) =>
      OrderedIsSortedAndComplete(ids);
      EnterKeepsInv(s, i, Ordered(ids), ex);
    case SyncLeave(ids) =>
      var r := ReleaseReversed(s.table, key, Ordered(ids), false);
      if r.Ok? {
        LeaveKeepsOk(s.table, key, Ordered(ids));
      }
      ReleasedKeepsInv(s, i, r, User);
    case Unlock =>
      PopKeepsOk(s.table, key);
      ReleasedKeepsInv(s, i, PopExplicit(s.table, key), User);
    case ReleaseTo(mark) =>
      PopToKeepsOk(s.table, key, mark);
      ReleasedKeepsInv(s, i, PopTo(s.table, key, mark), User);
  }

  lemma NotedPcOk(s: State, i: nat, target: nat, pc: Pc)
    requires i < |s.threads| && PcOk(s, i) && s.threads[i].stack != []
    requires match pc
             case LoopTop(h) => h == target && ValidTask(s.pool, h)
             case HelpClaimed(h, t) => s.threads[i].pc == Popped(h, t) && target == t
             case _ => false
    ensures PcOk(SetPc(SetTable(s, Noted(s.table, Cur(s.threads[i]), target)), i, pc), i)
  {
    var v := SetPc(SetTable(s, Noted(s.table, Cur(s.threads[i]), target)), i, pc);
    if OwnsNothing(s.table, Cur(s.threads[i])) {
      forall id: nat ensures Owner(v.table, id) != Cur(s.threads[i]) {
        assert Owner(s.table, id) != Cur(s.threads[i]);
      }
    }
  }

  lemma WaitCallKeepsInv(s: State, i: nat, task: nat)
    requires Inv(s) && CanStep(s, i, Action.Wait(task)) && s.threads[i].pc.User?
    ensures UserStep(s, i, Action.Wait(task)).fatal || Inv(UserStep(s, i, Action.Wait(task)))
  {
    hide ThreadsOk, TasksOk, RecordsOk, LocksOk, WorkersOk;
    OneThread(s, i);
    NotedPcOk(s, i, task, LoopTop(task));
    if !UserStep(s, i, Action.Wait(task)).fatal {
      NotedKeepsInv(s, i, task, LoopTop(task));
    }
  }

  lemma ReturnKeepsInv(s: State, i: nat, failure: string)
    requires Inv(s) && CanStep(s, i, Return(failure)) && s.threads[i].pc.User?
    ensures Inv(UserStep(s, i, Return(failure)))
  {
    hide ThreadsOk, TasksOk, RecordsOk, LocksOk, WorkersOk;
    OneThread(s, i);
    var d := |s.threads[i].stack| - 1;
    assert (i == 0 && d == 0) || HasLoc(s, s.threads[i].stack[d], OnStack(i, d));
    assert PcOk(SetPc(s, i, Returned(failure)), i);
    PcStepKeepsInv(s, i, Returned(failure));
  }

  lemma ShutdownKeepsInv(s: State, i: nat, normalExit: bool)
    requires Inv(s) && CanStep(s, i, Shutdown(normalExit)) && s.threads[i].pc.User?
    ensures Inv(UserStep(s, i, Shutdown(normalExit)))
  {
    ReleaseAllKeepsInv(s, i, User);
    var mid := ReleasedStep(s, i, ReleaseAll(s.table, Cur(s.threads[i])), User);
    assert EndingOk(mid.(ending := Releasing(normalExit)));
    hide Inv, EndingOk;
    EndingKeepsInv(mid, Releasing(normalExit));
  }

  lemma UserKeepsInv(s: State, i: nat, a: Action)
    requires Inv(s) && CanStep(s, i, a) && s.threads[i].pc.User?
    ensures UserStep(s, i, a).fatal || Inv(UserStep(s, i, a))
  {
    hide Inv;
    match a
    case Spawn(wake) => SpawnKeepsInv(s, i, wake);
    case Cancel(_) => RecordCallKeepsInv(s, i, a);
    case Throw(_) => RecordCallKeepsInv(s, i, a);
    case CancelCheck => RecordCallKeepsInv(s, i, a);
    case SyncEnter(_, _) => LockCallKeepsInv(s, i, a);
    case SyncLeave(_) => LockCallKeepsInv(s, i, a);
    case Unlock => LockCallKeepsInv(s, i, a);
    case ReleaseTo(_) => LockCallKeepsInv(s, i, a);
    case Wait(task) => WaitCallKeepsInv(s, i, task);
    case Return(failure) => ReturnKeepsInv(s, i, failure);
    case Die =>
    case Shutdown(normalExit) => ShutdownKeepsInv(s, i, normalExit);
    case Snapshot => SnapshotKeepsInv(s, i);
    case Stop => StopKeepsInv(s, i);
    case Run =>
  }

  // ---------------------------------------------------------------- all sections of the runtime

  lemma WaitOverKeepsInv(s: State, i: nat)
    requires Inv(s) && CanStep(s, i, Run) && s.threads[i].pc.WaitOver?
    ensures Inv(RunStep(s, i))
  {
    hide ThreadsOk, TasksOk, RecordsOk, LocksOk, WorkersOk;
    var h := s.threads[i].pc.handle;
    var t := s.table.(edges := s.table.edges - {Cur(s.threads[i])});
    var mid := SetPc(SetTable(s, t), i, User);
    OneThread(s, i);
    ClearKeepsInv(s, i, User);
    if RunStep(s, i) != mid {
      EndingKeepsInv(mid, s.ending.(done := h));
    }
  }

  lemma NoteRunKeepsInv(s: State, i: nat)
    requires Inv(s) && CanStep(s, i, Run) && (s.threads[i].pc.Popped? || s.threads[i].pc.Helped?)
    ensures RunStep(s, i).fatal || Inv(RunStep(s, i))
  {
    hide ThreadsOk, TasksOk, RecordsOk, LocksOk, WorkersOk;
    var pc := s.threads[i].pc;
    OneThread(s, i);
    var target := if pc.Popped? then pc.task else pc.handle;
    var next := if pc.Popped? then HelpClaimed(pc.handle, pc.task) else LoopTop(pc.handle);
    NotedPcOk(s, i, target, next);
    if !RunStep(s, i).fatal {
      NotedKeepsInv(s, i, target, next);
    }
  }

  lemma BeginRunKeepsInv(s: State, i: nat)
    requires Inv(s) && CanStep(s, i, Run) && (s.threads[i].pc.Claimed? || s.threads[i].pc.HelpClaimed?)
    ensures Inv(RunStep(s, i))
  {
    hide ThreadsOk, TasksOk, RecordsOk, LocksOk, WorkersOk;
    var th := s.threads[i];
    OneThread(s, i);
    if th.pc.Claimed? {
      BeginKeepsInv(s, i, th.pc.task, th.waits, Fetch);
    } else {
      BeginKeepsInv(s, i, th.pc.task, th.waits + [th.pc.handle], Helped(th.pc.handle, th.pc.task));
    }
  }

  lemma RunKeepsInv(s: State, i: nat)
    requires Inv(s) && CanStep(s, i, Run) && !s.threads[i].pc.User?
    ensures RunStep(s, i).fatal || Inv(RunStep(s, i))
  {
    assert s.threads[i].pc.Returned? ==> ThreadOk(s, i);
    hide Inv;
    match s.threads[i].pc
    case Fetch => FetchKeepsInv(s, i);
    case Idle => IdleKeepsInv(s, i);
    case Claimed(_) => BeginRunKeepsInv(s, i);
    case LockNoted(_, _, _) => LockNotedKeepsInv(s, i);
    case LockWait(_, _, _) => LockWaitKeepsInv(s, i);
    case LockWoken(_, _) => LockWokenKeepsInv(s, i);
    case LoopTop(_) => LoopTopKeepsInv(s, i);
    case HoldsNothing(_) => LoopTopKeepsInv(s, i);
    case Decided(_, _) => DecidedKeepsInv(s, i);
    case TaskWait(_) => TaskWaitKeepsInv(s, i);
    case Popped(_, _) => NoteRunKeepsInv(s, i);
    case HelpClaimed(_, _) => BeginRunKeepsInv(s, i);
    case Helped(_, _) => NoteRunKeepsInv(s, i);
    case WaitOver(_) => WaitOverKeepsInv(s, i);
    case Returned(failure) => ReleaseAllKeepsInv(s, i, Released(failure));
    case Released(failure) => FinishKeepsInv(s, i, failure);
  }

  lemma SpuriousThreads(s: State, u: State)
    requires ThreadsOk(s)
    requires u == s.(sleepWork := u.sleepWork, sleepTask := u.sleepTask, sleepLock := u.sleepLock)
    requires u.sleepWork <= s.sleepWork && u.sleepTask <= s.sleepTask && u.sleepLock <= s.sleepLock
    ensures ThreadsOk(u)
  {
    forall j | 0 <= j < |u.threads| ensures ThreadOk(u, j) {
      assert ThreadOk(s, j);
      assert SleepOk(u, j);
      hide SleepOk;
      assert ShapeOk(u, j) && SuspendedOk(u, j) && PcOk(u, j);
    }
  }

  lemma SpuriousKeepsInv(s: State, i: nat)
    requires Inv(s) && CanHappen(s, SpuriousWake(i))
    ensures Inv(After(s, SpuriousWake(i)))
  {
    hide ThreadsOk, LocksOk, Sleeping;
    var u := After(s, SpuriousWake(i));
    SpuriousThreads(s, u);
    assert TasksOk(u) by {
      forall task | 1 <= task <= |u.loc| ensures LocOk(u, task) {
        assert LocOk(s, task);
      }
      forall j | 0 <= j < |u.pool.queue| ensures HasLoc(u, u.pool.queue[j], Queued) {
        assert HasLoc(s, s.pool.queue[j], Queued);
      }
    }
    hide TasksOk;
    SameTableLocks(s, u);
    assert IdleSet(u) == IdleSet(s) && BlockedSet(u) == BlockedSet(s);
    SubsetSize(u.sleepWork, s.sleepWork);
    assert WorkersOk(u) && EndingOk(u) && RecordsOk(u);
    hide RecordsOk, WorkersOk, EndingOk;
  }

  // Every event keeps the invariant or ends the program with a diagnosis.
  lemma EventKeepsInv(s: State, e: Event)
    requires Inv(s) && CanHappen(s, e)
    ensures After(s, e).fatal || Inv(After(s, e))
  {
    hide Inv;
    match e
    case ThreadStep(i, a) =>
      if s.threads[i].pc.User? {
        UserKeepsInv(s, i, a);
      } else {
        RunKeepsInv(s, i);
      }
    case SpuriousWake(i) => SpuriousKeepsInv(s, i);
  }
}
