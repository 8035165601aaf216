/**
 The sections of the task pool keep the invariant of the runtime.
 */
module PoolSteps {
  import opened Basics
  import opened LockTable
  import opened TaskPool
  import opened Runtime
  import opened Invariants

  // ---------------------------------------------------------------- counting threads

  lemma SetsAfterOneChange(a: set<nat>, b: set<nat>, i: nat)
    requires forall j: nat :: j != i ==> (j in a <==> j in b)
    ensures |b| == |a| + (if i in b then 1 else 0) - (if i in a then 1 else 0)
  {
    assert a - {i} == b - {i} by {
      forall j: nat ensures j in a - {i} <==> j in b - {i} {
      }
    }
    if i in a {
      assert |a - {i}| == |a| - 1;
    } else {
      assert a - {i} == a;
    }
    if i in b {
      assert |b - {i}| == |b| - 1;
    } else {
      assert b - {i} == b;
    }
  }

  lemma CountsAfter(s: State, u: State, i: nat)
    requires i < |s.threads| && FrameThreads(s, u, i)
    ensures |IdleSet(u)| == |IdleSet(s)| + (if u.threads[i].pc.Idle? then 1 else 0)
                            - (if s.threads[i].pc.Idle? then 1 else 0)
    ensures |BlockedSet(u)| == |BlockedSet(s)| + (if IsBlocked(u.threads[i]) then 1 else 0)
                               - (if IsBlocked(s.threads[i]) then 1 else 0)
  {
    forall j: nat | j != i
      ensures (j in IdleSet(s) <==> j in IdleSet(u)) && (j in BlockedSet(s) <==> j in BlockedSet(u))
    {
      if j < |s.threads| {
        assert u.threads[j] == s.threads[j];
      } else if j < |u.threads| {
        assert u.threads[j] == NEW_WORKER;
      }
    }
    SetsAfterOneChange(IdleSet(s), IdleSet(u), i);
    SetsAfterOneChange(BlockedSet(s), BlockedSet(u), i);
  }

  function Indices(n: nat): set<nat> {
    if n == 0 then {} else Indices(n - 1) + {n}
  }

  lemma IndicesAre(n: nat)
    ensures |Indices(n)| == n && forall j: nat :: j in Indices(n) <==> 1 <= j <= n
  {
    if n > 0 {
      IndicesAre(n - 1);
    }
  }

  lemma SubsetSize(a: set<nat>, b: set<nat>)
    requires a <= b
    ensures |a| <= |b|
  {
    assert b == a + (b - a);
  }

  // A worker is idle, or blocked, or neither; and only workers are.
  lemma IdlePlusBlocked(s: State)
    requires ThreadsOk(s)
    ensures |IdleSet(s)| + |BlockedSet(s)| <= |s.threads| - 1
    ensures forall i: nat :: i in IdleSet(s) ==> i !in BlockedSet(s) && 0 < i < |s.threads|
  {
    var n := |s.threads| - 1;
    IndicesAre(n);
    forall i: nat | i in IdleSet(s) + BlockedSet(s) ensures i in Indices(n) {
      assert ThreadOk(s, i);
    }
    SubsetSize(IdleSet(s) + BlockedSet(s), Indices(n));
    assert IdleSet(s) !! BlockedSet(s);
    assert |IdleSet(s) + BlockedSet(s)| == |IdleSet(s)| + |BlockedSet(s)|;
    forall i: nat | i in IdleSet(s) ensures 0 < i < |s.threads| {
      assert ThreadOk(s, i);
    }
  }

  // ---------------------------------------------------------------- pieces shared by the steps

  lemma SameTableLocks(s: State, u: State)
    requires LocksOk(s) && u.table == s.table
    requires forall k: nat :: Live(s, k) && !Live(u, k) ==> OwnsNothing(s.table, k) && k !in s.table.edges
    ensures LocksOk(u)
  {
    forall id: nat | Owner(u.table, id) >= 0 ensures Live(u, Owner(u.table, id)) {
      assert Live(s, Owner(s.table, id));
    }
  }

  lemma OwnShapeKept(s: State, u: State, i: nat)
    requires i < |s.threads| && i < |u.threads| && ShapeOk(s, i)
    requires u.threads[i].worker == s.threads[i].worker
    requires u.threads[i].stack == s.threads[i].stack && u.threads[i].waits == s.threads[i].waits
    requires (Unstacked(u.threads[i].pc) || (u.threads[i].pc.Exited? && i > 0))
             <==> (Unstacked(s.threads[i].pc) || (s.threads[i].pc.Exited? && i > 0))
    requires |s.loc| <= |u.loc|
    requires forall k, d :: 0 <= k < |s.loc| && s.loc[k] == OnStack(i, d) ==> u.loc[k] == s.loc[k]
    ensures ShapeOk(u, i)
  {
    var th := s.threads[i];
    forall d | 0 <= d < |th.stack| ensures (i == 0 && d == 0) || HasLoc(u, th.stack[d], OnStack(i, d)) {
      assert (i == 0 && d == 0) || HasLoc(s, th.stack[d], OnStack(i, d));
    }
  }

  // Tasks when a thread moves on without touching stacks, claims or task states.
  lemma TasksUntouched(s: State, u: State, i: nat)
    requires TasksOk(s) && i < |s.threads| && FrameThreads(s, u, i)
    requires u.loc == s.loc && u.pool.queue == s.pool.queue
    requires |u.pool.tasks| == |s.pool.tasks|
    requires forall k :: 0 <= k < |s.pool.tasks| ==> u.pool.tasks[k].state == s.pool.tasks[k].state
    requires u.threads[i].stack == s.threads[i].stack && ClaimOf(u.threads[i].pc) == ClaimOf(s.threads[i].pc)
    ensures TasksOk(u)
  {
    forall task | 1 <= task <= |u.loc| ensures LocOk(u, task) {
      assert LocOk(s, task);
    }
    forall j | 0 <= j < |u.pool.queue| ensures HasLoc(u, u.pool.queue[j], Queued) {
      assert HasLoc(s, s.pool.queue[j], Queued);
    }
  }

  // A step that changes one thread's pc and nothing else.
  lemma PcStepKeepsInv(s: State, i: nat, pc: Pc)
    requires Inv(s) && i < |s.threads| && !Sleeping(s, i)
    requires ClaimOf(pc) == ClaimOf(s.threads[i].pc)
    requires !Unstacked(s.threads[i].pc) && !s.threads[i].pc.Exited? && !Unstacked(pc) && !pc.Exited?
    requires IsBlocked(s.threads[i]) == IsBlocked(s.threads[i].(pc := pc))
    requires PcOk(SetPc(s, i, pc), i)
    ensures Inv(SetPc(s, i, pc))
  {
    var u := SetPc(s, i, pc);
    assert ThreadOk(s, i);
    OwnShapeKept(s, u, i);
    ThreadsKeepOk(s, u, i);
    TasksUntouched(s, u, i);
    SameTableLocks(s, u);
    CountsAfter(s, u, i);
    assert WorkersOk(u) && EndingOk(u) && RecordsOk(u);
    hide ThreadsOk, TasksOk, RecordsOk, LocksOk, WorkersOk, EndingOk;
  }

  // ---------------------------------------------------------------- claiming a task

  lemma PopTasks(s: State, u: State, i: nat)
    requires TasksOk(s) && i < |s.threads| && s.pool.queue != []
    requires u.pool.tasks == s.pool.tasks && u.pool.queue == s.pool.queue[1..]
    requires FrameThreads(s, u, i)
    requires |u.loc| == |s.loc| && HasLoc(u, s.pool.queue[0], ClaimedBy(i))
    requires forall k :: 0 <= k < |s.loc| && k != s.pool.queue[0] - 1 ==> u.loc[k] == s.loc[k]
    requires u.threads[i].stack == s.threads[i].stack
    requires ClaimOf(s.threads[i].pc) == None && ClaimOf(u.threads[i].pc) == Some(s.pool.queue[0])
    ensures TasksOk(u)
  {
    var t := s.pool.queue[0];
    assert HasLoc(s, t, Queued) && LocOk(s, t);
    forall task | 1 <= task <= |u.loc| ensures LocOk(u, task) {
      assert LocOk(s, task);
      if task != t && s.loc[task - 1].Queued? {
        assert s.pool.queue == [t] + s.pool.queue[1..];
      }
    }
    forall j | 0 <= j < |u.pool.queue| ensures HasLoc(u, u.pool.queue[j], Queued) {
      assert HasLoc(s, s.pool.queue[j + 1], Queued);
      assert s.pool.queue[0] != s.pool.queue[j + 1];
    }
  }

  // A worker from the top of its loop or out of its sleep, or a waiter that may help.
  ghost predicate CanPop(s: State, i: nat, idle: int, pc: Pc) {
    && Inv(s) && i < |s.threads| && !Sleeping(s, i) && s.pool.queue != []
    && idle == s.pool.idleWorkers - (if s.threads[i].pc.Idle? then 1 else 0)
    && ClaimOf(s.threads[i].pc) == None
    && var t := s.pool.queue[0];
       if s.threads[i].pc.Decided? then s.threads[i].pc.mayHelp && pc == Popped(s.threads[i].pc.handle, t)
       else (s.threads[i].pc.Fetch? || s.threads[i].pc.Idle?) && pc == Claimed(t)
  }

  function Popping(s: State, i: nat, idle: int, pc: Pc): State
    requires i < |s.threads| && s.pool.queue != []
  {
    SetPc(Pop(s.(pool := s.pool.(idleWorkers := idle)), i), i, pc)
  }

  lemma PopIs(s: State, i: nat, idle: int, pc: Pc)
    requires CanPop(s, i, idle, pc)
    ensures var u := Popping(s, i, idle, pc);
            && HasLoc(s, s.pool.queue[0], Queued)
            && u == s.(pool := s.pool.(idleWorkers := idle, queue := s.pool.queue[1..]),
                       threads := s.threads[i := s.threads[i].(pc := pc)],
                       loc := s.loc[s.pool.queue[0] - 1 := ClaimedBy(i)])
  {
    assert HasLoc(s, s.pool.queue[0], Queued);
  }

  // The claiming thread itself, from the parts of the invariant that concern it.
  lemma PopOwn(s: State, u: State, i: nat)
    requires i < |s.threads| && i < |u.threads| && ThreadOk(s, i) && !Sleeping(s, i) && s.pool.queue != []
    requires ClaimOf(s.threads[i].pc) == None
    requires var t := s.pool.queue[0];
             var pc := u.threads[i].pc;
             && HasLoc(s, t, Queued)
             && u == s.(pool := s.pool.(idleWorkers := u.pool.idleWorkers, queue := s.pool.queue[1..]),
                        threads := s.threads[i := s.threads[i].(pc := pc)],
                        loc := s.loc[t - 1 := ClaimedBy(i)])
             && if s.threads[i].pc.Decided? then s.threads[i].pc.mayHelp && pc == Popped(s.threads[i].pc.handle, t)
                else (s.threads[i].pc.Fetch? || s.threads[i].pc.Idle?) && pc == Claimed(t)
    ensures ThreadOk(u, i) && Frame(s, u, i)
  {
    OwnShapeKept(s, u, i);
  }

  lemma PopThreads(s: State, i: nat, idle: int, pc: Pc)
    requires CanPop(s, i, idle, pc)
    ensures ThreadsOk(Popping(s, i, idle, pc))
  {
    var u := Popping(s, i, idle, pc);
    PopIs(s, i, idle, pc);
    assert ThreadOk(s, i);
    PopOwn(s, u, i);
    ThreadsKeepOk(s, u, i);
  }

  lemma PopKeepsInv(s: State, i: nat, idle: int, pc: Pc)
    requires CanPop(s, i, idle, pc)
    ensures Inv(Popping(s, i, idle, pc))
  {
    var u := Popping(s, i, idle, pc);
    PopIs(s, i, idle, pc);
    PopThreads(s, i, idle, pc);
    PopTasks(s, u, i);
    SameTableLocks(s, u);
    CountsAfter(s, u, i);
    SleepersAreIdle(s, i);
  }

  // An idle thread that is awake is one more than the sleepers.
  lemma SleepersAreIdle(s: State, i: nat)
    requires ThreadsOk(s) && i < |s.threads| && i !in s.sleepWork
    ensures |s.sleepWork| + (if s.threads[i].pc.Idle? then 1 else 0) <= |IdleSet(s)|
  {
    forall j: nat | j in s.sleepWork ensures j in IdleSet(s) {
      assert ThreadOk(s, j);
    }
    if s.threads[i].pc.Idle? {
      assert i in IdleSet(s);
      SubsetSize(s.sleepWork + {i}, IdleSet(s));
      assert |s.sleepWork + {i}| == |s.sleepWork| + 1;
    } else {
      SubsetSize(s.sleepWork, IdleSet(s));
    }
  }

  // ---------------------------------------------------------------- sections of the pool

  // A thread moves on without changing its stack or the lock table.
  lemma MoveKeepsThreads(s: State, u: State, i: nat)
    requires Inv(s) && i < |s.threads| && Frame(s, u, i) && u.table == s.table
    requires u.threads[i].worker == s.threads[i].worker
    requires u.threads[i].stack == s.threads[i].stack && u.threads[i].waits == s.threads[i].waits
    requires (Unstacked(u.threads[i].pc) || (u.threads[i].pc.Exited? && i > 0))
             <==> (Unstacked(s.threads[i].pc) || (s.threads[i].pc.Exited? && i > 0))
    requires forall k, d :: 0 <= k < |s.loc| && s.loc[k] == OnStack(i, d) ==> u.loc[k] == s.loc[k]
    requires PcOk(u, i) && SleepOk(u, i)
    requires forall j: nat :: j in u.sleepWork || j in u.sleepTask || j in u.sleepLock ==> j < |u.threads|
    ensures ThreadsOk(u)
  {
    assert ThreadOk(s, i);
    OwnShapeKept(s, u, i);
    assert SuspendedOk(u, i);
    ThreadsKeepOk(s, u, i);
  }

  // A move that leaves tasks, queue and locks alone.
  lemma MoveKeepsInv(s: State, u: State, i: nat)
    requires Inv(s) && i < |s.threads| && FrameThreads(s, u, i) && u.table == s.table && u.loc == s.loc
    requires u.pool.tasks == s.pool.tasks && u.pool.queue == s.pool.queue && u.ending == s.ending
    requires u.pool.started == s.pool.started && u.pool.stopping == s.pool.stopping
    requires u.threads[i].worker == s.threads[i].worker
    requires u.threads[i].stack == s.threads[i].stack && u.threads[i].waits == s.threads[i].waits
    requires (Unstacked(u.threads[i].pc) || (u.threads[i].pc.Exited? && i > 0))
             <==> (Unstacked(s.threads[i].pc) || (s.threads[i].pc.Exited? && i > 0))
    requires ClaimOf(u.threads[i].pc) == ClaimOf(s.threads[i].pc)
    requires u.sleepWork - {i} <= s.sleepWork && u.sleepTask - {i} <= s.sleepTask && u.sleepLock - {i} <= s.sleepLock
    requires PcOk(u, i) && SleepOk(u, i)
    requires WorkersOk(u)
    ensures Inv(u)
  {
    assert FrameSleep(s, u, i) by {
      forall j: nat | j != i ensures j in u.sleepWork ==> j in s.sleepWork {
        assert j in u.sleepWork ==> j in u.sleepWork - {i};
      }
      forall j: nat | j != i ensures j in u.sleepTask ==> j in s.sleepTask {
        assert j in u.sleepTask ==> j in u.sleepTask - {i};
      }
      forall j: nat | j != i ensures j in u.sleepLock ==> j in s.sleepLock {
        assert j in u.sleepLock ==> j in u.sleepLock - {i};
      }
    }
    MoveKeepsThreads(s, u, i);
    TasksUntouched(s, u, i);
    SameTableLocks(s, u);
  }

  lemma FetchKeepsInv(s: State, i: nat)
    requires Inv(s) && CanStep(s, i, Run) && s.threads[i].pc.Fetch?
    ensures Inv(FetchStep(s, i))
  {
    hide ThreadsOk, TasksOk, RecordsOk, LocksOk, EndingOk;
    var u := FetchStep(s, i);
    if s.pool.queue != [] {
      assert s.(pool := s.pool.(idleWorkers := s.pool.idleWorkers)) == s;
      PopKeepsInv(s, i, s.pool.idleWorkers, Claimed(s.pool.queue[0]));
    } else {
      OneThread(s, i);
      CountsAfter(s, u, i);
      SleepersAreIdle(s, i);
      MoveKeepsInv(s, u, i);
    }
  }

  lemma IdleKeepsInv(s: State, i: nat)
    requires Inv(s) && CanStep(s, i, Run) && s.threads[i].pc.Idle?
    ensures Inv(IdleStep(s, i))
  {
    hide ThreadsOk, TasksOk, RecordsOk, LocksOk, EndingOk;
    var u := IdleStep(s, i);
    if s.pool.queue != [] {
      PopKeepsInv(s, i, s.pool.idleWorkers - 1, Claimed(s.pool.queue[0]));
    } else {
      OneThread(s, i);
      CountsAfter(s, u, i);
      SleepersAreIdle(s, i);
      MoveKeepsInv(s, u, i);
    }
  }

  // ---------------------------------------------------------------- compensation workers

  // After maybe_add_worker_locked queued work finds a worker that is not blocked.
  lemma MaybeAddHelps(p: Pool)
    requires 0 <= p.idleWorkers && p.idleWorkers + p.blockedWorkers <= Workers(p)
    ensures var q := MaybeAddWorker(p);
            && q == p.(extraWorkers := q.extraWorkers) && Workers(q) >= Workers(p)
            && (p.started && !p.stopping && p.queue != [] ==> q.blockedWorkers < Workers(q))
            && (!p.started ==> q == p)
  {
  }

  // The thread table after a section that may have started workers.
  lemma SetPoolFrames(s: State, p: Pool, i: nat, pc: Pc)
    requires i < |s.threads| && Workers(p) >= Workers(s.pool)
    ensures var u := SetPc(SetPool(s, p), i, pc);
            && FrameThreads(s, u, i) && u.threads[i] == s.threads[i].(pc := pc)
            && |u.threads| == |s.threads| + Workers(p) - Workers(s.pool)
  {
  }

  // Entering a wait, for a lock or for a task, from a counted or uncounted thread.
  lemma BlockWorkers(s: State, i: nat, pc: Pc)
    requires Inv(s) && i < |s.threads| && !s.threads[i].pc.Idle?
    requires !s.threads[i].pc.LockWait? && !s.threads[i].pc.TaskWait? && (pc.LockWait? || pc.TaskWait?)
    ensures var p := BlockBegin(s.pool, s.threads[i].worker);
            && Workers(p) >= Workers(s.pool)
            && p == s.pool.(blockedWorkers := p.blockedWorkers, extraWorkers := p.extraWorkers)
            && WorkersOk(SetPc(SetPool(s, p), i, pc))
  {
    var before := if s.threads[i].worker then s.pool.(blockedWorkers := s.pool.blockedWorkers + 1) else s.pool;
    var p := BlockBegin(s.pool, s.threads[i].worker);
    var mid := SetPc(s, i, pc);
    CountsAfter(s, mid, i);
    IdlePlusBlockedAfter(s, i, pc);
    MaybeAddHelps(before);
    SetPoolFrames(s, p, i, pc);
    CountsAfter(s, SetPc(SetPool(s, p), i, pc), i);
  }

  lemma IdlePlusBlockedAfter(s: State, i: nat, pc: Pc)
    requires ThreadsOk(s) && i < |s.threads|
    requires !s.threads[i].pc.Idle? && !pc.Idle?
    ensures |IdleSet(SetPc(s, i, pc))| + |BlockedSet(SetPc(s, i, pc))| <= |s.threads| - 1
  {
    var u := SetPc(s, i, pc);
    var n := |s.threads| - 1;
    IndicesAre(n);
    forall j: nat | j in IdleSet(u) + BlockedSet(u) ensures j in Indices(n) {
      assert ThreadOk(s, j);
    }
    SubsetSize(IdleSet(u) + BlockedSet(u), Indices(n));
    assert IdleSet(u) !! BlockedSet(u);
    assert |IdleSet(u) + BlockedSet(u)| == |IdleSet(u)| + |BlockedSet(u)|;
  }

  lemma LockNotedKeepsInv(s: State, i: nat)
    requires Inv(s) && CanStep(s, i, Run) && s.threads[i].pc.LockNoted?
    ensures Inv(RunStep(s, i))
  {
    hide ThreadsOk, TasksOk, RecordsOk, LocksOk, EndingOk;
    var th := s.threads[i];
    var pc := LockWait(th.pc.ids, th.pc.explicitly, th.pc.id);
    var p := BlockBegin(s.pool, th.worker);
    OneThread(s, i);
    BlockWorkers(s, i, pc);
    SetPoolFrames(s, p, i, pc);
    MoveKeepsInv(s, RunStep(s, i), i);
  }

  lemma LockWaitKeepsInv(s: State, i: nat)
    requires Inv(s) && CanStep(s, i, Run) && s.threads[i].pc.LockWait?
    ensures Inv(RunStep(s, i))
  {
    hide ThreadsOk, TasksOk, RecordsOk, LocksOk, EndingOk;
    var u := RunStep(s, i);
    OneThread(s, i);
    CountsAfter(s, u, i);
    MoveKeepsInv(s, u, i);
  }

  lemma TaskWaitKeepsInv(s: State, i: nat)
    requires Inv(s) && CanStep(s, i, Run) && s.threads[i].pc.TaskWait?
    ensures Inv(RunStep(s, i))
  {
    hide ThreadsOk, TasksOk, RecordsOk, LocksOk, EndingOk;
    var u := RunStep(s, i);
    OneThread(s, i);
    CountsAfter(s, u, i);
    MoveKeepsInv(s, u, i);
  }

  // sync_holds_any answers whether the task owns a lock.
  lemma HoldsAnyIsExact(t: Table, key: nat)
    requires TableOk(t)
    ensures key in t.held <==> !OwnsNothing(t, key)
  {
    assert HeldCount(t, key) == |OwnedBy(t, key)|;
    if OwnsNothing(t, key) {
      forall id: nat ensures id !in OwnedBy(t, key) {
        assert Owner(t, id) != key;
      }
      assert OwnedBy(t, key) == {};
    } else {
      var id: nat :| Owner(t, id) == key;
      assert id in OwnedBy(t, key);
    }
  }

  lemma LoopTopKeepsInv(s: State, i: nat)
    requires Inv(s) && CanStep(s, i, Run) && (s.threads[i].pc.LoopTop? || s.threads[i].pc.HoldsNothing?)
    ensures Inv(RunStep(s, i))
  {
    hide ThreadsOk, TasksOk, RecordsOk, TableOk, EndingOk;
    var th := s.threads[i];
    OneThread(s, i);
    HoldsAnyIsExact(s.table, Cur(th));
    PcStepKeepsInv(s, i, RunStep(s, i).threads[i].pc);
  }

  lemma SleepersUncounted(u: State, v: State)
    requires WorkersOk(u) && v == u.(sleepTask := v.sleepTask)
    ensures WorkersOk(v)
  {
    assert IdleSet(u) == IdleSet(v) && BlockedSet(u) == BlockedSet(v);
  }

  lemma SleepForTaskOwn(s: State, u: State, i: nat)
    requires i < |s.threads| && i < |u.threads| && s.threads[i].pc.Decided? && PcOk(s, i)
    requires !Sleeping(s, i)
    requires u.threads[i] == s.threads[i].(pc := TaskWait(s.threads[i].pc.handle))
    requires u.table == s.table && u.pool.tasks == s.pool.tasks
    requires u.sleepWork == s.sleepWork && u.sleepLock == s.sleepLock && u.sleepTask == s.sleepTask + {i}
    requires !IsFinished(TaskAt(s.pool, s.threads[i].pc.handle).state)
    ensures PcOk(u, i) && SleepOk(u, i)
  {
  }

  lemma SleepForTaskKeepsInv(s: State, i: nat)
    requires Inv(s) && CanStep(s, i, Run) && s.threads[i].pc.Decided?
    requires ValidTask(s.pool, s.threads[i].pc.handle) && !IsFinished(TaskAt(s.pool, s.threads[i].pc.handle).state)
    requires !s.threads[i].pc.mayHelp || s.pool.queue == []
    ensures Inv(RunStep(s, i))
  {
    hide ThreadsOk, TasksOk, RecordsOk, LocksOk, EndingOk;
    var th := s.threads[i];
    var pc := TaskWait(th.pc.handle);
    var p := BlockBegin(s.pool, th.worker);
    var mid := SetPc(SetPool(s, p), i, pc);
    var u := mid.(sleepTask := s.sleepTask + {i});
    OneThread(s, i);
    BlockWorkers(s, i, pc);
    SetPoolFrames(s, p, i, pc);
    SleepersUncounted(mid, u);
    SleepForTaskOwn(s, u, i);
    MoveKeepsInv(s, u, i);
  }

  lemma DecidedKeepsInv(s: State, i: nat)
    requires Inv(s) && CanStep(s, i, Run) && s.threads[i].pc.Decided?
    ensures Inv(RunStep(s, i))
  {
    hide ThreadsOk, TasksOk, RecordsOk, LocksOk, EndingOk;
    var th := s.threads[i];
    var h := th.pc.handle;
    OneThread(s, i);
    if IsFinished(TaskAt(s.pool, h).state) {
      PcStepKeepsInv(s, i, WaitOver(h));
    } else if th.pc.mayHelp && s.pool.queue != [] {
      assert s.(pool := s.pool.(idleWorkers := s.pool.idleWorkers)) == s;
      PopKeepsInv(s, i, s.pool.idleWorkers, Popped(h, s.pool.queue[0]));
    } else {
      SleepForTaskKeepsInv(s, i);
    }
  }
}
