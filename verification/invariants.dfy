/**
 What holds in every state of the runtime: where each task is, which wait edge each waiting task has,
 who can own a lock, and how the worker counters relate to the threads.
 */
module Invariants {
  import opened Basics
  import opened LockTable
  import opened TaskPool
  import opened Runtime

  // A task that runs on some thread, or the main program.
  ghost predicate Live(s: State, key: nat) {
    key == 0 || (1 <= key <= |s.loc| && s.loc[key - 1].OnStack?)
  }

  ghost predicate OwnsNothing(t: Table, key: nat) {
    forall id: nat :: Owner(t, id) != key
  }

  function ClaimOf(pc: Pc): Option<nat> {
    match pc
    case Claimed(task) => Some(task)
    case Popped(_, task) => Some(task)
    case HelpClaimed(_, task) => Some(task)
    case _ => None
  }

  predicate Unstacked(pc: Pc) {
    pc.Fetch? || pc.Idle? || pc.Claimed?
  }

  ghost predicate HasLoc(s: State, task: nat, loc: Loc) {
    1 <= task <= |s.loc| && s.loc[task - 1] == loc
  }

  // ---------------------------------------------------------------- one thread

  ghost predicate ShapeOk(s: State, i: nat)
    requires i < |s.threads|
  {
    var th := s.threads[i];
    && th.worker == (i > 0)
    && (i == 0 ==> th.stack != [] && th.stack[0] == 0)
    && (th.stack == [] <==> i > 0 && (Unstacked(th.pc) || th.pc.Exited?))
    && (Unstacked(th.pc) ==> th.stack == [])
    && |th.waits| == (if th.stack == [] then 0 else |th.stack| - 1)
    && (forall d :: 0 <= d < |th.stack| ==> (i == 0 && d == 0) || HasLoc(s, th.stack[d], OnStack(i, d)))
  }

  // Helper-stack discipline: a suspended task owns no lock and waits for the task above it.
  ghost predicate SuspendedOk(s: State, i: nat)
    requires i < |s.threads|
  {
    var th := s.threads[i];
    forall d :: 0 <= d < |th.stack| - 1 ==>
      && th.stack[d] in s.table.edges && s.table.edges[th.stack[d]] == OnTask(th.stack[d + 1])
      && OwnsNothing(s.table, th.stack[d])
      && (d < |th.waits| ==> ValidTask(s.pool, th.waits[d]))
  }

  ghost predicate Waits(s: State, th: Thread, e: WaitEdge) {
    th.stack != [] && Cur(th) in s.table.edges && s.table.edges[Cur(th)] == e
  }

  predicate ForOneOf(e: WaitEdge, ids: seq<nat>) {
    e.OnLock? && e.id in ids
  }

  ghost predicate PcOk(s: State, i: nat)
    requires i < |s.threads|
  {
    var th := s.threads[i];
    match th.pc
    case Fetch => true
    case Idle => true
    case Claimed(t) => HasLoc(s, t, ClaimedBy(i))
    case User => th.stack != [] && Cur(th) !in s.table.edges
    case LockNoted(ids, _, id) => Waits(s, th, OnLock(id)) && id in ids && Increasing(ids)
    case LockWait(ids, _, id) => Waits(s, th, OnLock(id)) && id in ids && Increasing(ids)
    case LockWoken(ids, _) =>
      && th.stack != [] && Increasing(ids)
      && (Cur(th) in s.table.edges ==> ForOneOf(s.table.edges[Cur(th)], ids))
    case LoopTop(h) => Waits(s, th, OnTask(h)) && ValidTask(s.pool, h)
    case HoldsNothing(h) => Waits(s, th, OnTask(h)) && ValidTask(s.pool, h) && OwnsNothing(s.table, Cur(th))
    case Decided(h, mayHelp) =>
      Waits(s, th, OnTask(h)) && ValidTask(s.pool, h) && (mayHelp ==> OwnsNothing(s.table, Cur(th)))
    case TaskWait(h) => Waits(s, th, OnTask(h)) && ValidTask(s.pool, h)
    case Popped(h, t) =>
      && Waits(s, th, OnTask(h)) && ValidTask(s.pool, h)
      && OwnsNothing(s.table, Cur(th)) && HasLoc(s, t, ClaimedBy(i))
    case HelpClaimed(h, t) =>
      && Waits(s, th, OnTask(t)) && ValidTask(s.pool, h)
      && OwnsNothing(s.table, Cur(th)) && HasLoc(s, t, ClaimedBy(i))
    case Helped(h, t) =>
      && Waits(s, th, OnTask(t)) && ValidTask(s.pool, h)
      && ValidTask(s.pool, t) && IsFinished(TaskAt(s.pool, t).state)
    case WaitOver(h) =>
      && Waits(s, th, OnTask(h)) && ValidTask(s.pool, h) && IsFinished(TaskAt(s.pool, h).state)
    case Returned(_) => th.stack != [] && Cur(th) > 0 && Cur(th) !in s.table.edges
    case Released(_) =>
      th.stack != [] && Cur(th) > 0 && Cur(th) !in s.table.edges && OwnsNothing(s.table, Cur(th))
    case Exited =>
      if i == 0 then (s.pool.stopping || !s.pool.started) && th.stack != [] && Cur(th) !in s.table.edges
      else s.pool.stopping
  }

  // No lost wake-up: a thread sleeps only while what it waits for has not happened.
  ghost predicate SleepOk(s: State, i: nat)
    requires i < |s.threads|
  {
    var th := s.threads[i];
    && (i in s.sleepWork ==> th.pc.Idle?)
    && (i in s.sleepTask ==>
          th.pc.TaskWait? && ValidTask(s.pool, th.pc.handle) && !IsFinished(TaskAt(s.pool, th.pc.handle).state))
    && (i in s.sleepLock ==>
          th.pc.LockWait? && th.stack != [] && Owner(s.table, th.pc.id) >= 0 && Owner(s.table, th.pc.id) != Cur(th))
  }

  ghost predicate ThreadOk(s: State, i: nat)
    requires i < |s.threads|
  {
    ShapeOk(s, i) && SuspendedOk(s, i) && PcOk(s, i) && SleepOk(s, i)
  }

  ghost predicate ThreadsOk(s: State) {
    && (forall i :: 0 <= i < |s.threads| ==> ThreadOk(s, i))
    && |s.threads| >= 1
    && (forall i :: i in s.sleepWork || i in s.sleepTask || i in s.sleepLock ==> i < |s.threads|)
  }

  lemma OneThread(s: State, i: nat)
    requires ThreadsOk(s) && i < |s.threads|
    ensures ThreadOk(s, i)
  {
  }

  // ---------------------------------------------------------------- one task

  // Exactly once: each task is in one place, and its record agrees with the place.
  ghost predicate LocOk(s: State, task: nat)
    requires 1 <= task <= |s.loc| && task <= |s.pool.tasks|
  {
    var state := s.pool.tasks[task - 1].state;
    match s.loc[task - 1]
    case Queued => task in s.pool.queue && state == Pending
    case ClaimedBy(i) => i < |s.threads| && ClaimOf(s.threads[i].pc) == Some(task) && state == Pending
    case OnStack(i, d) =>
      i < |s.threads| && d < |s.threads[i].stack| && s.threads[i].stack[d] == task && state == Running
    case Finished => IsFinished(state)
  }

  ghost predicate TasksOk(s: State) {
    && |s.loc| == |s.pool.tasks|
    && (forall task :: 1 <= task <= |s.loc| ==> LocOk(s, task))
    && (forall j :: 0 <= j < |s.pool.queue| ==> HasLoc(s, s.pool.queue[j], Queued))
    && (forall j, k :: 0 <= j < k < |s.pool.queue| ==> s.pool.queue[j] != s.pool.queue[k])
  }

  // How a task record relates its state, its error text and the calls of its thunk.
  ghost predicate RecordOk(t: TaskRun) {
    match t.state
    case Pending => t.thunkRuns == 0 && t.errorText == ""
    case Running => t.thunkRuns == 1
    case Done => t.thunkRuns == 1 && t.errorText == ""
    case Error => t.thunkRuns == 1 && t.errorText != "" && t.errorText != CANCELLED_TEXT
    case Cancelled => t.thunkRuns <= 1 && t.errorText == CANCELLED_TEXT
  }

  ghost predicate RecordsOk(s: State) {
    forall k :: 0 <= k < |s.pool.tasks| ==> RecordOk(s.pool.tasks[k])
  }

  // ---------------------------------------------------------------- locks and edges

  ghost predicate LocksOk(s: State) {
    && TableOk(s.table) && s.table.notified == {}
    && (forall id: nat :: Owner(s.table, id) >= 0 ==> Live(s, Owner(s.table, id)))
    && (forall k :: k in s.table.edges ==> Live(s, k))
  }

  // ---------------------------------------------------------------- workers

  ghost function IdleSet(s: State): set<nat> {
    set i: nat | i < |s.threads| && s.threads[i].pc.Idle?
  }

  predicate IsBlocked(th: Thread) {
    th.worker && (th.pc.LockWait? || th.pc.TaskWait?)
  }

  ghost function BlockedSet(s: State): set<nat> {
    set i: nat | i < |s.threads| && IsBlocked(s.threads[i])
  }

  ghost predicate WorkersOk(s: State) {
    var p := s.pool;
    && p.idleWorkers == |IdleSet(s)|
    && p.blockedWorkers == |BlockedSet(s)|
    && |s.threads| == 1 + Workers(p)
    && (!p.started ==> p.tasks == [] && p.queue == [] && Workers(p) == 0)
    // queued work leaves a worker that is not blocked
    && (!p.stopping && p.queue != [] ==> p.blockedWorkers < Workers(p))
    // and enough of the idle workers are awake for it
    && (!p.stopping && s.sleepWork != {} ==> |p.queue| <= p.idleWorkers - |s.sleepWork|)
  }

  ghost predicate EndingOk(s: State) {
    match s.ending
    case NotEnding => !s.pool.stopping
    case Releasing(_) => !s.pool.stopping
    case Draining(all, done) =>
      && done <= all <= |s.pool.tasks|
      && (forall k :: 0 <= k < done ==> IsFinished(s.pool.tasks[k].state))
      && (s.pool.stopping ==> done == all)
  }

  // What every step keeps; that the wait graph is acyclic is kept separately.
  ghost predicate Inv(s: State) {
    ThreadsOk(s) && TasksOk(s) && RecordsOk(s) && LocksOk(s) && WorkersOk(s) && EndingOk(s)
  }

  // ---------------------------------------------------------------- what a step leaves alone

  ghost predicate MyKey(s: State, i: nat, key: nat)
    requires i < |s.threads|
  {
    s.threads[i].stack != [] && key == Cur(s.threads[i])
  }

  ghost predicate Mine(s: State, i: nat, owner: int)
    requires i < |s.threads|
  {
    owner == -1 || (owner >= 0 && MyKey(s, i, owner))
  }

  predicate Foreign(l: Loc, i: nat) {
    (l.ClaimedBy? || l.OnStack?) && l.thread != i
  }

  ghost predicate FrameThreads(s: State, u: State, i: nat)
    requires i < |s.threads|
  {
    && |s.threads| <= |u.threads|
    && (forall j :: 0 <= j < |s.threads| && j != i ==> u.threads[j] == s.threads[j])
    && (forall j :: |s.threads| <= j < |u.threads| ==> u.threads[j] == NEW_WORKER)
  }

  ghost predicate FrameTasks(s: State, u: State, i: nat)
    requires i < |s.threads|
  {
    && |s.loc| <= |u.loc| && |s.pool.tasks| <= |u.pool.tasks|
    && (forall k :: 0 <= k < |s.loc| && Foreign(s.loc[k], i) ==> u.loc[k] == s.loc[k])
    && (forall k :: 0 <= k < |s.pool.tasks| && IsFinished(s.pool.tasks[k].state) ==> IsFinished(u.pool.tasks[k].state))
    && (forall j, k :: 0 <= k < |s.pool.tasks| && j in u.sleepTask && j != i ==>
          (IsFinished(s.pool.tasks[k].state) <==> IsFinished(u.pool.tasks[k].state)))
    && (s.pool.stopping ==> u.pool.stopping)
    && (s.pool.started ==> u.pool.started)
    && (!s.pool.started && u.pool.started ==> i == 0)
  }

  ghost predicate FrameLocks(s: State, u: State, i: nat)
    requires i < |s.threads|
  {
    && (forall k: nat :: !MyKey(s, i, k) ==>
          && (k in u.table.edges <==> k in s.table.edges)
          && (k in s.table.edges ==> u.table.edges[k] == s.table.edges[k]))
    && (forall id: nat :: Owner(u.table, id) == Owner(s.table, id)
                          || (Mine(s, i, Owner(s.table, id)) && Mine(s, i, Owner(u.table, id))))
  }

  ghost predicate FrameSleep(s: State, u: State, i: nat)
    requires i < |s.threads|
  {
    && (forall j :: j != i && j in u.sleepWork ==> j in s.sleepWork)
    && (forall j :: j != i && j in u.sleepTask ==> j in s.sleepTask)
    && (forall j :: j != i && j in u.sleepLock ==> j in s.sleepLock)
    && (forall j :: j != i && j in u.sleepLock && j < |s.threads| && s.threads[j].pc.LockWait? ==>
          Owner(s.table, s.threads[j].pc.id) >= 0 ==> Owner(u.table, s.threads[j].pc.id) >= 0)
  }

  ghost predicate Frame(s: State, u: State, i: nat)
    requires i < |s.threads|
  {
    FrameThreads(s, u, i) && FrameTasks(s, u, i) && FrameLocks(s, u, i) && FrameSleep(s, u, i)
  }

  // A task on another thread's stack is not the current task of thread i.
  lemma StacksDisjoint(s: State, i: nat, j: nat, d: nat)
    requires i < |s.threads| && j < |s.threads| && i != j
    requires ShapeOk(s, i) && ShapeOk(s, j)
    requires d < |s.threads[j].stack|
    ensures !MyKey(s, i, s.threads[j].stack[d])
  {
    if s.threads[i].stack != [] {
      var e := |s.threads[i].stack| - 1;
      assert (i == 0 && e == 0) || HasLoc(s, s.threads[i].stack[e], OnStack(i, e));
      assert (j == 0 && d == 0) || HasLoc(s, s.threads[j].stack[d], OnStack(j, d));
    }
  }

  lemma ForeignKeepsLoc(s: State, u: State, i: nat, task: nat, loc: Loc)
    requires i < |s.threads| && FrameTasks(s, u, i)
    requires HasLoc(s, task, loc) && Foreign(loc, i)
    ensures HasLoc(u, task, loc)
  {
    assert u.loc[task - 1] == s.loc[task - 1];
  }

  lemma ForeignOwnsNothing(s: State, u: State, i: nat, key: nat)
    requires i < |s.threads| && FrameLocks(s, u, i)
    requires !MyKey(s, i, key) && OwnsNothing(s.table, key)
    ensures OwnsNothing(u.table, key)
  {
    forall id: nat ensures Owner(u.table, id) != key {
      assert Owner(s.table, id) != key;
    }
  }

  lemma OtherShape(s: State, u: State, i: nat, j: nat)
    requires i < |s.threads| && j < |s.threads| && i != j
    requires Frame(s, u, i) && ThreadOk(s, j)
    ensures ShapeOk(u, j)
  {
    var th := s.threads[j];
    forall d | 0 <= d < |th.stack| ensures (j == 0 && d == 0) || HasLoc(u, th.stack[d], OnStack(j, d)) {
      if !(j == 0 && d == 0) {
        ForeignKeepsLoc(s, u, i, th.stack[d], OnStack(j, d));
      }
    }
  }

  lemma OtherSuspended(s: State, u: State, i: nat, j: nat)
    requires i < |s.threads| && j < |s.threads| && i != j
    requires Frame(s, u, i) && ThreadOk(s, i) && ThreadOk(s, j)
    ensures SuspendedOk(u, j)
  {
    var th := s.threads[j];
    forall d | 0 <= d < |th.stack| - 1
      ensures && th.stack[d] in u.table.edges && u.table.edges[th.stack[d]] == OnTask(th.stack[d + 1])
              && OwnsNothing(u.table, th.stack[d])
              && (d < |th.waits| ==> ValidTask(u.pool, th.waits[d]))
    {
      StacksDisjoint(s, i, j, d);
      ForeignOwnsNothing(s, u, i, th.stack[d]);
    }
  }

  lemma OtherPc(s: State, u: State, i: nat, j: nat)
    requires i < |s.threads| && j < |s.threads| && i != j
    requires Frame(s, u, i) && ThreadOk(s, i) && ThreadOk(s, j)
    ensures PcOk(u, j)
  {
    var th := s.threads[j];
    if th.stack != [] {
      StacksDisjoint(s, i, j, |th.stack| - 1);
      if OwnsNothing(s.table, Cur(th)) {
        ForeignOwnsNothing(s, u, i, Cur(th));
      }
    }
    if ClaimOf(th.pc).Some? {
      ForeignKeepsLoc(s, u, i, ClaimOf(th.pc).value, ClaimedBy(j));
    }
  }

  lemma OtherSleep(s: State, u: State, i: nat, j: nat)
    requires i < |s.threads| && j < |s.threads| && i != j
    requires Frame(s, u, i) && ThreadOk(s, i) && ThreadOk(s, j)
    ensures SleepOk(u, j)
  {
    var th := s.threads[j];
    if j in u.sleepLock {
      StacksDisjoint(s, i, j, |th.stack| - 1);
    }
  }

  // Threads other than the one that steps keep their part of the invariant.
  lemma OthersKeepOk(s: State, u: State, i: nat, j: nat)
    requires i < |s.threads| && j < |s.threads| && i != j
    requires Frame(s, u, i) && ThreadOk(s, i) && ThreadOk(s, j)
    ensures ThreadOk(u, j)
  {
    OtherShape(s, u, i, j);
    OtherSuspended(s, u, i, j);
    OtherPc(s, u, i, j);
    OtherSleep(s, u, i, j);
  }

  lemma ThreadsKeepOk(s: State, u: State, i: nat)
    requires ThreadsOk(s) && i < |s.threads| && Frame(s, u, i)
    requires ThreadOk(u, i)
    ensures ThreadsOk(u)
  {
    forall j | 0 <= j < |u.threads| ensures ThreadOk(u, j) {
      if j < |s.threads| && j != i {
        OthersKeepOk(s, u, i, j);
      }
    }
  }
}
