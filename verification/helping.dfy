/**
 When a waiting task takes over another one: what wait_finished decides, in every run. A task that waits
 becomes a helper only if it owned no lock when it looked and no LOCK was open anywhere, and then it takes the
 oldest task that nobody has taken.
 */
module Helping {
  import opened Basics
  import opened LockTable
  import opened LockAccounting
  import opened TaskPool
  import opened WaitGraph
  import opened Runtime
  import opened Invariants
  import opened PoolSteps
  import opened Runs
  import opened Outcomes

  lemma {:induction false} TotalCounts(keys: set<nat>, m: map<nat, seq<seq<nat>>>)
    requires keys <= m.Keys && forall k :: k in m ==> m[k] != []
    ensures Total(keys, m) == 0 <==> keys == {}
  {
    if keys != {} {
      var k :| k in keys && Total(keys, m) == |m[k]| + Total(keys - {k}, m);
      assert m[k] != [];
    }
  }

  // sync_explicit_total is zero exactly when no task has an open LOCK.
  lemma EntriesCountLocks(t: Table)
    requires TableOk(t)
    ensures t.entries == 0 <==> forall k: nat :: StackOf(t, k) == []
  {
    TotalCounts(t.stacks.Keys, t.stacks);
    if t.entries != 0 {
      var k :| k in t.stacks.Keys;
      assert StackOf(t, k) != [];
    }
  }

  // A thread takes its next section in step n.
  ghost predicate RunsAt(configured: nat, run: seq<State>, n: nat, i: nat) {
    && Arrived(configured, run, n) && n + 1 < |run| && CanStep(run[n], i, Run) && !run[n].threads[i].pc.User?
    && run[n + 1] == RunStep(run[n], i)
  }

  lemma TableIsOk(configured: nat, run: seq<State>, n: nat)
    requires Arrived(configured, run, n)
    ensures TableOk(run[n].table)
  {
    RunsKeepInv(configured, run, n);
    hide IsRun, ThreadsOk, TasksOk, RecordsOk, WorkersOk, EndingOk, TableOk;
  }

  lemma LoopTopIs(s: State, i: nat)
    requires CanStep(s, i, Run) && (s.threads[i].pc.LoopTop? || s.threads[i].pc.HoldsNothing?)
    ensures var th := s.threads[i];
            i < |RunStep(s, i).threads|
            && RunStep(s, i).threads[i].pc
               == if th.pc.LoopTop? then if Cur(th) in s.table.held then Decided(th.pc.handle, false) else HoldsNothing(th.pc.handle)
                  else Decided(th.pc.handle, s.table.entries == 0)
  {
  }

  // A task that owns a lock never helps while it waits; one that owns none looks further.
  lemma OwnersNeverHelp(configured: nat, run: seq<State>, n: nat, i: nat)
    requires RunsAt(configured, run, n, i) && run[n].threads[i].pc.LoopTop?
    ensures i < |run[n + 1].threads|
    ensures var h := run[n].threads[i].pc.handle;
            run[n + 1].threads[i].pc
            == if OwnsNothing(run[n].table, Cur(run[n].threads[i])) then HoldsNothing(h) else Decided(h, false)
  {
    LoopTopIs(run[n], i);
    TableIsOk(configured, run, n);
    HoldsAnyIsExact(run[n].table, Cur(run[n].threads[i]));
    hide IsRun, RunStep, TableOk, OwnsNothing;
  }

  // It may help exactly if no task has an open LOCK.
  lemma OpenLocksForbidHelp(configured: nat, run: seq<State>, n: nat, i: nat)
    requires RunsAt(configured, run, n, i) && run[n].threads[i].pc.HoldsNothing?
    ensures i < |run[n + 1].threads|
    ensures var next := run[n + 1].threads[i].pc;
            next.Decided? && next.handle == run[n].threads[i].pc.handle
            && (next.mayHelp <==> forall k: nat :: StackOf(run[n].table, k) == [])
  {
    LoopTopIs(run[n], i);
    TableIsOk(configured, run, n);
    EntriesCountLocks(run[n].table);
    hide IsRun, RunStep, TableOk;
  }

  lemma DecidedIs(s: State, i: nat)
    requires CanStep(s, i, Run) && s.threads[i].pc.Decided? && ValidTask(s.pool, s.threads[i].pc.handle)
    ensures var h := s.threads[i].pc.handle;
            var u := RunStep(s, i);
            i < |u.threads|
            && if IsFinished(TaskAt(s.pool, h).state) then u.threads[i].pc == WaitOver(h) && u.pool == s.pool
               else if s.threads[i].pc.mayHelp && s.pool.queue != [] then
                 u.threads[i].pc == Popped(h, s.pool.queue[0]) && u.pool.queue == s.pool.queue[1..]
               else u.threads[i].pc == TaskWait(h) && i in u.sleepTask && u.pool.queue == s.pool.queue
  {
    hide MaybeAddWorker;
    BlockKeepsQueue(s.pool, s.threads[i].worker);
    hide BlockBegin;
  }

  // The wait is over when the task has finished; until then a helper takes the oldest task of the queue, and
  // whoever may not help, or finds no task, sleeps.
  lemma HelpersTakeTheOldest(configured: nat, run: seq<State>, n: nat, i: nat)
    requires RunsAt(configured, run, n, i) && run[n].threads[i].pc.Decided?
    ensures i < |run[n + 1].threads| && ValidTask(run[n].pool, run[n].threads[i].pc.handle)
    ensures var h, next := run[n].threads[i].pc.handle, run[n + 1].threads[i].pc;
            var queue := run[n].pool.queue;
            && (next == WaitOver(h) <==> IsFinished(TaskAt(run[n].pool, h).state))
            && (next.Popped? <==> next != WaitOver(h) && run[n].threads[i].pc.mayHelp && queue != [])
            && (next.Popped? ==>
                  next.handle == h && next.task in queue && next.task !in run[n + 1].pool.queue
                  && forall other :: other in queue ==> next.task <= other)
            && (next != WaitOver(h) && !next.Popped? ==> next == TaskWait(h) && i in run[n + 1].sleepTask)
  {
    HandleIsValid(configured, run, n, i);
    DecidedIs(run[n], i);
    OldestIsTakenFirst(configured, run, n);
    hide IsRun, RunStep, CanStep, TaskAt;
    FrontIsAlone(run[n].pool.queue);
  }

  lemma FrontIsAlone(queue: seq<nat>)
    ensures (forall j, k :: 0 <= j < k < |queue| ==> queue[j] < queue[k]) && queue != [] ==> queue[0] !in queue[1..]
  {
  }

  lemma HandleIsValid(configured: nat, run: seq<State>, n: nat, i: nat)
    requires Arrived(configured, run, n) && i < |run[n].threads| && run[n].threads[i].pc.Decided?
    ensures ValidTask(run[n].pool, run[n].threads[i].pc.handle)
  {
    RunsKeepInv(configured, run, n);
    hide IsRun, TasksOk, RecordsOk, LocksOk, WorkersOk, EndingOk;
    OneThread(run[n], i);
    hide ThreadsOk;
  }

  // Whoever was woken looks at everything again, locks included.
  lemma WokenWaitersLookAgain(configured: nat, run: seq<State>, n: nat, i: nat)
    requires RunsAt(configured, run, n, i) && run[n].threads[i].pc.TaskWait?
    ensures i < |run[n + 1].threads|
    ensures run[n + 1].threads[i] == run[n].threads[i].(pc := LoopTop(run[n].threads[i].pc.handle))
  {
    hide IsRun;
  }

  // A thread that waits for a lock goes on only when no other task owns it, and sleeps otherwise.
  lemma LockWaitersWaitForOwners(configured: nat, run: seq<State>, n: nat, i: nat)
    requires RunsAt(configured, run, n, i) && run[n].threads[i].pc.LockWait?
    ensures run[n].threads[i].stack != [] && i < |run[n + 1].threads|
    ensures var th := run[n].threads[i];
            if Owner(run[n].table, th.pc.id) >= 0 && Owner(run[n].table, th.pc.id) != Cur(th)
            then run[n + 1].threads[i] == th && i in run[n + 1].sleepLock
            else run[n + 1].threads[i] == th.(pc := LockWoken(th.pc.ids, th.pc.explicitly)) && i !in run[n + 1].sleepLock
  {
    hide IsRun, Owner;
  }
}
