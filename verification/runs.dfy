/**
 Runs of the runtime, and what holds in every state of every run.
 */
module Runs {
  import opened Basics
  import opened LockTable
  import opened LockAccounting
  import opened TaskPool
  import opened WaitGraph
  import opened Runtime
  import opened Invariants
  import opened PoolSteps
  import opened UserSteps
  import opened AcyclicSteps

  ghost predicate Next(s: State, u: State) {
    exists e: Event :: CanHappen(s, e) && u == After(s, e)
  }

  // A finite run: any interleaving of the sections of all threads, for any compiled code.
  ghost predicate IsRun(configured: nat, run: seq<State>) {
    && run != []
    && run[0] == Initial(configured)
    && forall k :: 0 <= k < |run| - 1 ==> Next(run[k], run[k + 1])
  }

  // The cycle detector gives up after CAP steps, so no longer cycle must arise.
  ghost predicate NoLongCycles(run: seq<State>) {
    forall k :: 0 <= k < |run| ==> ShortCycles(run[k].table)
  }

  ghost predicate Safe(s: State) {
    Inv(s) && Acyclic(s.table)
  }

  lemma EmptyTable(t: Table)
    requires t == EMPTY
    ensures TableOk(t) && t.notified == {} && t.edges == map[] && (forall id: nat :: Owner(t, id) < 0)
  {
    forall k: nat ensures HeldCount(t, k) == |OwnedBy(t, k)| {
      assert OwnedBy(t, k) == {};
    }
  }

  lemma NoEdgesNoCycle(t: Table)
    requires t.edges == map[]
    ensures Acyclic(t)
  {
    forall k: nat ensures Finite(t, k) {
      assert Ends(t, k, 0);
    }
  }

  ghost predicate Fresh(s: State) {
    && TableOk(s.table) && s.table.notified == {} && s.table.edges == map[]
    && (forall id: nat :: Owner(s.table, id) < 0)
    && s == State(s.table, NO_POOL, [Thread(false, [0], [], User)], [], {}, {}, {}, NotEnding, s.configured, false)
  }

  lemma FreshThreads(s: State)
    requires Fresh(s)
    ensures ThreadsOk(s) && WorkersOk(s)
  {
    assert IdleSet(s) == {} && BlockedSet(s) == {};
    assert ThreadOk(s, 0);
  }

  lemma FreshRest(s: State)
    requires Fresh(s)
    ensures TasksOk(s) && RecordsOk(s) && LocksOk(s) && EndingOk(s)
  {
  }

  lemma FreshInv(s: State)
    requires Fresh(s)
    ensures Inv(s)
  {
    FreshThreads(s);
    FreshRest(s);
  }

  lemma FreshIsSafe(s: State)
    requires Fresh(s)
    ensures Safe(s)
  {
    NoEdgesNoCycle(s.table);
    FreshInv(s);
  }

  lemma InitialIsSafe(configured: nat)
    ensures Safe(Initial(configured))
  {
    var s := Initial(configured);
    EmptyTable(s.table);
    FreshIsSafe(s);
  }

  lemma NextKeepsInv(s: State, u: State)
    requires (s.fatal || Inv(s)) && Next(s, u)
    ensures u.fatal || Inv(u)
  {
    var e :| CanHappen(s, e) && u == After(s, e);
    EventKeepsInv(s, e);
  }

  lemma StepIsSafe(s: State, u: State)
    requires (s.fatal || Safe(s)) && Next(s, u) && (u.fatal || ShortCycles(u.table))
    ensures u.fatal || Safe(u)
  {
    var e :| CanHappen(s, e) && u == After(s, e);
    EventKeepsInv(s, e);
    if !u.fatal {
      EventKeepsAcyclic(s, e);
    }
  }

  // Every state of every run satisfies the invariant, unless the run has just ended with a diagnosis.
  lemma {:induction false} RunsKeepInv(configured: nat, run: seq<State>, n: nat)
    requires IsRun(configured, run) && n < |run|
    ensures run[n].fatal || Inv(run[n])
    decreases n
  {
    hide Inv;
    if n == 0 {
      InitialIsSafe(configured);
    } else {
      RunsKeepInv(configured, run, n - 1);
      assert Next(run[n - 1], run[n - 1 + 1]);
      NextKeepsInv(run[n - 1], run[n]);
    }
  }

  // As long as no long cycle arises, the wait graph of every state is acyclic as well.
  lemma {:induction false} RunsAreSafe(configured: nat, run: seq<State>, n: nat)
    requires IsRun(configured, run) && NoLongCycles(run) && n < |run|
    ensures run[n].fatal || Safe(run[n])
    decreases n
  {
    if n == 0 {
      InitialIsSafe(configured);
    } else {
      RunsAreSafe(configured, run, n - 1);
      assert Next(run[n - 1], run[n - 1 + 1]);
      StepIsSafe(run[n - 1], run[n]);
    }
  }

  // Only the main program and tasks can wait, so few tasks mean few edges.
  lemma EdgesAtMostTasks(s: State)
    requires Inv(s)
    ensures |s.table.edges| <= |s.pool.tasks| + 1
  {
    BelowIsInterval(|s.pool.tasks| + 1);
    forall k: nat | k in s.table.edges.Keys ensures k in Below(|s.pool.tasks| + 1) {
      assert Live(s, k);
    }
    SubsetCardinality(s.table.edges.Keys, Below(|s.pool.tasks| + 1));
  }

  lemma {:induction false} SmallRunsAreSafe(configured: nat, run: seq<State>, n: nat)
    requires IsRun(configured, run) && n < |run|
    requires forall k :: 0 <= k <= n ==> |run[k].pool.tasks| + 1 <= CAP
    ensures run[n].fatal || Safe(run[n])
    decreases n
  {
    if n == 0 {
      InitialIsSafe(configured);
    } else {
      SmallRunsAreSafe(configured, run, n - 1);
      assert Next(run[n - 1], run[n - 1 + 1]);
      NextKeepsInv(run[n - 1], run[n]);
      if !run[n].fatal {
        EdgesAtMostTasks(run[n]);
        FewEdgesAreShort(run[n].table);
        StepIsSafe(run[n - 1], run[n]);
      }
    }
  }

  // ---------------------------------------------------------------- what the invariant says about a state

  // Every task is in exactly one place: once in the queue, claimed by one thread, current or suspended
  // on one stack, or finished.
  predicate InQueue(s: State, task: nat) {
    task in s.pool.queue
  }

  ghost predicate IsClaimed(s: State, task: nat) {
    exists i: nat :: ClaimsTask(s, i, task)
  }

  ghost predicate OnSomeStack(s: State, task: nat) {
    exists i: nat, d: nat :: HasFrame(s, i, d, task)
  }

  predicate ClaimsTask(s: State, i: nat, task: nat) {
    i < |s.threads| && ClaimOf(s.threads[i].pc) == Some(task)
  }

  predicate HasFrame(s: State, i: nat, d: nat, task: nat) {
    i < |s.threads| && d < |s.threads[i].stack| && s.threads[i].stack[d] == task
  }

  ghost predicate AtMostOneClaim(s: State, task: nat) {
    forall i: nat, j: nat :: ClaimsTask(s, i, task) && ClaimsTask(s, j, task) ==> i == j
  }

  ghost predicate AtMostOneFrame(s: State, task: nat) {
    forall i: nat, d: nat, j: nat, e: nat ::
      HasFrame(s, i, d, task) && HasFrame(s, j, e, task) ==> i == j && d == e
  }

  lemma QueuedIsAt(s: State, task: nat)
    requires Inv(s) && ValidTask(s.pool, task)
    ensures InQueue(s, task) <==> HasLoc(s, task, Queued)
  {
    assert LocOk(s, task);
    if InQueue(s, task) {
      var j :| 0 <= j < |s.pool.queue| && s.pool.queue[j] == task;
      assert HasLoc(s, s.pool.queue[j], Queued);
    }
  }

  lemma ClaimedIsAt(s: State, task: nat)
    requires Inv(s) && ValidTask(s.pool, task)
    ensures IsClaimed(s, task) <==> s.loc[task - 1].ClaimedBy?
    ensures AtMostOneClaim(s, task)
  {
    assert LocOk(s, task);
    forall i: nat | ClaimsTask(s, i, task) ensures s.loc[task - 1] == ClaimedBy(i) {
      assert ThreadOk(s, i);
    }
    if s.loc[task - 1].ClaimedBy? {
      assert ClaimsTask(s, s.loc[task - 1].thread, task);
    }
  }

  lemma StackedIsAt(s: State, task: nat)
    requires Inv(s) && ValidTask(s.pool, task)
    ensures OnSomeStack(s, task) <==> s.loc[task - 1].OnStack?
    ensures AtMostOneFrame(s, task)
  {
    assert LocOk(s, task);
    forall i: nat, d: nat | HasFrame(s, i, d, task)
      ensures s.loc[task - 1] == OnStack(i, d)
    {
      assert ThreadOk(s, i);
      assert (i == 0 && d == 0) || HasLoc(s, s.threads[i].stack[d], OnStack(i, d));
    }
    if s.loc[task - 1].OnStack? {
      assert HasFrame(s, s.loc[task - 1].thread, s.loc[task - 1].depth, task);
    }
  }

  // PENDING is queued or claimed, RUNNING is on a stack, and each of these in one place only.
  ghost predicate ExactlyOnce(s: State, task: nat)
    requires ValidTask(s.pool, task)
  {
    var state := TaskAt(s.pool, task).state;
    && (state.Pending? <==> InQueue(s, task) || IsClaimed(s, task))
    && !(InQueue(s, task) && IsClaimed(s, task))
    && (state.Running? <==> OnSomeStack(s, task))
    && (IsFinished(state) <==> !InQueue(s, task) && !IsClaimed(s, task) && !OnSomeStack(s, task))
    && (forall j, k :: 0 <= j < k < |s.pool.queue| ==> s.pool.queue[j] != s.pool.queue[k])
    && AtMostOneClaim(s, task)
    && AtMostOneFrame(s, task)
  }

  lemma InvMeansExactlyOnce(s: State, task: nat)
    requires Inv(s) && ValidTask(s.pool, task)
    ensures ExactlyOnce(s, task)
  {
    assert LocOk(s, task);
    QueuedIsAt(s, task);
    ClaimedIsAt(s, task);
    StackedIsAt(s, task);
  }

  // The run has come to its state n without a diagnosis.
  ghost predicate Arrived(configured: nat, run: seq<State>, n: nat) {
    IsRun(configured, run) && n < |run| && !run[n].fatal
  }

  lemma TasksAreExactlyOnce(configured: nat, run: seq<State>, n: nat, task: nat)
    requires Arrived(configured, run, n) && ValidTask(run[n].pool, task)
    ensures ExactlyOnce(run[n], task)
  {
    RunsKeepInv(configured, run, n);
    InvMeansExactlyOnce(run[n], task);
  }

  // A task's record: its thunk is called at most once, DONE means no error text, and CANCELLED is the
  // final state exactly when the final error text is "CANCELLED".
  lemma RecordsAreConsistent(configured: nat, run: seq<State>, n: nat, task: nat)
    requires Arrived(configured, run, n) && ValidTask(run[n].pool, task)
    ensures var t := TaskAt(run[n].pool, task);
            && t.thunkRuns <= 1
            && (t.state.Pending? ==> t.thunkRuns == 0)
            && (t.state.Done? ==> t.errorText == "" && t.thunkRuns == 1)
            && (IsFinished(t.state) ==> (t.state.Cancelled? <==> t.errorText == CANCELLED_TEXT))
  {
    RunsKeepInv(configured, run, n);
    assert RecordOk(run[n].pool.tasks[task - 1]);
  }

  // Helper-stack discipline: below the running task of a thread every suspended task owns no lock and
  // waits for the task above it, so no task waits for a lock that is held beneath it on its own stack.
  lemma SuspendedTasksOwnNothing(configured: nat, run: seq<State>, n: nat, i: nat, d: nat, id: nat)
    requires Arrived(configured, run, n) && i < |run[n].threads| && d < |run[n].threads[i].stack| - 1
    ensures Owner(run[n].table, id) != run[n].threads[i].stack[d]
    ensures Succ(run[n].table, run[n].threads[i].stack[d]) == Some(run[n].threads[i].stack[d + 1])
  {
    RunsKeepInv(configured, run, n);
    assert ThreadOk(run[n], i);
    assert OwnsNothing(run[n].table, run[n].threads[i].stack[d]);
  }

  // Compensation workers: the counters never exceed the workers there are, and queued work leaves a
  // worker that is not blocked.
  lemma WorkersSuffice(configured: nat, run: seq<State>, n: nat)
    requires Arrived(configured, run, n)
    ensures var p := run[n].pool;
            && 0 <= p.idleWorkers && 0 <= p.blockedWorkers
            && p.idleWorkers + p.blockedWorkers <= Workers(p)
            && (!p.stopping && p.queue != [] ==> p.blockedWorkers < Workers(p))
  {
    RunsKeepInv(configured, run, n);
    IdlePlusBlocked(run[n]);
  }
}
