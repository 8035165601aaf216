/**
 The beginning and the end of a task, and the calls of compiled code that change task records, keep the
 invariant of the runtime.
 */
module TaskSteps {
  import opened Basics
  import opened LockTable
  import opened TaskPool
  import opened Runtime
  import opened Invariants
  import opened PoolSteps

  // ---------------------------------------------------------------- run_task begins

  ghost predicate CanBegin(s: State, i: nat, task: nat, waits: seq<nat>, back: Pc) {
    && Inv(s) && i < |s.threads| && !Sleeping(s, i)
    && var th := s.threads[i];
       match th.pc
       case Claimed(t) => t == task && waits == [] && back == Fetch
       case HelpClaimed(h, t) => t == task && waits == th.waits + [h] && back == Helped(h, task)
       case _ => false
  }

  lemma ClaimedTask(s: State, i: nat, task: nat, waits: seq<nat>, back: Pc)
    requires CanBegin(s, i, task, waits, back)
    ensures ValidTask(s.pool, task) && HasLoc(s, task, ClaimedBy(i)) && TaskAt(s.pool, task).state == Pending
    ensures task !in s.table.edges && OwnsNothing(s.table, task)
    ensures RecordOk(TaskAt(s.pool, task))
  {
    assert ThreadOk(s, i);
    assert LocOk(s, task);
    forall id: nat ensures Owner(s.table, id) != task {
      assert Owner(s.table, id) >= 0 ==> Live(s, Owner(s.table, id));
    }
  }

  function Began(s: State, i: nat, task: nat, waits: seq<nat>): State
    requires i < |s.threads| && 1 <= task <= |s.loc| && ValidTask(s.pool, task)
  {
    var th := s.threads[i];
    s.(pool := BeginRun(s.pool, task),
       threads := s.threads[i := Thread(th.worker, th.stack + [task], waits, User)],
       loc := s.loc[task - 1 := OnStack(i, |th.stack|)])
  }

  lemma BeganFrame(s: State, i: nat, task: nat, waits: seq<nat>, back: Pc)
    requires CanBegin(s, i, task, waits, back)
    requires ValidTask(s.pool, task) && task <= |s.loc| && !TaskAt(s.pool, task).cancelRequested
    ensures Frame(s, Began(s, i, task, waits), i)
  {
    ClaimedTask(s, i, task, waits, back);
  }

  lemma BeganShape(s: State, i: nat, task: nat, waits: seq<nat>, back: Pc)
    requires CanBegin(s, i, task, waits, back)
    requires ValidTask(s.pool, task) && task <= |s.loc| && !TaskAt(s.pool, task).cancelRequested
    ensures ShapeOk(Began(s, i, task, waits), i)
  {
    hide ThreadsOk, TasksOk, RecordsOk, LocksOk, WorkersOk, EndingOk, SuspendedOk, SleepOk;
    ClaimedTask(s, i, task, waits, back);
    OneThread(s, i);
    var u := Began(s, i, task, waits);
    var th := s.threads[i];
    forall d | 0 <= d < |u.threads[i].stack| ensures (i == 0 && d == 0) || HasLoc(u, u.threads[i].stack[d], OnStack(i, d)) {
      if d < |th.stack| {
        assert (i == 0 && d == 0) || HasLoc(s, th.stack[d], OnStack(i, d));
      }
    }
  }

  lemma BeganSuspended(s: State, i: nat, task: nat, waits: seq<nat>, back: Pc)
    requires CanBegin(s, i, task, waits, back)
    requires ValidTask(s.pool, task) && task <= |s.loc| && !TaskAt(s.pool, task).cancelRequested
    ensures SuspendedOk(Began(s, i, task, waits), i)
  {
    hide ThreadsOk, TasksOk, RecordsOk, LocksOk, WorkersOk, EndingOk, SleepOk;
    ClaimedTask(s, i, task, waits, back);
    OneThread(s, i);
    var u := Began(s, i, task, waits);
    var th := s.threads[i];
    forall d | 0 <= d < |th.stack|
      ensures && th.stack[d] in u.table.edges && u.table.edges[th.stack[d]] == OnTask(u.threads[i].stack[d + 1])
              && OwnsNothing(u.table, th.stack[d])
              && (d < |waits| ==> ValidTask(u.pool, waits[d]))
    {
      if d < |th.stack| - 1 {
        assert OwnsNothing(s.table, th.stack[d]);
      }
    }
  }

  lemma BeganOwn(s: State, i: nat, task: nat, waits: seq<nat>, back: Pc)
    requires CanBegin(s, i, task, waits, back)
    requires ValidTask(s.pool, task) && task <= |s.loc| && !TaskAt(s.pool, task).cancelRequested
    ensures ThreadOk(Began(s, i, task, waits), i)
  {
    BeganShape(s, i, task, waits, back);
    BeganSuspended(s, i, task, waits, back);
    hide ThreadsOk, TasksOk, RecordsOk, LocksOk, WorkersOk, EndingOk, ShapeOk, SuspendedOk;
    ClaimedTask(s, i, task, waits, back);
    OneThread(s, i);
  }

  lemma BeganTasks(s: State, i: nat, task: nat, waits: seq<nat>, back: Pc)
    requires CanBegin(s, i, task, waits, back)
    requires ValidTask(s.pool, task) && task <= |s.loc| && !TaskAt(s.pool, task).cancelRequested
    ensures TasksOk(Began(s, i, task, waits))
  {
    ClaimedTask(s, i, task, waits, back);
    var u := Began(s, i, task, waits);
    forall k | 1 <= k <= |u.loc| ensures LocOk(u, k) {
      assert LocOk(s, k);
    }
    forall j | 0 <= j < |u.pool.queue| ensures HasLoc(u, u.pool.queue[j], Queued) {
      assert HasLoc(s, s.pool.queue[j], Queued);
    }
  }

  lemma BeganKeepsInv(s: State, i: nat, task: nat, waits: seq<nat>, back: Pc)
    requires CanBegin(s, i, task, waits, back)
    requires ValidTask(s.pool, task) && task <= |s.loc| && !TaskAt(s.pool, task).cancelRequested
    ensures Inv(Began(s, i, task, waits))
  {
    ClaimedTask(s, i, task, waits, back);
    var u := Began(s, i, task, waits);
    BeganFrame(s, i, task, waits, back);
    BeganOwn(s, i, task, waits, back);
    ThreadsKeepOk(s, u, i);
    BeganTasks(s, i, task, waits, back);
    SameTableLocks(s, u);
    CountsAfter(s, u, i);
    assert RecordsOk(u);
  }

  function Skipped(s: State, i: nat, task: nat, back: Pc): State
    requires i < |s.threads| && 1 <= task <= |s.loc| && ValidTask(s.pool, task)
  {
    s.(pool := BeginRun(s.pool, task),
       threads := s.threads[i := s.threads[i].(pc := back)],
       loc := s.loc[task - 1 := Finished],
       sleepTask := {})
  }

  lemma SkippedOwn(s: State, i: nat, task: nat, waits: seq<nat>, back: Pc)
    requires CanBegin(s, i, task, waits, back)
    requires ValidTask(s.pool, task) && task <= |s.loc| && TaskAt(s.pool, task).cancelRequested
    ensures ThreadsOk(Skipped(s, i, task, back))
  {
    hide ThreadsOk, TasksOk, RecordsOk, LocksOk, WorkersOk, EndingOk;
    ClaimedTask(s, i, task, waits, back);
    var u := Skipped(s, i, task, back);
    OneThread(s, i);
    OwnShapeKept(s, u, i);
    assert SuspendedOk(u, i) && PcOk(u, i) && SleepOk(u, i);
    assert Frame(s, u, i);
    hide Frame, ShapeOk, SuspendedOk, PcOk, SleepOk, ClaimOf;
    ThreadsKeepOk(s, u, i);
  }

  lemma SkippedTasks(s: State, i: nat, task: nat, waits: seq<nat>, back: Pc)
    requires CanBegin(s, i, task, waits, back)
    requires ValidTask(s.pool, task) && task <= |s.loc| && TaskAt(s.pool, task).cancelRequested
    ensures TasksOk(Skipped(s, i, task, back))
  {
    ClaimedTask(s, i, task, waits, back);
    var u := Skipped(s, i, task, back);
    forall k | 1 <= k <= |u.loc| ensures LocOk(u, k) {
      assert LocOk(s, k);
    }
    forall j | 0 <= j < |u.pool.queue| ensures HasLoc(u, u.pool.queue[j], Queued) {
      assert HasLoc(s, s.pool.queue[j], Queued);
    }
  }

  lemma SkippedKeepsInv(s: State, i: nat, task: nat, waits: seq<nat>, back: Pc)
    requires CanBegin(s, i, task, waits, back)
    requires ValidTask(s.pool, task) && task <= |s.loc| && TaskAt(s.pool, task).cancelRequested
    ensures Inv(Skipped(s, i, task, back))
  {
    ClaimedTask(s, i, task, waits, back);
    var u := Skipped(s, i, task, back);
    SkippedOwn(s, i, task, waits, back);
    SkippedTasks(s, i, task, waits, back);
    SameTableLocks(s, u);
    CountsAfter(s, u, i);
    assert RecordsOk(u);
  }

  lemma BeginKeepsInv(s: State, i: nat, task: nat, waits: seq<nat>, back: Pc)
    requires CanBegin(s, i, task, waits, back)
    ensures Inv(BeginStep(s, i, task, waits, back))
  {
    ClaimedTask(s, i, task, waits, back);
    if TaskAt(s.pool, task).cancelRequested {
      SkippedKeepsInv(s, i, task, waits, back);
      assert BeginStep(s, i, task, waits, back) == Skipped(s, i, task, back);
    } else {
      BeganKeepsInv(s, i, task, waits, back);
      assert BeginStep(s, i, task, waits, back) == Began(s, i, task, waits);
    }
  }

  // ---------------------------------------------------------------- run_task ends

  ghost predicate CanFinish(s: State, i: nat, failure: string) {
    Inv(s) && i < |s.threads| && !Sleeping(s, i) && s.threads[i].pc == Released(failure)
  }

  lemma FinishingTask(s: State, i: nat, failure: string)
    requires CanFinish(s, i, failure)
    ensures var th := s.threads[i];
            && th.stack != []
            && var task := Cur(th);
               && ValidTask(s.pool, task) && HasLoc(s, task, OnStack(i, |th.stack| - 1))
               && TaskAt(s.pool, task).state == Running && RecordOk(TaskAt(s.pool, task))
               && task !in s.table.edges && OwnsNothing(s.table, task)
               && (th.waits == [] ==> i > 0)
  {
    var th := s.threads[i];
    assert ThreadOk(s, i);
    var d := |th.stack| - 1;
    assert (i == 0 && d == 0) || HasLoc(s, th.stack[d], OnStack(i, d));
    assert LocOk(s, Cur(th));
  }

  lemma FinishIs(s: State, i: nat, failure: string)
    requires CanFinish(s, i, failure)
    ensures s.threads[i].stack != []
    ensures var th := s.threads[i];
            var task := Cur(th);
            var left := th.stack[..|th.stack| - 1];
            && ValidTask(s.pool, task) && task <= |s.loc|
            && FinishStep(s, i, failure) == s.(
                 pool := FinishRun(s.pool, task, failure),
                 threads := s.threads[i := if th.waits == [] then Thread(th.worker, left, [], Fetch)
                                           else Thread(th.worker, left, th.waits[..|th.waits| - 1],
                                                       Helped(th.waits[|th.waits| - 1], task))],
                 loc := s.loc[task - 1 := Finished],
                 sleepTask := {})
  {
    FinishingTask(s, i, failure);
  }

  lemma FinishShape(s: State, u: State, i: nat, failure: string)
    requires CanFinish(s, i, failure) && s.threads[i].stack != [] && u == FinishStep(s, i, failure)
    ensures |u.threads| == |s.threads| && ShapeOk(u, i)
  {
    hide ThreadsOk, TasksOk, RecordsOk, LocksOk, WorkersOk, EndingOk, SuspendedOk, PcOk, SleepOk, FinishStep, FinishRun;
    FinishingTask(s, i, failure);
    FinishIs(s, i, failure);
    OneThread(s, i);
    var th := s.threads[i];
    forall d | 0 <= d < |u.threads[i].stack| ensures (i == 0 && d == 0) || HasLoc(u, u.threads[i].stack[d], OnStack(i, d)) {
      assert (i == 0 && d == 0) || HasLoc(s, th.stack[d], OnStack(i, d));
    }
  }

  lemma FinishSuspended(s: State, u: State, i: nat, failure: string)
    requires CanFinish(s, i, failure) && s.threads[i].stack != [] && u == FinishStep(s, i, failure)
    ensures |u.threads| == |s.threads| && SuspendedOk(u, i)
  {
    hide ThreadsOk, TasksOk, RecordsOk, LocksOk, WorkersOk, EndingOk, PcOk, SleepOk, FinishStep;
    FinishingTask(s, i, failure);
    FinishIs(s, i, failure);
    OneThread(s, i);
    var th := s.threads[i];
    forall d | 0 <= d < |u.threads[i].stack| - 1
      ensures && th.stack[d] in u.table.edges && u.table.edges[th.stack[d]] == OnTask(u.threads[i].stack[d + 1])
              && OwnsNothing(u.table, th.stack[d])
              && (d < |u.threads[i].waits| ==> ValidTask(u.pool, u.threads[i].waits[d]))
    {
      assert OwnsNothing(s.table, th.stack[d]);
    }
  }

  lemma FinishPc(s: State, u: State, i: nat, failure: string)
    requires CanFinish(s, i, failure) && s.threads[i].stack != [] && u == FinishStep(s, i, failure)
    ensures |u.threads| == |s.threads| && PcOk(u, i) && SleepOk(u, i)
  {
    hide ThreadsOk, TasksOk, RecordsOk, LocksOk, WorkersOk, EndingOk, OwnsNothing, FinishStep;
    FinishingTask(s, i, failure);
    FinishIs(s, i, failure);
    OneThread(s, i);
    var th := s.threads[i];
    if th.waits != [] {
      var d := |th.stack| - 2;
      assert s.table.edges[th.stack[d]] == OnTask(th.stack[d + 1]);
    }
  }

  lemma FinishOwn(s: State, i: nat, failure: string)
    requires CanFinish(s, i, failure)
    ensures s.threads[i].stack != [] && ThreadOk(FinishStep(s, i, failure), i)
  {
    hide Inv, ShapeOk, SuspendedOk, PcOk, SleepOk;
    FinishingTask(s, i, failure);
    var u := FinishStep(s, i, failure);
    FinishShape(s, u, i, failure);
    FinishSuspended(s, u, i, failure);
    FinishPc(s, u, i, failure);
  }

  lemma FinishThreads(s: State, i: nat, failure: string)
    requires CanFinish(s, i, failure)
    ensures s.threads[i].stack != [] && ThreadsOk(FinishStep(s, i, failure))
  {
    hide ThreadsOk, TasksOk, RecordsOk, LocksOk, WorkersOk, EndingOk, ThreadOk;
    FinishIs(s, i, failure);
    FinishOwn(s, i, failure);
    FinishingTask(s, i, failure);
    assert Frame(s, FinishStep(s, i, failure), i);
    hide Frame;
    ThreadsKeepOk(s, FinishStep(s, i, failure), i);
  }

  lemma FinishTasks(s: State, i: nat, failure: string)
    requires CanFinish(s, i, failure)
    ensures s.threads[i].stack != [] && TasksOk(FinishStep(s, i, failure))
  {
    FinishIs(s, i, failure);
    FinishingTask(s, i, failure);
    var u := FinishStep(s, i, failure);
    forall k | 1 <= k <= |u.loc| ensures LocOk(u, k) {
      assert LocOk(s, k);
    }
    forall j | 0 <= j < |u.pool.queue| ensures HasLoc(u, u.pool.queue[j], Queued) {
      assert HasLoc(s, s.pool.queue[j], Queued);
    }
  }

  lemma FinishKeepsInv(s: State, i: nat, failure: string)
    requires CanFinish(s, i, failure)
    ensures s.threads[i].stack != [] && Inv(FinishStep(s, i, failure))
  {
    FinishIs(s, i, failure);
    FinishingTask(s, i, failure);
    var u := FinishStep(s, i, failure);
    FinishThreads(s, i, failure);
    FinishTasks(s, i, failure);
    SameTableLocks(s, u);
    CountsAfter(s, u, i);
    assert RecordsOk(u);
  }
}
