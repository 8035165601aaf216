/**
 How a task ends and why, over runs: an exception that leaves its thunk makes it fail, TASK.CANCEL and the
 abnormal end of the program cancel it, nothing else does, and tasks are taken in the order of their spawns.
 */
module Outcomes {
  import opened Basics
  import opened LockTable
  import opened LockAccounting
  import opened TaskPool
  import opened WaitGraph
  import opened Runtime
  import opened Invariants
  import opened TaskSteps
  import opened Progress
  import opened Runs
  import opened Histories

  // ---------------------------------------------------------------- whose record a step writes

  ghost predicate RunsOn(s: State, i: nat, task: nat) {
    i < |s.threads| && s.threads[i].stack != [] && Cur(s.threads[i]) == task
  }

  // The task still runs and has no other error text than before.
  ghost predicate RunsOnWith(p: Pool, task: nat, text: string) {
    ValidTask(p, task) && TaskAt(p, task).state.Running? && TaskAt(p, task).errorText == text
  }

  lemma UserKeepsOther(s: State, i: nat, a: Action, task: nat, text: string)
    requires CanStep(s, i, a) && s.threads[i].pc.User? && !RunsOn(s, i, task) && RunsOnWith(s.pool, task, text)
    ensures RunsOnWith(UserStep(s, i, a).pool, task, text)
  {
    hide Enter, ReleaseAll, ReleaseReversed, PopExplicit, PopTo;
  }

  lemma BeginKeepsOther(s: State, i: nat, begun: nat, waits: seq<nat>, back: Pc, task: nat, text: string)
    requires CanBegin(s, i, begun, waits, back) && RunsOnWith(s.pool, task, text)
    ensures RunsOnWith(BeginStep(s, i, begun, waits, back).pool, task, text)
  {
    ClaimedTask(s, i, begun, waits, back);
    hide Inv;
  }

  lemma FinishKeepsOther(s: State, i: nat, failure: string, task: nat, text: string)
    requires CanFinish(s, i, failure) && !RunsOn(s, i, task) && RunsOnWith(s.pool, task, text)
    ensures s.threads[i].stack != [] && RunsOnWith(FinishStep(s, i, failure).pool, task, text)
  {
    FinishingTask(s, i, failure);
    FinishIs(s, i, failure);
    hide Inv, FinishStep;
  }

  lemma BeginIsStep(s: State, i: nat)
    requires CanStep(s, i, Run) && (s.threads[i].pc.Claimed? || s.threads[i].pc.HelpClaimed?)
    ensures var th := s.threads[i];
            RunStep(s, i) == if th.pc.Claimed? then BeginStep(s, i, th.pc.task, th.waits, Fetch)
                             else BeginStep(s, i, th.pc.task, th.waits + [th.pc.handle], Helped(th.pc.handle, th.pc.task))
  {
    hide BeginStep;
  }

  lemma FinishIsStep(s: State, i: nat, failure: string)
    requires CanStep(s, i, Run) && s.threads[i].pc == Released(failure)
    ensures RunStep(s, i) == FinishStep(s, i, failure)
  {
    hide FinishStep;
  }

  lemma RunKeepsOther(s: State, i: nat, task: nat, text: string)
    requires Inv(s) && CanStep(s, i, Run) && !s.threads[i].pc.User?
    requires !RunsOn(s, i, task) && RunsOnWith(s.pool, task, text)
    ensures RunsOnWith(RunStep(s, i).pool, task, text)
  {
    hide TasksOk, RecordsOk, LocksOk, WorkersOk, EndingOk, RunStep, RunsOn, RunsOnWith;
    OneThread(s, i);
    hide ThreadsOk, SuspendedOk, SleepOk;
    var th := s.threads[i];
    if th.pc.Claimed? {
      BeginIsStep(s, i);
      BeginKeepsOther(s, i, th.pc.task, th.waits, Fetch, task, text);
    } else if th.pc.HelpClaimed? {
      BeginIsStep(s, i);
      BeginKeepsOther(s, i, th.pc.task, th.waits + [th.pc.handle], Helped(th.pc.handle, th.pc.task), task, text);
    } else if th.pc.Released? {
      FinishIsStep(s, i, th.pc.failure);
      FinishKeepsOther(s, i, th.pc.failure, task, text);
    } else {
      QuietRun(s, i);
      SamePoolTasks(s.pool, RunStep(s, i).pool, task, text);
    }
  }

  lemma SamePoolTasks(p: Pool, q: Pool, task: nat, text: string)
    requires RunsOnWith(p, task, text) && q.tasks == p.tasks
    ensures RunsOnWith(q, task, text)
  {
  }

  lemma StepKeepsOther(s: State, i: nat, a: Action, task: nat, text: string)
    requires Inv(s) && CanStep(s, i, a) && !RunsOn(s, i, task) && RunsOnWith(s.pool, task, text)
    ensures RunsOnWith(Step(s, i, a).pool, task, text)
  {
    hide Inv, UserStep, RunStep, RunsOnWith;
    if s.threads[i].pc.User? {
      UserKeepsOther(s, i, a, task, text);
    } else {
      RunKeepsOther(s, i, task, text);
    }
  }

  // ---------------------------------------------------------------- the end of run_task

  // The first error text of a task is the final one; an escaped exception counts as the last.
  function Final(text: string, failure: string): string {
    if text != "" then text else failure
  }

  // The end of run_task: the record keeps its first error text, or gets that of the exception, and the task
  // is DONE exactly if there is neither.
  ghost predicate EndedWith(p: Pool, task: nat, text: string, failure: string) {
    && ValidTask(p, task)
    && var t := TaskAt(p, task);
       && IsFinished(t.state) && t.thunkRuns == 1
       && t.errorText == Final(text, failure)
       && (t.state.Done? <==> text == "" && failure == "")
       && (t.state.Cancelled? <==> t.errorText == CANCELLED_TEXT)
  }

  lemma FinishEnds(s: State, i: nat, failure: string)
    requires CanFinish(s, i, failure)
    ensures s.threads[i].stack != []
    ensures var task := Cur(s.threads[i]);
            ValidTask(s.pool, task)
            && EndedWith(FinishStep(s, i, failure).pool, task, TaskAt(s.pool, task).errorText, failure)
  {
    FinishingTask(s, i, failure);
    FinishIs(s, i, failure);
  }

  // The thunk of the task has returned, by an exception if there is a failure, and run_task goes on.
  ghost predicate Leaving(s: State, i: nat, task: nat, text: string, failure: string) {
    RunsOn(s, i, task) && RunsOnWith(s.pool, task, text)
    && (s.threads[i].pc == Returned(failure) || s.threads[i].pc == Released(failure))
  }

  ghost predicate LeftOrEnded(s: State, i: nat, task: nat, text: string, failure: string) {
    Leaving(s, i, task, text, failure) || EndedWith(s.pool, task, text, failure)
  }

  lemma ReturnedGoesOn(s: State, i: nat, task: nat, text: string, failure: string)
    requires TableOk(s.table) && CanStep(s, i, Run) && Leaving(s, i, task, text, failure)
    requires s.threads[i].pc == Returned(failure)
    ensures Leaving(RunStep(s, i), i, task, text, failure)
  {
    ReleaseAllReleasesAll(s.table, task);
    hide ReleaseAll, Announced, TableOk, Moves;
  }

  lemma OwnStepLeaves(s: State, i: nat, a: Action, task: nat, text: string, failure: string)
    requires Inv(s) && CanStep(s, i, a) && Leaving(s, i, task, text, failure)
    ensures LeftOrEnded(Step(s, i, a), i, task, text, failure)
  {
    hide ThreadsOk, TasksOk, RecordsOk, WorkersOk, EndingOk, TableOk, RunStep;
    if s.threads[i].pc == Returned(failure) {
      ReturnedGoesOn(s, i, task, text, failure);
    } else {
      FinishEnds(s, i, failure);
      FinishIsStep(s, i, failure);
    }
  }

  lemma OtherStepLeaves(s: State, j: nat, a: Action, i: nat, task: nat, text: string, failure: string)
    requires Inv(s) && CanStep(s, j, a) && i != j && Leaving(s, i, task, text, failure)
    ensures LeftOrEnded(Step(s, j, a), i, task, text, failure)
  {
    NotOnTwo(s, i, j, task);
    StepKeepsOther(s, j, a, task, text);
    StepFrames(s, j, a);
    hide Inv, Step, CanStep, EndedWith;
  }

  lemma NotOnTwo(s: State, i: nat, j: nat, task: nat)
    requires Inv(s) && RunsOn(s, i, task) && i != j && j < |s.threads|
    ensures !RunsOn(s, j, task)
  {
    hide TasksOk, RecordsOk, LocksOk, WorkersOk, EndingOk;
    OneThread(s, i);
    OneThread(s, j);
    hide ThreadsOk;
    StacksDisjoint(s, j, i, |s.threads[i].stack| - 1);
  }

  lemma StepFrames(s: State, j: nat, a: Action)
    requires CanStep(s, j, a)
    ensures FrameThreads(s, Step(s, j, a), j)
  {
    hide UserStep, RunStep;
    if s.threads[j].pc.User? {
      UserThreads(s, j, a);
    } else {
      RunThreads(s, j);
    }
  }

  lemma EndedStays(s: State, u: State, task: nat, text: string, failure: string)
    requires EndedWith(s.pool, task, text, failure) && LegalTasks(s, u)
    ensures EndedWith(u.pool, task, text, failure)
  {
    assert Legal(s.pool.tasks[task - 1], u.pool.tasks[task - 1]);
  }

  lemma NextLeaves(s: State, u: State, i: nat, task: nat, text: string, failure: string)
    requires Inv(s) && Next(s, u) && LeftOrEnded(s, i, task, text, failure)
    ensures LeftOrEnded(u, i, task, text, failure)
  {
    hide Inv, CanStep, Step, EndedWith;
    if EndedWith(s.pool, task, text, failure) {
      StepIsLegal(s, u);
      EndedStays(s, u, task, text, failure);
    } else {
      var e: Event :| CanHappen(s, e) && u == After(s, e);
      match e
      case ThreadStep(j, a) =>
        if j == i {
          OwnStepLeaves(s, i, a, task, text, failure);
        } else {
          OtherStepLeaves(s, j, a, i, task, text, failure);
        }
      case SpuriousWake(_) =>
    }
  }

  // The thunk of the task that runs on thread i returns in step m.
  ghost predicate ReturnsAt(run: seq<State>, m: nat, i: nat, failure: string) {
    && m + 1 < |run| && CanStep(run[m], i, Action.Return(failure)) && run[m].threads[i].pc.User?
    && run[m + 1] == Step(run[m], i, Action.Return(failure))
  }

  lemma StepIsNext(configured: nat, run: seq<State>, k: nat)
    requires IsRun(configured, run) && k + 1 < |run|
    ensures Next(run[k], run[k + 1]) && !run[k].fatal && Inv(run[k])
  {
    hide Inv, Step, MayCall;
    assert Next(run[k], run[k + 1]);
    RunsKeepInv(configured, run, k);
  }

  lemma CallIsRunning(s: State, i: nat)
    requires Inv(s) && i < |s.threads| && s.threads[i].pc.User?
    ensures s.threads[i].stack != []
    ensures var task := Cur(s.threads[i]);
            task > 0 ==> ValidTask(s.pool, task) && TaskAt(s.pool, task).state.Running?
  {
    hide RecordsOk, LocksOk, WorkersOk, EndingOk;
    OneThread(s, i);
    hide ThreadsOk;
    var d := |s.threads[i].stack| - 1;
    assert (i == 0 && d == 0) || HasLoc(s, s.threads[i].stack[d], OnStack(i, d));
    if Cur(s.threads[i]) > 0 {
      assert LocOk(s, Cur(s.threads[i]));
    }
  }

  lemma ReturnLeaves(s: State, i: nat, failure: string)
    requires Inv(s) && CanStep(s, i, Action.Return(failure)) && s.threads[i].pc.User?
    ensures i < |s.threads| && s.threads[i].stack != []
    ensures var task := Cur(s.threads[i]);
            task > 0 && ValidTask(s.pool, task)
            && Leaving(Step(s, i, Action.Return(failure)), i, task, TaskAt(s.pool, task).errorText, failure)
  {
    CallIsRunning(s, i);
    NotMain(s, i, failure);
    hide Inv;
  }

  lemma NotMain(s: State, i: nat, failure: string)
    requires Inv(s) && CanStep(s, i, Action.Return(failure)) && s.threads[i].pc.User?
    ensures s.threads[i].stack != [] && Cur(s.threads[i]) > 0
  {
    hide TasksOk, RecordsOk, LocksOk, WorkersOk, EndingOk;
    OneThread(s, i);
    hide ThreadsOk;
    var d := |s.threads[i].stack| - 1;
    assert (i == 0 && d == 0) || HasLoc(s, s.threads[i].stack[d], OnStack(i, d));
  }

  // From the return of its thunk on a task is on its way out of run_task or has ended: with its first error
  // text, or with that of the exception that left the thunk. So an escaped exception never leaves it DONE.
  lemma {:induction false} EscapedExceptionFails(configured: nat, run: seq<State>, m: nat, n: nat, i: nat, failure: string)
    requires IsRun(configured, run) && m < n < |run| && ReturnsAt(run, m, i, failure)
    ensures i < |run[m].threads| && run[m].threads[i].stack != []
    ensures var task := Cur(run[m].threads[i]);
            task > 0 && ValidTask(run[m].pool, task)
            && LeftOrEnded(run[n], i, task, TaskAt(run[m].pool, task).errorText, failure)
    decreases n
  {
    hide IsRun, Next, Inv, CanStep, Step, LeftOrEnded, Leaving;
    StepIsNext(configured, run, m);
    ReturnLeaves(run[m], i, failure);
    var task := Cur(run[m].threads[i]);
    var text := TaskAt(run[m].pool, task).errorText;
    if n == m + 1 {
      LeavingIsLeft(run[n], i, task, text, failure);
    } else {
      EscapedExceptionFails(configured, run, m, n - 1, i, failure);
      StepIsNext(configured, run, n - 1);
      NextLeaves(run[n - 1], run[n], i, task, text, failure);
    }
  }

  lemma LeavingIsLeft(s: State, i: nat, task: nat, text: string, failure: string)
    requires Leaving(s, i, task, text, failure)
    ensures LeftOrEnded(s, i, task, text, failure)
  {
  }

  // ---------------------------------------------------------------- what compiled code may do

  predicate IsMain(s: State, i: nat) {
    i == 0 && i < |s.threads| && |s.threads[i].stack| == 1
  }

  // A thread in compiled code, in the main program only before its end.
  ghost predicate IsOpen(s: State, i: nat) {
    && !s.fatal && i < |s.threads| && !Sleeping(s, i) && s.threads[i].pc.User? && s.threads[i].stack != []
    && (IsMain(s, i) ==> s.ending.NotEnding?)
  }

  lemma SpawnIsOpen(s: State, i: nat)
    requires IsOpen(s, i)
    ensures exists wake: nat :: CanStep(s, i, Action.Spawn(wake))
  {
    if wake: nat :| wake in s.sleepWork {
      assert CanStep(s, i, Action.Spawn(wake));
    } else {
      var nobody: nat := 0;
      assert s.sleepWork == {} && CanStep(s, i, Action.Spawn(nobody));
    }
  }

  // Until the main program has ended, a thread in compiled code may make every call: take and release any
  // locks, wait for or cancel any task, throw, spawn, and return or, in the main program, end the program.
  lemma EveryCallIsOpen(s: State, i: nat, task: nat, ids: seq<nat>, explicitly: bool, mark: int, text: string, normal: bool)
    requires IsOpen(s, i)
    ensures CanStep(s, i, Throw(text)) && CanStep(s, i, Unlock) && CanStep(s, i, ReleaseTo(mark)) && CanStep(s, i, Die)
    ensures ids != [] ==> CanStep(s, i, SyncEnter(ids, explicitly)) && CanStep(s, i, SyncLeave(ids))
    ensures ValidTask(s.pool, task) ==> CanStep(s, i, Action.Wait(task)) && CanStep(s, i, Action.Cancel(task))
    ensures exists wake: nat :: CanStep(s, i, Action.Spawn(wake))
    ensures if IsMain(s, i) then CanStep(s, i, Shutdown(normal))
            else CanStep(s, i, CancelCheck) && CanStep(s, i, Action.Return(""))
                 && CanStep(s, i, Action.Return(FAILURE_PREFIX + text))
  {
    SpawnIsOpen(s, i);
  }

  // ---------------------------------------------------------------- THROW

  ghost predicate CallsAt(run: seq<State>, m: nat, i: nat, a: Action) {
    && m + 1 < |run| && CanStep(run[m], i, a) && run[m].threads[i].pc.User? && run[m + 1] == Step(run[m], i, a)
  }

  lemma ThrowStep(s: State, i: nat, text: string)
    requires Inv(s) && CanStep(s, i, Throw(text)) && s.threads[i].pc.User? && Cur(s.threads[i]) > 0
    ensures var task := Cur(s.threads[i]);
            ValidTask(s.pool, task)
            && RunsOnWith(UserStep(s, i, Throw(text)).pool, task, Final(TaskAt(s.pool, task).errorText, THROW_PREFIX + text))
  {
    CallIsRunning(s, i);
    hide Inv;
  }

  // A THROW that a task does not catch is its error text from then on, unless it has one, and it does not
  // end DONE.
  lemma UncaughtThrowFails(configured: nat, run: seq<State>, m: nat, n: nat, i: nat, text: string)
    requires IsRun(configured, run) && m < n < |run| && CallsAt(run, m, i, Throw(text)) && Cur(run[m].threads[i]) > 0
    ensures var task := Cur(run[m].threads[i]);
            && ValidTask(run[m].pool, task) && ValidTask(run[n].pool, task)
            && TaskAt(run[n].pool, task).errorText == Final(TaskAt(run[m].pool, task).errorText, THROW_PREFIX + text)
            && !TaskAt(run[n].pool, task).state.Done?
  {
    StepIsNext(configured, run, m);
    ThrowStep(run[m], i, text);
    hide IsRun, Inv, Step, CanStep;
    var task := Cur(run[m].threads[i]);
    var final := Final(TaskAt(run[m].pool, task).errorText, THROW_PREFIX + text);
    FailedStays(configured, run, m + 1, n, task, final);
  }

  lemma FailedStays(configured: nat, run: seq<State>, m: nat, n: nat, task: nat, text: string)
    requires IsRun(configured, run) && m <= n < |run| && RunsOnWith(run[m].pool, task, text) && text != ""
    ensures ValidTask(run[n].pool, task)
    ensures TaskAt(run[n].pool, task).errorText == text && !TaskAt(run[n].pool, task).state.Done?
    ensures text == CANCELLED_TEXT ==> TaskAt(run[n].pool, task).state.Running? || TaskAt(run[n].pool, task).state.Cancelled?
  {
    hide IsRun;
    var p := (t: TaskRun) =>
      && t.errorText == text && !t.state.Done? && !t.state.Pending?
      && (text == CANCELLED_TEXT ==> t.state.Running? || t.state.Cancelled?);
    StablePropertiesLast(configured, run, m, n, task, p);
  }

  // ---------------------------------------------------------------- TASK.CANCEL

  ghost predicate Requested(s: State, task: nat) {
    ValidTask(s.pool, task) && TaskAt(s.pool, task).cancelRequested
  }

  lemma CancelStep(s: State, i: nat, task: nat)
    requires CanStep(s, i, Action.Cancel(task)) && s.threads[i].pc.User?
    ensures var u := UserStep(s, i, Action.Cancel(task));
            && !u.fatal && ValidTask(s.pool, task) && ValidTask(u.pool, task)
            && var t := TaskAt(s.pool, task);
               TaskAt(u.pool, task) == if IsFinished(t.state) then t else t.(cancelRequested := true)
  {
  }

  // A task that is cancelled before it has begun never calls its thunk and can only end CANCELLED.
  lemma CancelBeforeStartTakesEffect(configured: nat, run: seq<State>, m: nat, n: nat, i: nat, task: nat)
    requires IsRun(configured, run) && m < n < |run| && CallsAt(run, m, i, Action.Cancel(task))
    requires TaskAt(run[m].pool, task).state.Pending?
    ensures ValidTask(run[n].pool, task) && TaskAt(run[n].pool, task).thunkRuns == 0
    ensures TaskAt(run[n].pool, task).state.Pending? || TaskAt(run[n].pool, task).state.Cancelled?
  {
    CancelStep(run[m], i, task);
    hide IsRun, Step, CanStep;
    CancelledBeforeStartNeverRuns(configured, run, m + 1, n, task);
  }

  lemma RequestStays(configured: nat, run: seq<State>, m: nat, n: nat, task: nat)
    requires IsRun(configured, run) && m <= n < |run|
    requires ValidTask(run[m].pool, task) && TaskAt(run[m].pool, task).cancelRequested
    ensures ValidTask(run[n].pool, task) && TaskAt(run[n].pool, task).cancelRequested
  {
    hide IsRun;
    StablePropertiesLast(configured, run, m, n, task, (t: TaskRun) => t.cancelRequested);
  }

  lemma CheckStep(s: State, i: nat)
    requires Inv(s) && CanStep(s, i, CancelCheck) && s.threads[i].pc.User?
    ensures var task := Cur(s.threads[i]);
            && task > 0 && ValidTask(s.pool, task)
            && var t := TaskAt(s.pool, task);
               RunsOnWith(UserStep(s, i, CancelCheck).pool, task,
                          if t.cancelRequested then Final(t.errorText, CANCELLED_TEXT) else t.errorText)
  {
    CallIsRunning(s, i);
    CheckIsTask(s, i);
    hide Inv;
  }

  lemma CheckIsTask(s: State, i: nat)
    requires Inv(s) && CanStep(s, i, CancelCheck) && s.threads[i].pc.User?
    ensures Cur(s.threads[i]) > 0
  {
    hide TasksOk, RecordsOk, LocksOk, WorkersOk, EndingOk;
    OneThread(s, i);
    hide ThreadsOk;
    var d := |s.threads[i].stack| - 1;
    assert (i == 0 && d == 0) || HasLoc(s, s.threads[i].stack[d], OnStack(i, d));
  }

  lemma CancelRequests(configured: nat, run: seq<State>, m: nat, k: nat, i: nat, task: nat)
    requires IsRun(configured, run) && m < k < |run| && CallsAt(run, m, i, Action.Cancel(task))
    requires !IsFinished(TaskAt(run[m].pool, task).state)
    ensures Requested(run[k], task)
  {
    CancelStep(run[m], i, task);
    hide IsRun, Step, CanStep;
    RequestStays(configured, run, m + 1, k, task);
  }

  lemma CheckRecords(configured: nat, run: seq<State>, k: nat, j: nat, text: string)
    requires IsRun(configured, run) && CallsAt(run, k, j, CancelCheck)
    requires Requested(run[k], Cur(run[k].threads[j])) && TaskAt(run[k].pool, Cur(run[k].threads[j])).errorText == ""
    requires text == CANCELLED_TEXT
    ensures RunsOnWith(run[k + 1].pool, Cur(run[k].threads[j]), text)
  {
    StepIsNext(configured, run, k);
    CheckStep(run[k], j);
    hide IsRun, Inv, UserStep, CanStep, CANCELLED_TEXT;
  }

  // The task has been told to stop: it has the text CANCELLED, and can only end CANCELLED.
  ghost predicate IsStopped(p: Pool, task: nat) {
    && ValidTask(p, task) && TaskAt(p, task).errorText == CANCELLED_TEXT
    && (TaskAt(p, task).state.Running? || TaskAt(p, task).state.Cancelled?)
  }

  lemma CancelTextStays(configured: nat, run: seq<State>, m: nat, n: nat, task: nat, text: string)
    requires IsRun(configured, run) && m <= n < |run| && RunsOnWith(run[m].pool, task, text) && text == CANCELLED_TEXT
    ensures IsStopped(run[n].pool, task)
  {
    CancelledTextIsSome();
    hide IsRun, CANCELLED_TEXT, RunsOnWith;
    FailedStays(configured, run, m, n, task, text);
  }

  // A task that is cancelled while it is unfinished and has no error text at its next cancellation point
  // has the text CANCELLED from then on, and can only end CANCELLED.
  lemma CancelTakesEffectAtCheck(configured: nat, run: seq<State>, m: nat, k: nat, n: nat, i: nat, j: nat, task: nat)
    requires IsRun(configured, run) && m < k < n < |run| && CallsAt(run, m, i, Action.Cancel(task))
    requires !IsFinished(TaskAt(run[m].pool, task).state)
    requires CallsAt(run, k, j, CancelCheck) && Cur(run[k].threads[j]) == task
    requires ValidTask(run[k].pool, task) && TaskAt(run[k].pool, task).errorText == ""
    ensures IsStopped(run[n].pool, task)
  {
    hide IsRun, CANCELLED_TEXT, RunsOnWith, Step, CanStep, Requested, IsStopped, IsFinished;
    CancelRequests(configured, run, m, k, i, task);
    CheckMeets(run, k, j, task);
    CheckedIsStopped(configured, run, k, n, j, task, CANCELLED_TEXT);
  }

  lemma CheckedIsStopped(configured: nat, run: seq<State>, k: nat, n: nat, j: nat, task: nat, text: string)
    requires IsRun(configured, run) && k < n < |run| && CallsAt(run, k, j, CancelCheck)
    requires Cur(run[k].threads[j]) == task && Requested(run[k], task) && TaskAt(run[k].pool, task).errorText == ""
    requires text == CANCELLED_TEXT
    ensures IsStopped(run[n].pool, task)
  {
    hide IsRun, CANCELLED_TEXT, RunsOnWith, Step, CanStep, IsStopped;
    CheckRecords(configured, run, k, j, text);
    CancelTextStays(configured, run, k + 1, n, task, text);
  }

  lemma CheckMeets(run: seq<State>, k: nat, j: nat, task: nat)
    requires CallsAt(run, k, j, CancelCheck) && Cur(run[k].threads[j]) == task
    ensures j < |run[k].threads| && run[k].threads[j].stack != []
  {
    hide Step;
  }

  lemma CancelledTextIsSome()
    ensures CANCELLED_TEXT != ""
  {
    assert |CANCELLED_TEXT| > 0;
  }

  // ---------------------------------------------------------------- sections that leave the pool alone

  predicate LooksForWork(pc: Pc) {
    pc.Fetch? || pc.Idle? || pc.Decided?
  }

  predicate RunsTask(pc: Pc) {
    pc.Claimed? || pc.HelpClaimed? || pc.Released?
  }

  // A section that neither takes nor ends a task.
  ghost predicate QuietSection(s: State, u: State, i: nat) {
    && i < |s.threads| && i < |u.threads|
    && u.pool.queue == s.pool.queue && u.pool.tasks == s.pool.tasks && u.pool.stopping == s.pool.stopping
    && u.sleepWork == s.sleepWork
    && (u.threads[i].pc.Returned? ==> u.threads[i].pc == s.threads[i].pc)
    && (u.threads[i].pc.Released? ==>
          s.threads[i].pc == Returned(u.threads[i].pc.failure) || u.threads[i].pc == s.threads[i].pc)
  }

  lemma EnterIsQuietSection(s: State, i: nat, ids: seq<nat>, explicitly: bool)
    requires i < |s.threads| && s.threads[i].stack != []
    ensures QuietSection(s, EnterStep(s, i, ids, explicitly), i)
  {
    hide Enter, CycleLocked, Owner, Announced;
  }

  lemma NoteIsQuietSection(s: State, i: nat, target: nat, next: Pc)
    requires i < |s.threads| && s.threads[i].stack != [] && !next.Returned? && !next.Released?
    ensures QuietSection(s, NoteStep(s, i, target, next), i)
  {
    hide CycleLocked, Announced;
  }

  lemma ReleasedIsQuietSection(s: State, i: nat, r: LockTable.Released, next: Pc)
    requires i < |s.threads| && (next.Released? ==> s.threads[i].pc == Returned(next.failure)) && !next.Returned?
    ensures QuietSection(s, ReleasedStep(s, i, r, next), i)
  {
    hide Announced;
  }

  lemma WaitOverIsQuietSection(s: State, i: nat, handle: nat)
    requires i < |s.threads| && s.threads[i].stack != []
    ensures QuietSection(s, WaitOverStep(s, i, handle), i)
  {
    hide Announced;
  }

  lemma BlockKeepsQueue(p: Pool, isWorker: bool)
    ensures var q := BlockBegin(p, isWorker);
            q.queue == p.queue && q.tasks == p.tasks && q.stopping == p.stopping
    ensures var q := BlockEnd(p, isWorker);
            q.queue == p.queue && q.tasks == p.tasks && q.stopping == p.stopping
  {
  }

  lemma QuietIsQuiet(s: State, i: nat)
    requires CanStep(s, i, Run) && !s.threads[i].pc.User? && !RunsTask(s.threads[i].pc) && !LooksForWork(s.threads[i].pc)
    ensures QuietSection(s, RunStep(s, i), i)
  {
    var th := s.threads[i];
    BlockKeepsQueue(s.pool, th.worker);
    hide EnterStep, NoteStep, ReleasedStep, WaitOverStep, ReleaseAll, Owner, BlockBegin, BlockEnd;
    match th.pc
    case LockWoken(ids, ex) =>
      var t := s.table.(edges := s.table.edges - {Cur(th)});
      EnterIsQuietSection(s.(table := t), i, ids, ex);
    case Popped(h, task) => NoteIsQuietSection(s, i, task, HelpClaimed(h, task));
    case Helped(h, _) => NoteIsQuietSection(s, i, h, LoopTop(h));
    case WaitOver(h) => WaitOverIsQuietSection(s, i, h);
    case Returned(failure) => ReleasedIsQuietSection(s, i, ReleaseAll(s.table, Cur(th)), Pc.Released(failure));
    case _ =>
  }

  // A section that looks for work takes the front of the queue, if it takes a task.
  ghost predicate LookerStep(s: State, u: State, i: nat) {
    && u.pool.tasks == s.pool.tasks && u.pool.stopping == s.pool.stopping
    && (u.pool.queue == s.pool.queue || (s.pool.queue != [] && u.pool.queue == s.pool.queue[1..]))
    && i < |u.threads| && !u.threads[i].pc.Returned? && !u.threads[i].pc.Released?
    && (s.pool.stopping ==> u.sleepWork == s.sleepWork)
  }

  lemma FetchSection(s: State, i: nat)
    requires i < |s.threads| && !Sleeping(s, i)
    ensures LookerStep(s, FetchStep(s, i), i)
    ensures s.threads[i].pc.Idle? ==> LookerStep(s, IdleStep(s, i), i)
  {
  }

  lemma DecidedSection(s: State, i: nat, handle: nat, mayHelp: bool)
    requires i < |s.threads|
    ensures LookerStep(s, DecidedStep(s, i, handle, mayHelp), i)
  {
    BlockKeepsQueue(s.pool, s.threads[i].worker);
    hide BlockBegin;
  }

  lemma LookerSection(s: State, i: nat)
    requires CanStep(s, i, Run) && LooksForWork(s.threads[i].pc)
    ensures LookerStep(s, RunStep(s, i), i)
  {
    hide FetchStep, IdleStep, DecidedStep, LookerStep;
    FetchSection(s, i);
    if s.threads[i].pc.Decided? {
      DecidedSection(s, i, s.threads[i].pc.handle, s.threads[i].pc.mayHelp);
    }
  }

  ghost predicate TaskStep(s: State, u: State) {
    && u.pool.queue == s.pool.queue && u.pool.stopping == s.pool.stopping && u.sleepWork == s.sleepWork
    && |u.pool.tasks| == |s.pool.tasks|
  }

  lemma BeginIsTaskStep(s: State, i: nat, task: nat, waits: seq<nat>, back: Pc)
    requires i < |s.threads|
    ensures TaskStep(s, BeginStep(s, i, task, waits, back))
  {
  }

  lemma FinishIsTaskStep(s: State, i: nat, failure: string)
    requires i < |s.threads| && s.threads[i].stack != []
    ensures TaskStep(s, FinishStep(s, i, failure))
  {
  }

  lemma TaskSection(s: State, i: nat)
    requires CanStep(s, i, Run) && RunsTask(s.threads[i].pc)
    ensures TaskStep(s, RunStep(s, i))
  {
    hide RunStep, BeginStep, FinishStep, TaskStep;
    var th := s.threads[i];
    if th.pc.Released? {
      FinishIsStep(s, i, th.pc.failure);
      FinishIsTaskStep(s, i, th.pc.failure);
    } else {
      BeginIsStep(s, i);
      BeginIsTaskStep(s, i, th.pc.task, if th.pc.Claimed? then th.waits else th.waits + [th.pc.handle],
                      if th.pc.Claimed? then Fetch else Helped(th.pc.handle, th.pc.task));
    }
  }

  // ---------------------------------------------------------------- nobody else is cancelled

  // TASK.CANCEL of this task, or the snapshot of an abnormal end.
  ghost predicate AsksToStop(s: State, e: Event, task: nat) {
    e.ThreadStep? && (e.action == Action.Cancel(task) || (e.action.Snapshot? && s.ending == Releasing(false)))
  }

  ghost predicate AskedAt(run: seq<State>, k: nat, task: nat) {
    k + 1 < |run| && exists e: Event :: CanHappen(run[k], e) && run[k + 1] == After(run[k], e) && AsksToStop(run[k], e, task)
  }

  lemma UserRequests(s: State, i: nat, a: Action, task: nat)
    requires CanStep(s, i, a) && s.threads[i].pc.User? && !Requested(s, task)
    requires a != Action.Cancel(task) && !(a.Snapshot? && s.ending == Releasing(false))
    ensures !Requested(UserStep(s, i, a), task)
  {
    hide Enter, ReleaseAll, ReleaseReversed, PopExplicit, PopTo;
  }

  lemma RunRequests(s: State, i: nat, task: nat)
    requires Inv(s) && CanStep(s, i, Run) && !s.threads[i].pc.User? && !Requested(s, task)
    ensures !Requested(RunStep(s, i), task)
  {
    hide Inv, RunStep;
    var pc := s.threads[i].pc;
    if pc.Claimed? || pc.HelpClaimed? {
      BeginIsStep(s, i);
    } else if pc.Released? {
      FinishIsStep(s, i, pc.failure);
    } else {
      QuietRun(s, i);
    }
  }

  lemma StepRequests(s: State, e: Event, task: nat)
    requires Inv(s) && CanHappen(s, e) && !Requested(s, task) && !AsksToStop(s, e, task)
    ensures !Requested(After(s, e), task)
  {
    hide Inv, UserStep, RunStep, Requested;
    match e
    case ThreadStep(i, a) =>
      if s.threads[i].pc.User? {
        UserRequests(s, i, a, task);
      } else {
        RunRequests(s, i, task);
      }
    case SpuriousWake(_) => SameRequests(s, After(s, e), task);
  }

  lemma SameRequests(s: State, u: State, task: nat)
    requires u.pool == s.pool && !Requested(s, task)
    ensures !Requested(u, task)
  {
  }

  lemma {:induction false} OnlyAskedAreRequested(configured: nat, run: seq<State>, n: nat, task: nat)
    requires IsRun(configured, run) && n < |run| && Requested(run[n], task)
    ensures exists k: nat :: k < n && AskedAt(run, k, task)
    decreases n
  {
    assert n > 0 by {
      assert run[0].pool.tasks == [];
    }
    var before: nat := n - 1;
    StepIsNext(configured, run, before);
    hide IsRun, Inv, Requested, CanStep, Step, AsksToStop;
    if Requested(run[before], task) {
      OnlyAskedAreRequested(configured, run, before, task);
      var k: nat :| k < before && AskedAt(run, k, task);
      assert k < n && AskedAt(run, k, task);
    } else {
      var e: Event :| CanHappen(run[before], e) && run[before + 1] == After(run[before], e);
      if !AsksToStop(run[before], e, task) {
        StepRequests(run[before], e, task);
      }
      assert before < n && AskedAt(run, before, task);
    }
  }

  // Whoever has the text CANCELLED was asked to stop; the texts of exceptions are other texts.
  ghost predicate Honest(t: TaskRun) {
    t.errorText == CANCELLED_TEXT ==> t.cancelRequested
  }

  predicate FailureOk(failure: string) {
    failure == "" || FAILURE_PREFIX <= failure
  }

  predicate PcHonest(pc: Pc) {
    match pc
    case Returned(failure) => FailureOk(failure)
    case Released(failure) => FailureOk(failure)
    case _ => true
  }

  ghost predicate AllHonest(s: State) {
    && (forall k :: 0 <= k < |s.pool.tasks| ==> Honest(s.pool.tasks[k]))
    && (forall i :: 0 <= i < |s.threads| ==> PcHonest(s.threads[i].pc))
  }

  lemma TextsDiffer(text: string)
    requires FAILURE_PREFIX <= text || THROW_PREFIX <= text
    ensures text != CANCELLED_TEXT
  {
    assert text[0] == 'n' && CANCELLED_TEXT[0] == 'C';
  }

  lemma UserRecordsHonest(s: State, i: nat, a: Action)
    requires AllHonest(s) && CanStep(s, i, a) && s.threads[i].pc.User?
    ensures forall k :: 0 <= k < |UserStep(s, i, a).pool.tasks| ==> Honest(UserStep(s, i, a).pool.tasks[k])
  {
    hide Enter, ReleaseAll, ReleaseReversed, PopExplicit, PopTo;
    CancelledTextIsSome();
    if a.Throw? {
      TextsDiffer(THROW_PREFIX + a.text);
    }
    hide CANCELLED_TEXT;
  }

  lemma UserPcHonest(s: State, i: nat, a: Action)
    requires CanStep(s, i, a) && s.threads[i].pc.User?
    ensures i < |UserStep(s, i, a).threads| && PcHonest(UserStep(s, i, a).threads[i].pc)
  {
    hide Enter, ReleaseAll, ReleaseReversed, PopExplicit, PopTo, Announced, Rec;
  }

  lemma BeginPcHonest(s: State, i: nat, task: nat, waits: seq<nat>, back: Pc)
    requires i < |s.threads| && PcHonest(s.threads[i].pc) && PcHonest(back)
    ensures i < |BeginStep(s, i, task, waits, back).threads| && PcHonest(BeginStep(s, i, task, waits, back).threads[i].pc)
  {
    hide BeginRun;
  }

  lemma FinishPcHonest(s: State, i: nat, failure: string)
    requires i < |s.threads| && s.threads[i].stack != [] && PcHonest(s.threads[i].pc)
    ensures i < |FinishStep(s, i, failure).threads| && PcHonest(FinishStep(s, i, failure).threads[i].pc)
  {
    hide FinishRun;
  }

  lemma RunPcHonest(s: State, i: nat)
    requires CanStep(s, i, Run) && !s.threads[i].pc.User? && PcHonest(s.threads[i].pc)
    ensures i < |RunStep(s, i).threads| && PcHonest(RunStep(s, i).threads[i].pc)
  {
    hide RunStep, QuietSection;
    var th := s.threads[i];
    if th.pc.Claimed? || th.pc.HelpClaimed? {
      BeginIsStep(s, i);
      BeginPcHonest(s, i, th.pc.task, if th.pc.Claimed? then th.waits else th.waits + [th.pc.handle],
                    if th.pc.Claimed? then Fetch else Helped(th.pc.handle, th.pc.task));
    } else if th.pc.Released? {
      FinishIsStep(s, i, th.pc.failure);
      FinishPcHonest(s, i, th.pc.failure);
    } else if LooksForWork(th.pc) {
      LookerSection(s, i);
    } else {
      QuietIsQuiet(s, i);
      QuietPcHonest(s, RunStep(s, i), i);
    }
  }

  lemma QuietPcHonest(s: State, u: State, i: nat)
    requires QuietSection(s, u, i) && PcHonest(s.threads[i].pc)
    ensures i < |u.threads| && PcHonest(u.threads[i].pc)
  {
  }

  lemma BeginHonest(s: State, i: nat, task: nat, waits: seq<nat>, back: Pc)
    requires AllHonest(s) && i < |s.threads|
    ensures var u := BeginStep(s, i, task, waits, back);
            forall k :: 0 <= k < |u.pool.tasks| ==> Honest(u.pool.tasks[k])
  {
    hide CANCELLED_TEXT;
  }

  lemma FinishHonest(s: State, i: nat, failure: string)
    requires AllHonest(s) && CanFinish(s, i, failure)
    ensures s.threads[i].stack != []
    ensures var u := FinishStep(s, i, failure);
            forall k :: 0 <= k < |u.pool.tasks| ==> Honest(u.pool.tasks[k])
  {
    FinishingTask(s, i, failure);
    FinishIs(s, i, failure);
    assert FailureOk(failure);
    if failure != "" {
      TextsDiffer(failure);
    }
    hide CANCELLED_TEXT, FinishStep, Inv;
  }

  lemma RunRecordsHonest(s: State, i: nat)
    requires Inv(s) && AllHonest(s) && CanStep(s, i, Run) && !s.threads[i].pc.User?
    ensures forall k :: 0 <= k < |RunStep(s, i).pool.tasks| ==> Honest(RunStep(s, i).pool.tasks[k])
  {
    hide Inv, RunStep;
    var th := s.threads[i];
    if th.pc.Claimed? || th.pc.HelpClaimed? {
      BeginIsStep(s, i);
      BeginHonest(s, i, th.pc.task, if th.pc.Claimed? then th.waits else th.waits + [th.pc.handle],
                  if th.pc.Claimed? then Fetch else Helped(th.pc.handle, th.pc.task));
    } else if th.pc.Released? {
      FinishIsStep(s, i, th.pc.failure);
      FinishHonest(s, i, th.pc.failure);
    } else {
      QuietRun(s, i);
    }
  }

  lemma ThreadsHonest(s: State, u: State, i: nat)
    requires AllHonest(s) && i < |s.threads| && FrameThreads(s, u, i) && PcHonest(u.threads[i].pc)
    requires forall k :: 0 <= k < |u.pool.tasks| ==> Honest(u.pool.tasks[k])
    ensures AllHonest(u)
  {
    forall j | 0 <= j < |u.threads| ensures PcHonest(u.threads[j].pc) {
      if j >= |s.threads| {
        assert u.threads[j] == NEW_WORKER;
      }
    }
  }

  lemma StepHonest(s: State, e: Event)
    requires Inv(s) && AllHonest(s) && CanHappen(s, e)
    ensures AllHonest(After(s, e))
  {
    hide Inv, UserStep, RunStep;
    match e
    case ThreadStep(i, a) =>
      if s.threads[i].pc.User? {
        UserRecordsHonest(s, i, a);
        UserPcHonest(s, i, a);
      } else {
        RunRecordsHonest(s, i);
        assert PcHonest(s.threads[i].pc);
        RunPcHonest(s, i);
      }
      StepFrames(s, i, a);
      ThreadsHonest(s, After(s, e), i);
    case SpuriousWake(_) =>
  }

  lemma {:induction false} RunsAreHonest(configured: nat, run: seq<State>, n: nat)
    requires IsRun(configured, run) && n < |run|
    ensures AllHonest(run[n])
    decreases n
  {
    if n == 0 {
      assert run[0].threads == [Thread(false, [0], [], User)];
    } else {
      hide AllHonest, Inv, CanStep, Step;
      RunsAreHonest(configured, run, n - 1);
      StepIsNext(configured, run, n - 1);
      var e: Event :| CanHappen(run[n - 1], e) && run[n] == After(run[n - 1], e);
      StepHonest(run[n - 1], e);
    }
  }

  // In every run a task is only CANCELLED, or asked to stop, if somebody has cancelled it or the main
  // program has ended abnormally.
  lemma OnlyAskedAreCancelled(configured: nat, run: seq<State>, n: nat, task: nat)
    requires Arrived(configured, run, n) && ValidTask(run[n].pool, task)
    requires TaskAt(run[n].pool, task).state.Cancelled? || TaskAt(run[n].pool, task).cancelRequested
    ensures exists k: nat :: k < n && AskedAt(run, k, task)
  {
    RunsKeepInv(configured, run, n);
    RunsAreHonest(configured, run, n);
    hide IsRun;
    var t := run[n].pool.tasks[task - 1];
    assert RecordOk(t) && Honest(t);
    OnlyAskedAreRequested(configured, run, n, task);
  }

  // A normal end asks nobody to stop: the step that takes the snapshot leaves all records as they are.
  lemma NormalSnapshotKeepsTasks(s: State, u: State)
    requires Next(s, u) && s.ending == Releasing(true) && u.ending.Draining?
    ensures u.pool.tasks == s.pool.tasks
  {
    hide RunStep, Enter, ReleaseAll, ReleaseReversed, PopExplicit, PopTo;
    var e: Event :| CanHappen(s, e) && u == After(s, e);
    assert e.ThreadStep?;
    if !s.threads[e.thread].pc.User? {
      RunKeepsEnding(s, e.thread);
    } else if !e.action.Snapshot? {
      UserKeepsReleasing(s, e.thread, e.action);
    }
  }

  // So when the workers are told to stop after a normal end, every task of the snapshot that nobody has
  // cancelled has called its thunk, once, and ended DONE or with an error.
  lemma NormalEndRunsAll(configured: nat, run: seq<State>, n: nat, task: nat)
    requires Arrived(configured, run, n) && run[n].pool.stopping && run[n].ending.Draining?
    requires 1 <= task <= run[n].ending.all
    requires forall k: nat :: k < n ==> !AskedAt(run, k, task)
    ensures ValidTask(run[n].pool, task)
    ensures var t := TaskAt(run[n].pool, task);
            t.thunkRuns == 1 && (t.state.Done? || t.state.Error?)
  {
    StopsAfterAllHaveFinished(configured, run, n, task);
    RunsKeepInv(configured, run, n);
    assert RecordOk(run[n].pool.tasks[task - 1]);
    hide IsRun, Inv, AskedAt;
    if TaskAt(run[n].pool, task).state.Cancelled? {
      OnlyAskedAreCancelled(configured, run, n, task);
    }
  }

  // ---------------------------------------------------------------- the order of the queue

  ghost predicate InOrder(s: State) {
    && (forall j, k :: 0 <= j < k < |s.pool.queue| ==> s.pool.queue[j] < s.pool.queue[k])
    && (forall j :: 0 <= j < |s.pool.queue| ==> s.pool.queue[j] <= |s.pool.tasks|)
  }

  // A step appends the newest task to the queue, takes the front, or leaves the queue alone.
  ghost predicate QueueStep(s: State, u: State) {
    && |s.pool.tasks| <= |u.pool.tasks|
    && (|| u.pool.queue == s.pool.queue
        || (u.pool.queue == s.pool.queue + [|u.pool.tasks|] && |u.pool.tasks| == |s.pool.tasks| + 1)
        || (s.pool.queue != [] && u.pool.queue == s.pool.queue[1..]))
  }

  lemma UserQueue(s: State, i: nat, a: Action)
    requires CanStep(s, i, a) && s.threads[i].pc.User?
    ensures QueueStep(s, UserStep(s, i, a))
  {
    hide Enter, ReleaseAll, ReleaseReversed, PopExplicit, PopTo;
  }

  lemma RunQueue(s: State, i: nat)
    requires CanStep(s, i, Run) && !s.threads[i].pc.User?
    ensures QueueStep(s, RunStep(s, i))
  {
    hide RunStep;
    if RunsTask(s.threads[i].pc) {
      TaskSection(s, i);
    } else if LooksForWork(s.threads[i].pc) {
      LookerSection(s, i);
    } else {
      QuietIsQuiet(s, i);
    }
  }

  lemma StepKeepsOrder(s: State, u: State)
    requires InOrder(s) && Next(s, u)
    ensures InOrder(u)
  {
    hide UserStep, RunStep;
    var e: Event :| CanHappen(s, e) && u == After(s, e);
    if e.ThreadStep? {
      if s.threads[e.thread].pc.User? {
        UserQueue(s, e.thread, e.action);
      } else {
        RunQueue(s, e.thread);
      }
    }
  }

  // In every run the queue lists tasks in the order of their spawns, so its front, which is taken next, is
  // the oldest task that has not been taken.
  lemma {:induction false} OldestIsTakenFirst(configured: nat, run: seq<State>, n: nat)
    requires IsRun(configured, run) && n < |run|
    ensures InOrder(run[n])
    ensures forall task :: task in run[n].pool.queue ==> run[n].pool.queue[0] <= task
    decreases n
  {
    if n == 0 {
      assert run[0].pool.queue == [];
    } else {
      hide InOrder, Next;
      OldestIsTakenFirst(configured, run, n - 1);
      assert Next(run[n - 1], run[n - 1 + 1]);
      StepKeepsOrder(run[n - 1], run[n]);
    }
    FrontIsLeast(run[n]);
  }

  lemma FrontIsLeast(s: State)
    requires InOrder(s)
    ensures forall task :: task in s.pool.queue ==> s.pool.queue[0] <= task
  {
  }

  // ---------------------------------------------------------------- after the end

  // Nobody sleeps for work after the workers have been told to stop.
  ghost predicate NobodyDozes(s: State) {
    s.pool.stopping ==> s.sleepWork == {}
  }

  lemma UserDozes(s: State, i: nat, a: Action)
    requires NobodyDozes(s) && CanStep(s, i, a) && s.threads[i].pc.User?
    ensures NobodyDozes(UserStep(s, i, a))
  {
    hide Enter, ReleaseAll, ReleaseReversed, PopExplicit, PopTo, Announced, Rec;
  }

  lemma RunDozes(s: State, i: nat)
    requires NobodyDozes(s) && CanStep(s, i, Run) && !s.threads[i].pc.User?
    ensures NobodyDozes(RunStep(s, i))
  {
    hide RunStep;
    if RunsTask(s.threads[i].pc) {
      TaskSection(s, i);
    } else if LooksForWork(s.threads[i].pc) {
      LookerSection(s, i);
    } else {
      QuietIsQuiet(s, i);
    }
  }

  lemma StepDozes(s: State, u: State)
    requires NobodyDozes(s) && Next(s, u)
    ensures NobodyDozes(u)
  {
    hide UserStep, RunStep;
    var e: Event :| CanHappen(s, e) && u == After(s, e);
    if e.ThreadStep? {
      if s.threads[e.thread].pc.User? {
        UserDozes(s, e.thread, e.action);
      } else {
        RunDozes(s, e.thread);
      }
    }
  }

  // After the end every worker that looks for work and finds none is awake and leaves in its next step.
  lemma {:induction false} StoppedWorkersLeave(configured: nat, run: seq<State>, n: nat, i: nat)
    requires IsRun(configured, run) && n < |run|
    ensures NobodyDozes(run[n])
    ensures run[n].pool.stopping && run[n].pool.queue == [] && CanStep(run[n], i, Run)
            && (run[n].threads[i].pc.Fetch? || run[n].threads[i].pc.Idle?) ==>
              Step(run[n], i, Run).threads[i].pc.Exited?
    decreases n
  {
    if n > 0 {
      hide NobodyDozes, Next;
      StoppedWorkersLeave(configured, run, n - 1, i);
      assert Next(run[n - 1], run[n - 1 + 1]);
      StepDozes(run[n - 1], run[n]);
    }
  }
}
