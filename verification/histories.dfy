/**
 The life of a task over a run: which changes of its record a step can make, and what therefore holds
 from some state of a run on.
 */
module Histories {
  import opened Basics
  import opened LockTable
  import opened TaskPool
  import opened Runtime
  import opened Invariants
  import opened UserSteps
  import opened TaskSteps
  import opened Runs

  // The change that one step may make to one task record.
  ghost predicate Legal(a: TaskRun, b: TaskRun) {
    && (a.cancelRequested ==> b.cancelRequested)
    && match a.state
       case Pending =>
         || (b.state.Pending? && b.thunkRuns == a.thunkRuns && b.errorText == a.errorText)
         || (!a.cancelRequested && b.state.Running? && b.thunkRuns == a.thunkRuns + 1 && b.errorText == a.errorText)
         || (a.cancelRequested && b.state.Cancelled? && b.thunkRuns == a.thunkRuns && b.errorText == CANCELLED_TEXT)
       case Running =>
         && b.thunkRuns == a.thunkRuns
         && (a.errorText != "" ==> b.errorText == a.errorText)
         && (b.state.Running?
             || b.state == if b.errorText == "" then Done else if b.errorText == CANCELLED_TEXT then Cancelled else Error)
       case _ => b == a
  }

  ghost predicate LegalTasks(s: State, u: State) {
    && |s.pool.tasks| <= |u.pool.tasks|
    && forall k :: 0 <= k < |s.pool.tasks| ==> Legal(s.pool.tasks[k], u.pool.tasks[k])
  }

  lemma BeginIsLegal(s: State, i: nat, task: nat, waits: seq<nat>, back: Pc)
    requires CanBegin(s, i, task, waits, back)
    ensures LegalTasks(s, BeginStep(s, i, task, waits, back))
  {
    ClaimedTask(s, i, task, waits, back);
  }

  lemma FinishIsLegal(s: State, i: nat, failure: string)
    requires CanFinish(s, i, failure)
    ensures s.threads[i].stack != [] && LegalTasks(s, FinishStep(s, i, failure))
  {
    FinishingTask(s, i, failure);
    FinishIs(s, i, failure);
  }

  lemma QuietRun(s: State, i: nat)
    requires CanStep(s, i, Run) && !s.threads[i].pc.User?
    requires !s.threads[i].pc.Claimed? && !s.threads[i].pc.HelpClaimed? && !s.threads[i].pc.Released?
    ensures RunStep(s, i).pool.tasks == s.pool.tasks
  {
  }

  lemma RunIsLegal(s: State, i: nat)
    requires Inv(s) && CanStep(s, i, Run) && !s.threads[i].pc.User?
    ensures LegalTasks(s, RunStep(s, i))
  {
    var th := s.threads[i];
    if th.pc.Claimed? {
      assert ThreadOk(s, i);
      BeginIsLegal(s, i, th.pc.task, th.waits, Fetch);
    } else if th.pc.HelpClaimed? {
      BeginIsLegal(s, i, th.pc.task, th.waits + [th.pc.handle], Helped(th.pc.handle, th.pc.task));
    } else if th.pc.Released? {
      FinishIsLegal(s, i, th.pc.failure);
    } else {
      QuietRun(s, i);
    }
  }

  lemma CallIsLegal(s: State, i: nat, a: Action)
    requires CanStep(s, i, a) && s.threads[i].pc.User?
    requires var key := Cur(s.threads[i]);
             key > 0 ==> ValidTask(s.pool, key) && TaskAt(s.pool, key).state.Running?
    ensures LegalTasks(s, UserStep(s, i, a))
  {
    hide Enter, ReleaseAll, ReleaseReversed, PopExplicit, PopTo;
  }

  lemma UserIsLegal(s: State, i: nat, a: Action)
    requires Inv(s) && CanStep(s, i, a) && s.threads[i].pc.User?
    ensures LegalTasks(s, UserStep(s, i, a))
  {
    if Cur(s.threads[i]) > 0 {
      RunningTask(s, i);
    }
    CallIsLegal(s, i, a);
  }

  lemma StepIsLegal(s: State, u: State)
    requires (s.fatal || Inv(s)) && Next(s, u)
    ensures LegalTasks(s, u)
  {
    var e: Event :| CanHappen(s, e) && u == After(s, e);
    if e.ThreadStep? {
      if s.threads[e.thread].pc.User? {
        UserIsLegal(s, e.thread, e.action);
      } else {
        RunIsLegal(s, e.thread);
      }
    }
  }

  lemma RunsAreLegal(configured: nat, run: seq<State>, n: nat)
    requires IsRun(configured, run) && 0 < n < |run|
    ensures LegalTasks(run[n - 1], run[n])
  {
    hide Inv, Next, LegalTasks;
    RunsKeepInv(configured, run, n - 1);
    assert Next(run[n - 1], run[n - 1 + 1]);
    StepIsLegal(run[n - 1], run[n]);
  }

  // ---------------------------------------------------------------- over a run

  // A property of a task record that no legal change destroys.
  ghost predicate Stable(p: TaskRun -> bool) {
    forall a: TaskRun, b: TaskRun :: p(a) && Legal(a, b) ==> p(b)
  }

  lemma {:induction false} StableThrough(run: seq<State>, m: nat, n: nat, task: nat, p: TaskRun -> bool)
    requires m <= n < |run| && Stable(p)
    requires forall k :: m < k <= n ==> LegalTasks(run[k - 1], run[k])
    requires ValidTask(run[m].pool, task) && p(TaskAt(run[m].pool, task))
    ensures ValidTask(run[n].pool, task) && p(TaskAt(run[n].pool, task))
    decreases n
  {
    if m < n {
      StableThrough(run, m, n - 1, task, p);
      assert LegalTasks(run[n - 1], run[n]);
      assert Legal(run[n - 1].pool.tasks[task - 1], run[n].pool.tasks[task - 1]);
    }
  }

  lemma StablePropertiesLast(configured: nat, run: seq<State>, m: nat, n: nat, task: nat, p: TaskRun -> bool)
    requires IsRun(configured, run) && m <= n < |run|
    requires Stable(p) && ValidTask(run[m].pool, task) && p(TaskAt(run[m].pool, task))
    ensures ValidTask(run[n].pool, task) && p(TaskAt(run[n].pool, task))
  {
    forall k | m < k <= n ensures LegalTasks(run[k - 1], run[k]) {
      RunsAreLegal(configured, run, k);
    }
    StableThrough(run, m, n, task, p);
  }

  // A finished task keeps its state, its error text and everything else for the rest of the run.
  lemma FinishedForever(configured: nat, run: seq<State>, m: nat, n: nat, task: nat)
    requires IsRun(configured, run) && m <= n < |run|
    requires ValidTask(run[m].pool, task) && IsFinished(TaskAt(run[m].pool, task).state)
    ensures ValidTask(run[n].pool, task) && TaskAt(run[n].pool, task) == TaskAt(run[m].pool, task)
  {
    var final := TaskAt(run[m].pool, task);
    StablePropertiesLast(configured, run, m, n, task, (t: TaskRun) => t == final);
  }

  predicate NeverBegun(t: TaskRun) {
    t.thunkRuns == 0 && ((t.state.Pending? && t.cancelRequested) || t.state.Cancelled?)
  }

  // A task that is asked to stop before it began never calls its thunk and can only end CANCELLED.
  lemma CancelledBeforeStartNeverRuns(configured: nat, run: seq<State>, m: nat, n: nat, task: nat)
    requires IsRun(configured, run) && m <= n < |run| && !run[m].fatal
    requires ValidTask(run[m].pool, task)
    requires TaskAt(run[m].pool, task).state.Pending? && TaskAt(run[m].pool, task).cancelRequested
    ensures ValidTask(run[n].pool, task)
    ensures TaskAt(run[n].pool, task).thunkRuns == 0
    ensures TaskAt(run[n].pool, task).state.Pending? || TaskAt(run[n].pool, task).state.Cancelled?
  {
    RunsKeepInv(configured, run, m);
    assert RecordOk(run[m].pool.tasks[task - 1]);
    StablePropertiesLast(configured, run, m, n, task, NeverBegun);
  }

  // The shutdown proceeds to draining in one step, which asks every unfinished task to stop.
  lemma SnapshotCancelsAll(s: State, u: State)
    requires Next(s, u) && s.ending == Releasing(false) && u.ending.Draining?
    ensures !u.fatal && |u.pool.tasks| == |s.pool.tasks|
    ensures forall k :: 0 <= k < |s.pool.tasks| ==> u.pool.tasks[k] == Marked(s.pool.tasks[k], false)
  {
    hide RunStep, Enter, ReleaseAll, ReleaseReversed, PopExplicit, PopTo;
    var e: Event :| CanHappen(s, e) && u == After(s, e);
    assert e.ThreadStep?;
    if !s.threads[e.thread].pc.User? {
      RunKeepsEnding(s, e.thread);
    } else if !e.action.Snapshot? {
      UserKeepsReleasing(s, e.thread, e.action);
    }
  }

  lemma RunKeepsEnding(s: State, i: nat)
    requires CanStep(s, i, Run) && !s.threads[i].pc.User?
    ensures s.ending.Draining? || RunStep(s, i).ending == s.ending
  {
  }

  lemma UserKeepsReleasing(s: State, i: nat, a: Action)
    requires CanStep(s, i, a) && s.threads[i].pc.User? && s.ending.Releasing? && !a.Snapshot?
    ensures UserStep(s, i, a).ending == s.ending
  {
  }

  // An abnormal end of the main program reaches every task that has not begun: none of them runs.
  lemma AbnormalEndStartsNothing(configured: nat, run: seq<State>, m: nat, n: nat, task: nat)
    requires IsRun(configured, run) && m < n < |run|
    requires run[m].ending == Releasing(false) && run[m + 1].ending.Draining?
    requires ValidTask(run[m].pool, task) && TaskAt(run[m].pool, task).state.Pending?
    ensures ValidTask(run[n].pool, task)
    ensures TaskAt(run[n].pool, task).thunkRuns == 0
    ensures TaskAt(run[n].pool, task).state.Pending? || TaskAt(run[n].pool, task).state.Cancelled?
  {
    RunsKeepInv(configured, run, m);
    assert Next(run[m], run[m + 1]);
    SnapshotCancelsAll(run[m], run[m + 1]);
    CancelledBeforeStartNeverRuns(configured, run, m + 1, n, task);
  }

  // The first error text of a task is its final one.
  lemma FirstErrorTextWins(configured: nat, run: seq<State>, m: nat, n: nat, task: nat)
    requires IsRun(configured, run) && m <= n < |run| && !run[m].fatal
    requires ValidTask(run[m].pool, task) && TaskAt(run[m].pool, task).errorText != ""
    ensures ValidTask(run[n].pool, task) && TaskAt(run[n].pool, task).errorText == TaskAt(run[m].pool, task).errorText
  {
    RunsKeepInv(configured, run, m);
    assert RecordOk(run[m].pool.tasks[task - 1]);
    var text := TaskAt(run[m].pool, task).errorText;
    StablePropertiesLast(configured, run, m, n, task, (t: TaskRun) => t.errorText == text && !t.state.Pending?);
  }

  // Workers are told to stop only after every task of the shutdown's snapshot has finished.
  lemma StopsAfterAllHaveFinished(configured: nat, run: seq<State>, n: nat, task: nat)
    requires IsRun(configured, run) && n < |run| && !run[n].fatal
    requires run[n].pool.stopping
    ensures run[n].ending.Draining? && run[n].ending.done == run[n].ending.all
    ensures 1 <= task <= run[n].ending.all ==>
              ValidTask(run[n].pool, task) && IsFinished(TaskAt(run[n].pool, task).state)
  {
    RunsKeepInv(configured, run, n);
  }
}
