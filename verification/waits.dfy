/**
 TASK.WAIT, JOIN and the waits of the shutdown over a run: from the call, through every task that the waiting
 thread runs meanwhile, to the return. The call returns to the same task on the same stack, and only after the
 awaited task has finished.
 */
module Waits {
  import opened Basics
  import opened LockTable
  import opened TaskPool
  import opened WaitGraph
  import opened Runtime
  import opened Invariants
  import opened UserSteps
  import opened TaskSteps
  import opened Progress
  import opened Runs
  import opened Histories
  import opened Outcomes

  // The task that the frame d of a stack waits for.
  function Awaited(th: Thread, d: nat): Option<nat> {
    if |th.stack| > d + 1 then if d < |th.waits| then Some(th.waits[d]) else None
    else if |th.stack| == d + 1 then
      match th.pc
      case LoopTop(h) => Some(h)
      case HoldsNothing(h) => Some(h)
      case Decided(h, _) => Some(h)
      case TaskWait(h) => Some(h)
      case Popped(h, _) => Some(h)
      case HelpClaimed(h, _) => Some(h)
      case Helped(h, _) => Some(h)
      case WaitOver(h) => Some(h)
      case _ => None
    else None
  }

  // ---------------------------------------------------------------- steps of the waiting thread

  lemma UserAwaits(s: State, i: nat, a: Action, d: nat)
    requires CanStep(s, i, a) && s.threads[i].pc.User?
    ensures var u := UserStep(s, i, a);
            && i < |u.threads| && u.threads[i].stack == s.threads[i].stack
            && (|s.threads[i].stack| > d + 1 ==> Awaited(u.threads[i], d) == Awaited(s.threads[i], d))
            && (|s.threads[i].stack| == d + 1 && Awaited(u.threads[i], d).Some? ==>
                  a == Action.Wait(Awaited(u.threads[i], d).value))
            && (a.Wait? && |s.threads[i].stack| == d + 1 && !u.fatal ==> Awaited(u.threads[i], d) == Some(a.task))
  {
    hide Enter, ReleaseAll, ReleaseReversed, PopExplicit, PopTo, Announced, CycleLocked, Owner, Ordered;
  }

  lemma BeginAwaits(s: State, i: nat, task: nat, waits: seq<nat>, back: Pc, d: nat)
    requires i < |s.threads| && |s.threads[i].waits| == |s.threads[i].stack| - 1 && d < |s.threads[i].stack|
    requires s.threads[i].pc.HelpClaimed? && back == Helped(s.threads[i].pc.handle, task)
    requires waits == s.threads[i].waits + [s.threads[i].pc.handle]
    ensures var u := BeginStep(s, i, task, waits, back);
            i < |u.threads| && s.threads[i].stack <= u.threads[i].stack
            && Awaited(u.threads[i], d) == Awaited(s.threads[i], d)
  {
    hide BeginRun;
  }

  lemma FinishAwaits(s: State, i: nat, failure: string, d: nat)
    requires i < |s.threads| && |s.threads[i].stack| > d + 1 && |s.threads[i].waits| == |s.threads[i].stack| - 1
    requires ValidTask(s.pool, Cur(s.threads[i]))
    ensures var u := FinishStep(s, i, failure);
            i < |u.threads| && u.threads[i].stack == s.threads[i].stack[..|s.threads[i].stack| - 1]
            && Awaited(u.threads[i], d) == Awaited(s.threads[i], d)
  {
    hide FinishRun;
  }

  lemma DeepAwaits(s: State, u: State, i: nat, d: nat)
    requires i < |s.threads| && i < |u.threads| && |s.threads[i].stack| > d + 1
    requires u.threads[i].stack == s.threads[i].stack && u.threads[i].waits == s.threads[i].waits
    ensures Awaited(u.threads[i], d) == Awaited(s.threads[i], d)
  {
  }

  lemma TopAwaits(s: State, i: nat, d: nat)
    requires CanStep(s, i, Run) && |s.threads[i].stack| == d + 1
    requires Awaited(s.threads[i], d).Some? && !s.threads[i].pc.WaitOver? && !s.threads[i].pc.HelpClaimed?
    ensures var u := RunStep(s, i);
            i < |u.threads| && u.threads[i].stack == s.threads[i].stack
            && (u.fatal || Awaited(u.threads[i], d) == Awaited(s.threads[i], d))
  {
    hide Announced, CycleLocked, MaybeAddWorker;
  }

  lemma WaitIsOver(s: State, i: nat, d: nat)
    requires CanStep(s, i, Run) && |s.threads[i].stack| == d + 1 && s.threads[i].pc.WaitOver?
    ensures var u := RunStep(s, i);
            && i < |u.threads| && u.threads[i] == s.threads[i].(pc := User) && Awaited(u.threads[i], d).None?
            && u.pool.tasks == s.pool.tasks
  {
    hide Announced;
  }

  // Nothing that a thread does on its own account makes a frame wait.
  lemma TopStaysFree(s: State, i: nat, d: nat)
    requires CanStep(s, i, Run) && !s.threads[i].pc.User? && |s.threads[i].stack| == d + 1
    requires Awaited(s.threads[i], d).None? && !s.threads[i].pc.Released? && !Unstacked(s.threads[i].pc)
    ensures var u := RunStep(s, i);
            i < |u.threads| && (u.fatal || Awaited(u.threads[i], d).None?)
  {
    hide Enter, ReleaseAll, Announced, CycleLocked, MaybeAddWorker, Owner;
  }

  lemma WaiterShape(s: State, i: nat)
    requires Inv(s) && i < |s.threads| && s.threads[i].stack != []
    ensures |s.threads[i].waits| == |s.threads[i].stack| - 1 && !Unstacked(s.threads[i].pc)
    ensures s.threads[i].pc.Released? ==> ValidTask(s.pool, Cur(s.threads[i]))
    ensures s.threads[i].pc.WaitOver? ==>
              ValidTask(s.pool, s.threads[i].pc.handle) && IsFinished(TaskAt(s.pool, s.threads[i].pc.handle).state)
  {
    hide RecordsOk, LocksOk, WorkersOk, EndingOk;
    OneThread(s, i);
    hide ThreadsOk;
    var d := |s.threads[i].stack| - 1;
    assert (i == 0 && d == 0) || HasLoc(s, s.threads[i].stack[d], OnStack(i, d));
  }

  // The frames up to d are as in `stack`, and the frame d waits for the task.
  ghost predicate StillWaits(s: State, i: nat, stack: seq<nat>, task: nat) {
    stack != [] && i < |s.threads| && stack <= s.threads[i].stack && Awaited(s.threads[i], |stack| - 1) == Some(task)
  }

  // The call has returned to the task that made it, and the task it waited for has finished.
  ghost predicate HasReturned(s: State, i: nat, stack: seq<nat>, task: nat) {
    && i < |s.threads| && s.threads[i].stack == stack && s.threads[i].pc.User?
    && ValidTask(s.pool, task) && IsFinished(TaskAt(s.pool, task).state)
  }

  lemma RunWaits(s: State, i: nat, stack: seq<nat>, task: nat)
    requires Inv(s) && CanStep(s, i, Run) && !s.threads[i].pc.User? && StillWaits(s, i, stack, task)
    ensures var u := RunStep(s, i);
            u.fatal || StillWaits(u, i, stack, task) || HasReturned(u, i, stack, task)
  {
    WaiterShape(s, i);
    hide Inv;
    var th, d := s.threads[i], |stack| - 1;
    if th.pc.HelpClaimed? {
      BeginIsStep(s, i);
      BeginAwaits(s, i, th.pc.task, th.waits + [th.pc.handle], Helped(th.pc.handle, th.pc.task), d);
      hide RunStep, Awaited;
    } else if |th.stack| > d + 1 {
      if th.pc.Released? {
        FinishIsStep(s, i, th.pc.failure);
        FinishAwaits(s, i, th.pc.failure, d);
        hide RunStep, Awaited;
      } else {
        QuietStack(s, i);
        hide RunStep;
        DeepAwaits(s, RunStep(s, i), i, d);
        hide Awaited;
      }
    } else {
      if th.pc.WaitOver? {
        WaitIsOver(s, i, d);
        hide RunStep;
      } else {
        TopAwaits(s, i, d);
        hide RunStep, Awaited;
      }
    }
  }

  lemma CallWaits(s: State, i: nat, a: Action, stack: seq<nat>, task: nat)
    requires CanStep(s, i, a) && s.threads[i].pc.User? && StillWaits(s, i, stack, task)
    ensures StillWaits(UserStep(s, i, a), i, stack, task)
  {
    UserAwaits(s, i, a, |stack| - 1);
    hide UserStep;
  }

  lemma EventWaits(s: State, e: Event, i: nat, stack: seq<nat>, task: nat)
    requires Inv(s) && CanHappen(s, e) && StillWaits(s, i, stack, task)
    ensures var u := After(s, e);
            u.fatal || StillWaits(u, i, stack, task) || HasReturned(u, i, stack, task)
  {
    match e
    case ThreadStep(j, a) =>
      if j != i {
        StepFrames(s, j, a);
        hide Step;
      } else if s.threads[i].pc.User? {
        CallWaits(s, i, a, stack, task);
        hide UserStep;
      } else {
        RunWaits(s, i, stack, task);
        hide RunStep;
      }
    case SpuriousWake(_) =>
  }

  lemma CallStarts(s: State, i: nat, task: nat)
    requires CanStep(s, i, Action.Wait(task)) && s.threads[i].pc.User?
    ensures var u := UserStep(s, i, Action.Wait(task));
            u.fatal || StillWaits(u, i, s.threads[i].stack, task)
  {
    UserAwaits(s, i, Action.Wait(task), |s.threads[i].stack| - 1);
    hide UserStep;
  }

  lemma FirstWait(run: seq<State>, m: nat, i: nat, task: nat)
    requires CallsAt(run, m, i, Action.Wait(task)) && !run[m + 1].fatal
    ensures i < |run[m].threads| && StillWaits(run[m + 1], i, run[m].threads[i].stack, task)
  {
    CallStarts(run[m], i, task);
    hide UserStep, StillWaits;
  }

  lemma NextWaits(s: State, u: State, i: nat, stack: seq<nat>, task: nat)
    requires Inv(s) && Next(s, u) && StillWaits(s, i, stack, task) && !u.fatal
    ensures StillWaits(u, i, stack, task) || HasReturned(u, i, stack, task)
  {
    hide Inv, Step, CanStep, StillWaits, HasReturned;
    var e: Event :| CanHappen(s, e) && u == After(s, e);
    EventWaits(s, e, i, stack, task);
  }

  // In every run, from the call of a wait on, the frames up to the waiting one stay as they are and it waits
  // for that task, whatever the thread runs on top of it, until the call returns; and that it does only when
  // the task has finished.
  lemma {:induction false} WaitReturnsAfterFinish(configured: nat, run: seq<State>, m: nat, n: nat, i: nat, task: nat)
    requires Arrived(configured, run, n) && m < n && CallsAt(run, m, i, Action.Wait(task))
    requires i < |run[m].threads| && forall k :: m < k < n ==> !HasReturned(run[k], i, run[m].threads[i].stack, task)
    ensures StillWaits(run[n], i, run[m].threads[i].stack, task) || HasReturned(run[n], i, run[m].threads[i].stack, task)
    decreases n
  {
    hide IsRun, Inv, Next, CallsAt, StillWaits, HasReturned;
    var before: nat := n - 1;
    StepIsNext(configured, run, before);
    if before == m {
      FirstWait(run, m, i, task);
    } else {
      WaitReturnsAfterFinish(configured, run, m, before, i, task);
      NextWaits(run[before], run[before + 1], i, run[m].threads[i].stack, task);
    }
  }
}
