/**
 The task pool as the object that native/uxb_runtime/uxb_runtime_task_v2.cpp keeps: each method is a
 section under its mutex, works on the fields in place, and is proved against the value-level sections of
 module TaskPool.
 */
module TaskManager {
  import opened Basics
  import opened TaskPool
  import opened Histories
  import opened Invariants

  datatype Work = Work(task: nat) | Sleep | Exit

  datatype Waited = Over | Help(task: nat) | Asleep

  // Only the record of task `id` may differ, and it has changed as run_task and its callers promise.
  ghost predicate LegalChange(before: seq<TaskRun>, after: seq<TaskRun>, id: nat) {
    && 1 <= id <= |before| == |after|
    && Legal(before[id - 1], after[id - 1])
    && forall k :: 0 <= k < |before| && k != id - 1 ==> after[k] == before[k]
  }

  class TaskRuntimeState {
    var tasks: seq<TaskRun>
    var queue: seq<nat>
    var poolStarted: bool
    var stopping: bool
    var workerCount: nat
    var extraWorkers: nat
    var idleWorkers: int
    var blockedWorkers: int
    // How many worker threads have been started; the source keeps their handles.
    var workers: nat

    ghost function Value(): Pool
      reads this
    {
      Pool(tasks, queue, poolStarted, stopping, workerCount, extraWorkers, idleWorkers, blockedWorkers)
    }

    // Every worker that the counters promise has been started.
    ghost predicate Valid()
      reads this
    {
      workers == workerCount + extraWorkers && (!poolStarted ==> workers == 0)
    }

    ghost predicate Balanced()
      reads this
    {
      0 <= idleWorkers && 0 <= blockedWorkers && idleWorkers + blockedWorkers <= workers
    }

    // Queued work finds a worker that is not blocked.
    ghost predicate Served()
      reads this
    {
      poolStarted && !stopping && queue != [] ==> blockedWorkers < workers
    }

    constructor ()
      ensures Value() == NO_POOL && Valid()
    {
      tasks, queue, poolStarted, stopping := [], [], false, false;
      workerCount, extraWorkers, idleWorkers, blockedWorkers, workers := 0, 0, 0, 0, 0;
    }

    method StartWorker()
      modifies `workers
      ensures workers == old(workers) + 1
    {
      workers := workers + 1;
    }

    method EnsurePool(configured: nat)
      requires Valid()
      modifies `poolStarted, `workerCount, `workers
      ensures Valid() && Value() == TaskPool.EnsurePool(old(Value()), configured)
      ensures poolStarted && workerCount == if old(poolStarted) then old(workerCount) else configured
    {
      if poolStarted {
        return;
      }
      poolStarted := true;
      workerCount := configured;
      for i := 0 to configured
        invariant workers == old(workers) + i && poolStarted && workerCount == configured
      {
        StartWorker();
      }
    }

    method MaybeAddWorker()
      requires Valid()
      modifies `extraWorkers, `workers
      ensures Valid() && Value() == TaskPool.MaybeAddWorker(old(Value()))
      ensures extraWorkers > old(extraWorkers) <==>
                poolStarted && !stopping && queue != [] && idleWorkers <= 0 && old(blockedWorkers >= workerCount + extraWorkers)
      ensures old(Balanced()) ==> Balanced() && Served()
    {
      if !poolStarted || stopping || queue == [] {
        return;
      }
      if idleWorkers > 0 {
        return;
      }
      if blockedWorkers < workerCount + extraWorkers {
        return;
      }
      extraWorkers := extraWorkers + 1;
      StartWorker();
    }

    // The locked part of __uxb_rt_task_spawn; the new task's id is returned.
    method Spawn(configured: nat) returns (id: nat)
      requires Valid()
      modifies this
      ensures Valid() && Value() == SpawnTask(old(Value()), configured)
      ensures id == |old(tasks)| + 1 && tasks[..id - 1] == old(tasks) && queue == old(queue) + [id]
      ensures tasks[id - 1].state.Pending? && tasks[id - 1].errorText == "" && !tasks[id - 1].cancelRequested
      ensures old(Balanced()) ==> Balanced() && Served()
    {
      EnsurePool(configured);
      id := |tasks| + 1;
      tasks := tasks + [TaskRun(Pending, "", false, 0)];
      queue := queue + [id];
      MaybeAddWorker();
    }

    // The first section of run_task; `run` says whether the thunk is called.
    method BeginRun(id: nat) returns (run: bool)
      requires ValidTask(Value(), id)
      modifies `tasks
      ensures Value() == TaskPool.BeginRun(old(Value()), id)
      ensures run <==> !old(tasks[id - 1].cancelRequested)
      ensures tasks[id - 1].state == (if run then Running else Cancelled)
      ensures tasks[id - 1].errorText == if run then old(tasks[id - 1].errorText) else CANCELLED_TEXT
      ensures old(tasks[id - 1].state.Pending?) ==> LegalChange(old(tasks), tasks, id)
      ensures old(tasks[id - 1].state.Pending? && RecordOk(tasks[id - 1])) ==> RecordOk(tasks[id - 1])
    {
      var t := tasks[id - 1];
      if t.cancelRequested {
        t := t.(state := Cancelled, errorText := CANCELLED_TEXT);
        tasks := tasks[id - 1 := t];
        return false;
      }
      t := t.(state := Running, thunkRuns := t.thunkRuns + 1);
      tasks := tasks[id - 1 := t];
      return true;
    }

    // The last section of run_task; `failure` is the text of an exception that left the thunk.
    method FinishRun(id: nat, failure: string)
      requires ValidTask(Value(), id)
      modifies `tasks
      ensures Value() == TaskPool.FinishRun(old(Value()), id, failure)
      ensures old(tasks[id - 1].state.Running?) ==>
                && LegalChange(old(tasks), tasks, id) && IsFinished(tasks[id - 1].state)
                && tasks[id - 1].errorText == (if old(tasks[id - 1].errorText) != "" then old(tasks[id - 1].errorText) else failure)
                && (tasks[id - 1].state.Done? <==> old(tasks[id - 1].errorText) == "" && failure == "")
                && (tasks[id - 1].state.Cancelled? <==> tasks[id - 1].errorText == CANCELLED_TEXT)
      ensures old(tasks[id - 1].state.Running? && RecordOk(tasks[id - 1])) ==> RecordOk(tasks[id - 1])
    {
      var t := tasks[id - 1];
      if failure != "" && t.errorText == "" {
        t := t.(errorText := failure);
      }
      if t.errorText != "" && t.state == Running {
        t := t.(state := if t.errorText == CANCELLED_TEXT then Cancelled else Error);
      } else if t.state == Running {
        t := t.(state := Done);
      }
      tasks := tasks[id - 1 := t];
    }

    // __uxb_rt_task_cancel, for a valid handle.
    method Cancel(id: nat)
      requires ValidTask(Value(), id)
      modifies `tasks
      ensures Value() == RequestCancel(old(Value()), id)
      ensures LegalChange(old(tasks), tasks, id) && tasks[id - 1].state == old(tasks[id - 1].state)
      ensures !IsFinished(tasks[id - 1].state) ==> tasks[id - 1].cancelRequested
      ensures tasks[id - 1].errorText == old(tasks[id - 1].errorText)
    {
      if !IsFinished(tasks[id - 1].state) {
        tasks := tasks[id - 1 := tasks[id - 1].(cancelRequested := true)];
      }
    }

    // __uxb_rt_task_cancel_point inside task `id`; `stop` tells the task to return.
    method CancelPoint(id: nat) returns (stop: bool)
      requires ValidTask(Value(), id)
      modifies `tasks
      ensures Value() == TaskPool.CancelPoint(old(Value()), id)
      ensures stop == old(TaskAt(Value(), id).cancelRequested)
      ensures old(tasks[id - 1].state.Running?) ==> LegalChange(old(tasks), tasks, id)
      ensures stop ==> tasks[id - 1].errorText
                       == if old(tasks[id - 1].errorText) == "" then CANCELLED_TEXT else old(tasks[id - 1].errorText)
      ensures !stop ==> tasks == old(tasks)
    {
      var t := tasks[id - 1];
      if !t.cancelRequested {
        return false;
      }
      if t.errorText == "" {
        tasks := tasks[id - 1 := t.(errorText := CANCELLED_TEXT)];
      }
      return true;
    }

    // __uxb_rt_task_fail_cstr inside task `id`.
    method Fail(id: nat, text: string)
      requires ValidTask(Value(), id)
      modifies `tasks
      ensures Value() == RecordThrow(old(Value()), id, text)
      ensures old(tasks[id - 1].state.Running?) ==> LegalChange(old(tasks), tasks, id)
      ensures tasks[id - 1].errorText
              == if old(tasks[id - 1].errorText) == "" then THROW_PREFIX + text else old(tasks[id - 1].errorText)
    {
      var t := tasks[id - 1];
      if t.errorText == "" {
        tasks := tasks[id - 1 := t.(errorText := THROW_PREFIX + text)];
      }
    }

    // The body of worker_main's section once its wait is over (or need not begin).
    method TakeWork() returns (w: Work)
      modifies `queue
      ensures old(queue) != [] ==>
                w == Work(old(queue)[0]) && queue == old(queue)[1..] && Value() == PopFront(old(Value()))
      ensures old(queue) == [] ==> w == (if stopping then Exit else Sleep) && Value() == old(Value())
    {
      if queue == [] {
        return if stopping then Exit else Sleep;
      }
      w := Work(queue[0]);
      queue := queue[1..];
    }

    method BlockBegin(isWorker: bool)
      requires Valid()
      modifies this
      ensures Valid() && Value() == TaskPool.BlockBegin(old(Value()), isWorker)
      ensures old(Balanced()) && old(idleWorkers + blockedWorkers) + (if isWorker then 1 else 0) <= old(workers) ==>
                Balanced() && Served()
    {
      if isWorker {
        blockedWorkers := blockedWorkers + 1;
      }
      MaybeAddWorker();
    }

    method BlockEnd(isWorker: bool)
      modifies `blockedWorkers
      ensures Value() == TaskPool.BlockEnd(old(Value()), isWorker)
    {
      if isWorker {
        blockedWorkers := blockedWorkers - 1;
      }
    }

    // One round of wait_finished under the mutex: the wait is over, or a task to help with, or sleep.
    method WaitRound(handle: nat, mayHelp: bool, isWorker: bool) returns (w: Waited)
      requires Valid()
      modifies this
      ensures Valid()
      ensures w == Over <==> !old(ValidTask(Value(), handle)) || IsFinished(old(TaskAt(Value(), handle).state))
      ensures w == Over ==> Value() == old(Value())
      ensures w.Help? <==> w != Over && mayHelp && old(queue) != []
      ensures w.Help? ==> w.task == old(queue)[0] && queue == old(queue)[1..] && Value() == PopFront(old(Value()))
      ensures w == Asleep ==> Value() == TaskPool.BlockBegin(old(Value()), isWorker)
    {
      if !(1 <= handle <= |tasks|) || IsFinished(tasks[handle - 1].state) {
        return Over;
      }
      if mayHelp && queue != [] {
        w := Help(queue[0]);
        queue := queue[1..];
      } else {
        BlockBegin(isWorker);
        w := Asleep;
      }
    }

    // The snapshot section of __uxb_rt_task_shutdown: the ids to wait for.
    method Snapshot(normalExit: bool) returns (all: seq<nat>)
      modifies `tasks
      ensures poolStarted ==> Value() == MarkAll(old(Value()), normalExit)
      ensures !poolStarted ==> Value() == old(Value()) && all == []
      ensures normalExit ==> tasks == old(tasks)
      ensures poolStarted && !normalExit ==> |tasks| == |old(tasks)| && forall k :: 0 <= k < |tasks| ==>
                if IsFinished(old(tasks)[k].state) then tasks[k] == old(tasks)[k]
                else tasks[k] == old(tasks)[k].(cancelRequested := true)
      ensures poolStarted ==> |all| == |tasks| && forall k :: 0 <= k < |all| ==> all[k] == k + 1
    {
      all := [];
      if !poolStarted {
        return;
      }
      var k := 0;
      while k < |tasks|
        invariant 0 <= k <= |tasks| == |old(tasks)| && |all| == k
        invariant forall j :: 0 <= j < k ==> tasks[j] == Marked(old(tasks)[j], normalExit) && all[j] == j + 1
        invariant forall j :: k <= j < |tasks| ==> tasks[j] == old(tasks)[j]
      {
        if !normalExit && !IsFinished(tasks[k].state) {
          tasks := tasks[k := tasks[k].(cancelRequested := true)];
        }
        all := all + [k + 1];
        k := k + 1;
      }
      assert tasks == MarkAll(old(Value()), normalExit).tasks;
    }
  }
}
