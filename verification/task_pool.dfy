/**
 The shared state of the task pool in native/uxb_runtime/uxb_runtime_task_v2.cpp as a value, with one
 function per critical section of its mutex. A task id is its index in `tasks` plus one. `thunkRuns`
 counts the calls of the task's thunk; no section reads it.
 */
module TaskPool {

  datatype TaskState = Pending | Running | Done | Error | Cancelled

  datatype TaskRun = TaskRun(state: TaskState, errorText: string, cancelRequested: bool, thunkRuns: nat)

  datatype Pool = Pool(
    tasks: seq<TaskRun>,
    queue: seq<nat>,
    started: bool,
    stopping: bool,
    workerCount: nat,
    extraWorkers: nat,
    idleWorkers: int,
    blockedWorkers: int)

  const NO_POOL := Pool([], [], false, false, 0, 0, 0, 0)

  const CANCELLED_TEXT := "CANCELLED"
  const THROW_PREFIX := "native: uncaught THROW "
  const FAILURE_PREFIX := "native gorev ic hatasi"

  predicate IsFinished(state: TaskState) {
    state.Done? || state.Error? || state.Cancelled?
  }

  predicate ValidTask(p: Pool, id: nat) {
    1 <= id <= |p.tasks|
  }

  function TaskAt(p: Pool, id: nat): TaskRun
    requires ValidTask(p, id)
  {
    p.tasks[id - 1]
  }

  function SetTask(p: Pool, id: nat, task: TaskRun): Pool
    requires ValidTask(p, id)
  {
    p.(tasks := p.tasks[id - 1 := task])
  }

  function Workers(p: Pool): nat {
    p.workerCount + p.extraWorkers
  }

  // maybe_add_worker_locked: a compensation worker when work is queued and every worker is blocked.
  function MaybeAddWorker(p: Pool): Pool {
    if !p.started || p.stopping || p.queue == [] then p
    else if p.idleWorkers > 0 then p
    else if p.blockedWorkers < Workers(p) then p
    else p.(extraWorkers := p.extraWorkers + 1)
  }

  function EnsurePool(p: Pool, configured: nat): Pool {
    if p.started then p else p.(started := true, workerCount := configured)
  }

  function SpawnTask(p: Pool, configured: nat): Pool {
    var q := EnsurePool(p, configured);
    MaybeAddWorker(q.(tasks := q.tasks + [TaskRun(Pending, "", false, 0)], queue := q.queue + [|q.tasks| + 1]))
  }

  // The first section of run_task; the thunk is called exactly when the task is RUNNING afterwards.
  function BeginRun(p: Pool, id: nat): Pool
    requires ValidTask(p, id)
  {
    var t := TaskAt(p, id);
    if t.cancelRequested then SetTask(p, id, t.(state := Cancelled, errorText := CANCELLED_TEXT))
    else SetTask(p, id, t.(state := Running, thunkRuns := t.thunkRuns + 1))
  }

  // The last section of run_task.
  function FinishRun(p: Pool, id: nat, failure: string): Pool
    requires ValidTask(p, id)
  {
    var t := TaskAt(p, id);
    var text := if failure != "" && t.errorText == "" then failure else t.errorText;
    var state := if t.state != Running then t.state
                 else if text == "" then Done
                 else if text == CANCELLED_TEXT then Cancelled
                 else Error;
    SetTask(p, id, t.(state := state, errorText := text))
  }

  function RequestCancel(p: Pool, id: nat): Pool
    requires ValidTask(p, id)
  {
    var t := TaskAt(p, id);
    if IsFinished(t.state) then p else SetTask(p, id, t.(cancelRequested := true))
  }

  function CancelPoint(p: Pool, id: nat): Pool
    requires ValidTask(p, id)
  {
    var t := TaskAt(p, id);
    if t.cancelRequested && t.errorText == "" then SetTask(p, id, t.(errorText := CANCELLED_TEXT)) else p
  }

  function RecordThrow(p: Pool, id: nat, text: string): Pool
    requires ValidTask(p, id)
  {
    var t := TaskAt(p, id);
    if t.errorText == "" then SetTask(p, id, t.(errorText := THROW_PREFIX + text)) else p
  }

  function Marked(t: TaskRun, normalExit: bool): TaskRun {
    if !normalExit && !IsFinished(t.state) then t.(cancelRequested := true) else t
  }

  // The snapshot section of task_shutdown.
  function MarkAll(p: Pool, normalExit: bool): Pool {
    p.(tasks := seq(|p.tasks|, i requires 0 <= i < |p.tasks| => Marked(p.tasks[i], normalExit)))
  }

  function PopFront(p: Pool): Pool
    requires p.queue != []
  {
    p.(queue := p.queue[1..])
  }

  function BlockBegin(p: Pool, isWorker: bool): Pool {
    MaybeAddWorker(if isWorker then p.(blockedWorkers := p.blockedWorkers + 1) else p)
  }

  function BlockEnd(p: Pool, isWorker: bool): Pool {
    if isWorker then p.(blockedWorkers := p.blockedWorkers - 1) else p
  }
}
