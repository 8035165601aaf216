# A verified model of the native runtime and its extension libraries

This project models the concurrency runtime of compiled programs and the stateful parts of five
extension libraries, and proves what they promise. `dafny verify dfyconfig.toml` checks all of it.

## The concurrency runtime

`native/uxb_runtime/uxb_runtime_sync.cpp` is a lock manager whose locks belong to tasks;
`native/uxb_runtime/uxb_runtime_task_v2.cpp` is a worker pool whose waiters help by running queued tasks
on their own stack. Together they are one protocol over any number of threads, tasks and locks.

- `lock_table`, `task_pool`: both sides as values, one function for each section under a mutex.
- `runtime`: the state machine. Each mutex-protected section is one step of one thread; compiled code may
  make any call at any time; a condition variable may wake spuriously. Where the source enters a task-mutex
  section from inside a lock-mutex section (`task_pool_block_begin/end` inside `wait_free_locked`) the model
  has two steps, so it has more interleavings than the source. `FAILURE_PREFIX` is what every message of an
  exception that escapes a thunk begins with.
- `lock_accounting`, `wait_graph`: what the sections of the lock table keep; the cycle detector.
- `lock_frames`, `sync_enters`: a step changes the locks of its own task only; SYNC_ENTER, from its call through
  all waits and new attempts to its return, is one indivisible step for its caller.
- `invariants`, `lock_steps`, `pool_steps`, `task_steps`, `user_steps`, `acyclic_steps`: every step keeps the
  invariant. A step touches one thread; a frame lemma carries all other threads over.
- `runs`, `histories`: theorems over whole runs.
- `outcomes`: how a task ends and why, from the call that causes it to the final record: exceptions, THROW,
  TASK.CANCEL, both ends of the program, the order of the queue.
- `waits`, `lock_scopes`, `helping`, `wake_ups`, `program_end`: over whole runs, what a wait and its return mean,
  what UNLOCK and the unwinding to a mark give back, when a waiting task takes over another one, why a sleeping
  thread is woken, and what each stage of the shutdown does.
- `progress`, `handover`: some thread can always go on, and the runtime's own sections end.
- `deadlock`, `verdict`: a reported cycle is real. The run is continued as if nothing had been reported, and
  the tasks of the cycle are shown never to run again. The program is stopped exactly at such a cycle.
- `missed_deadlock`: a run whose deadlock the detector has looked at and not reported, and when there is none.
- `mutual_exclusion`: programs whose SYNC_ENTER and SYNC_LEAVE match.
- `lock_manager`, `task_manager`: the two records of the source as classes, whose methods work in place with
  the source's loops and are proved to do what the functions of `lock_table` and `task_pool` say.

The invariant holds in every run, without any premise (`RunsKeepInv`), and with it what it says of tasks,
records, stacks, workers and locks, and everything in `histories`, `outcomes`, `waits`, `lock_scopes`, `helping`,
`wake_ups`, `program_end`, `sync_enters` and `generator_owners`. Only what needs an acyclic wait graph
has a premise on cycles: `RunsAreSafe`, and with it progress, handover and the verdict of the detector. The
premise is that no task ever comes to be on a cycle of more than 1,000,000 waiting
tasks, the step cap of the detector. It holds with fewer than 1,000,000 tasks (`SmallRunsAreSafe`), and with any
number of tasks as long as the number of threads times the tasks on the highest stack is at most 1,000,000
(`ShallowRunsAreSafe`). It cannot be dropped: `missed_deadlock` constructs a run that ends in such a cycle,
undiagnosed, with 1024 workers, which is the most that the source lets one configure, and at most 977 tasks on
any stack.

## The random numbers, the text store and the console

- `rng`: SplitMix64 seeding and xoshiro256** on 64-bit vectors, with inverses of both scramblers and known
  answers. `random_runs`: what the random calls mean for a task's generator and that of a task it spawns; a task
  is known by its spawn path, and what it draws does not depend on the schedule. `generator_owners`: the
  thread-local pointer through which the source finds a generator names the running task in every run of the
  runtime, nested helpers included, and every such run is one of `random_runs`.
- `owned_text`: slots, heap copies, the registry of owners and the ring of 32 temporary texts.
- `console`: line buffers per task, over every interleaving of writes, flushes and ends of tasks.

## The libraries

- `graph_walks`, `graph`: breadth-first search on an edge list against the definition by walks.
- `descriptors`, `type_api`: reference-counted type descriptors, who holds them, and the cascade of a release.
- `generations`, `ffi_handles`: the pointer-handle table. `js_tree`, `js_host`: runtimes, contexts and results.
- `collections`, `collection_objects`: a hash table with an order list, key and value vectors, and a deque.

## Where the code does something other than it seems to promise

- `uxgraph_shortest_distance` answers 0, not -1, for a negative target and a valid source, because the
  negative number is the internal mark for "no target"; so `uxgraph_path_exists` says yes for it. Exactly
  these inputs fail (`ShortestDistance`, `PathExists`).
- The cycle detector gives up after 1,000,000 steps. Its verdict on a new edge is right if and only if the
  edge closes no cycle or one of at most 1,000,000 tasks, in a graph of any size (`DetectorIsRightIff`), and
  a longer cycle is reached by a run, also within the limits on workers (`DeadlockWithinTheLimits`).
- `uxc_set_pop` copies the first member into a buffer of 4096 bytes and removes what is in the buffer. It
  removes the first member exactly when that has at most 4095 bytes (`SetPopRemovesFirstIff`).
- `uxcapi_call_set_return_struct` releases the old return type before it retains the new one, and goes on
  with freed memory exactly when nobody but the call's old return type reaches the new one
  (`SetReturnStruct`). Two ways to get there: the same type again after its creator has freed it
  (`SameTypeAgain`), and a type that only the old return type nests (`NestedInOldType`).
- The GLib collections take keys and texts as C strings, the native ones take the whole text. One operation
  means the same to both if and only if its key and text have no zero byte, or it removes a key of whose part
  before the zero byte nothing is stored (`StepMeaningIff`); `ZeroByteKeysCollide` is an input that fails.
- A released FFI token is a valid token again when its slot has been handed out a multiple of 16383 times,
  a JavaScript handle after a multiple of 32767 uses (`StaleTokenIsRejected`, `StaleHandleIsRejected`).

## Model

| member | source | states |
|---|---|---|
| Runs.RunsKeepInv | native/uxb_runtime/uxb_runtime_task_v2.cpp:218-356 | every state of every run satisfies the invariant, or the program has just been stopped with a diagnosis |
| Runs.RunsAreSafe | native/uxb_runtime/uxb_runtime_sync.cpp:140-150 | the wait graph is acyclic in every such state as well, as long as no cycle of more than 1,000,000 tasks arises |
| Runs.SmallRunsAreSafe | native/uxb_runtime/uxb_runtime_task_v2.cpp:375-415 | the same without a premise on cycles, for runs with fewer than 1,000,000 tasks |
| MissedDeadlock.ShallowRunsAreSafe | native/uxb_runtime/uxb_runtime_task_v2.cpp:328-356 | the same for any number of tasks, as long as threads times tasks on the highest stack are at most 1,000,000 |
| Runs.EdgesAtMostTasks | native/uxb_runtime/uxb_runtime_sync.cpp:41-54 | only the main program and running tasks have wait edges |
| Runs.TasksAreExactlyOnce | native/uxb_runtime/uxb_runtime_task_v2.cpp:218-283 | in every run: PENDING is queued or claimed but not both, RUNNING is on a stack, finished is nowhere; one queue entry, one claim, one frame at most |
| Runs.RecordsAreConsistent | native/uxb_runtime/uxb_runtime_task_v2.cpp:247-262 | in every run: the thunk runs at most once, DONE has no error text, a finished task is CANCELLED exactly if its error text is "CANCELLED" |
| Runs.SuspendedTasksOwnNothing | native/uxb_runtime/uxb_runtime_task_v2.cpp:328-356 | in every run: a task suspended below another one on a stack owns no lock and waits for the task above it |
| Runs.WorkersSuffice | native/uxb_runtime/uxb_runtime_task_v2.cpp:304-321 | in every run: idle and blocked workers never exceed the started ones, and queued work leaves a worker that is not blocked |
| UserSteps.EventKeepsInv | native/uxb_runtime/uxb_runtime_task_v2.cpp:218-356 | every step of every thread and every spurious wake-up keeps the invariant or ends with a diagnosis |
| AcyclicSteps.EventKeepsAcyclic | native/uxb_runtime/uxb_runtime_sync.cpp:140-150 | every event keeps the wait graph acyclic, ends the program, or closes a cycle of more than 1,000,000 tasks |
| Invariants.ThreadsKeepOk | native/uxb_runtime/uxb_runtime_task_v2.cpp:328-356 | a step that respects its frame leaves every other thread in order |
| PoolSteps.HoldsAnyIsExact | native/uxb_runtime/uxb_runtime_sync.cpp:273-276 | sync_holds_any answers exactly whether the task owns a lock |
| PoolSteps.MaybeAddHelps | native/uxb_runtime/uxb_runtime_task_v2.cpp:315-321 | after it queued work finds a worker that is not blocked |
| TaskSteps.BeginKeepsInv | native/uxb_runtime/uxb_runtime_task_v2.cpp:218-232 | the beginning of run_task, cancelled or not, keeps the invariant |
| TaskSteps.FinishKeepsInv | native/uxb_runtime/uxb_runtime_task_v2.cpp:239-262 | so does its end, also when it returns to a helper |
| LockSteps.EnterKeepsInv | native/uxb_runtime/uxb_runtime_sync.cpp:202-232 | so does a round of SYNC_ENTER |
| Histories.RunsAreLegal | native/uxb_runtime/uxb_runtime_task_v2.cpp:218-262 | in every step of every run each task record changes only along PENDING, RUNNING, finished, and its request to stop is never taken back |
| Histories.FinishedForever | native/uxb_runtime/uxb_runtime_task_v2.cpp:218-262 | in every run a finished task's record never changes again |
| Histories.CancelledBeforeStartNeverRuns | native/uxb_runtime/uxb_runtime_task_v2.cpp:219-227 | a task asked to stop while PENDING never calls its thunk and can only end CANCELLED |
| Histories.FirstErrorTextWins | native/uxb_runtime/uxb_runtime_task_v2.cpp:417-435 | the first error text of a running task is its final one |
| Histories.AbnormalEndStartsNothing | native/uxb_runtime/uxb_runtime_task_v2.cpp:592-605 | after an abnormal end no task that was still PENDING ever runs |
| Histories.StopsAfterAllHaveFinished | native/uxb_runtime/uxb_runtime_task_v2.cpp:592-636 | workers are told to stop only when every task of the shutdown's snapshot has finished |
| Outcomes.EveryCallIsOpen | native/uxb_runtime/uxb_runtime_task_v2.cpp:230-246 | until the main program has ended, a thread in compiled code may make every call of the interface: the theorems below are about all of them |
| Outcomes.EscapedExceptionFails | native/uxb_runtime/uxb_runtime_task_v2.cpp:239-262 | in every run, after a thunk has returned or thrown its task is on the way out or has ended with its first error text, else that of the exception; it is DONE exactly if there is neither |
| Outcomes.UncaughtThrowFails | native/uxb_runtime/uxb_runtime_task_v2.cpp:417-421 | after a THROW that a task does not catch its error text is that of the THROW unless it had one, for the rest of the run, and it does not end DONE |
| Outcomes.CancelBeforeStartTakesEffect | native/uxb_runtime/uxb_runtime_task_v2.cpp:532-537 | after TASK.CANCEL of a PENDING task its thunk is never called and it is PENDING or CANCELLED, for the rest of the run |
| Outcomes.CancelTakesEffectAtCheck | native/uxb_runtime/uxb_runtime_task_v2.cpp:497-503 | after TASK.CANCEL of an unfinished task its next cancellation point, if it has no error text there, makes CANCELLED its text and its only possible end |
| Outcomes.OnlyAskedAreCancelled | native/uxb_runtime/uxb_runtime_task_v2.cpp:592-605 | a task is asked to stop or CANCELLED only after somebody has cancelled it or the program has ended abnormally |
| Outcomes.RunsAreHonest | native/uxb_runtime/uxb_runtime_task_v2.cpp:239-262 | in every run only a task that was asked to stop has the text CANCELLED; the texts of exceptions are other ones |
| Outcomes.NormalSnapshotKeepsTasks | native/uxb_runtime/uxb_runtime_task_v2.cpp:598-605 | the step that takes the snapshot of a normal end changes no record |
| Outcomes.NormalEndRunsAll | native/uxb_runtime/uxb_runtime_task_v2.cpp:592-636 | when a program that ended normally tells its workers to stop, every task of the snapshot that nobody has cancelled has run its thunk once and is DONE or in ERROR |
| Outcomes.OldestIsTakenFirst | native/uxb_runtime/uxb_runtime_task_v2.cpp:405-414 | in every run the queue is in the order of the spawns, so the oldest task that nobody has taken is taken first |
| Outcomes.StoppedWorkersLeave | native/uxb_runtime/uxb_runtime_task_v2.cpp:265-283 | after the end a worker that looks for work and finds none is awake and leaves |
| ProgramEnd.UncaughtThrowInMainIsFatal | native/uxb_runtime/uxb_runtime_task_v2.cpp:417-418 | a THROW that the main program does not catch ends the program |
| ProgramEnd.AbnormalEndCancels | native/uxb_runtime/uxb_runtime_task_v2.cpp:592-605 | in every run that shuts down abnormally every task that is unfinished at the snapshot is asked to stop for good, and what was PENDING never runs |
| ProgramEnd.NormalEndCancelsNobody | native/uxb_runtime/uxb_runtime_task_v2.cpp:598-605 | in every run that shuts down normally the snapshot changes no record |
| ProgramEnd.NoPoolEndsAtOnce | native/uxb_runtime/uxb_runtime_task_v2.cpp:599 | a program that has spawned nothing ends at once |
| ProgramEnd.StopWaitsForAll | native/uxb_runtime/uxb_runtime_task_v2.cpp:605-619 | when the workers are told to stop, every task that existed at the snapshot has finished; they stay told |
| ProgramEnd.ShutdownWaitsInOrder | native/uxb_runtime/uxb_runtime_task_v2.cpp:605 | in every run the shutdown waits for the tasks of its snapshot one after the other, in the order of their ids, also while it helps |
| ProgramEnd.EachWaitCounts | native/uxb_runtime/uxb_runtime_task_v2.cpp:605 | each of these waits that is over brings it one task further |
| ProgramEnd.ShutdownGoesOn | native/uxb_runtime/uxb_runtime_task_v2.cpp:605-619 | and then the main program can wait for the next one, or stop exactly when there is none |
| ProgramEnd.MainOwnsNothingAtTheEnd | native/uxb_runtime/uxb_runtime_task_v2.cpp:592-596 | once the shutdown has begun the main program owns no lock and has no open LOCK, for the rest of the run |
| Waits.WaitReturnsAfterFinish | native/uxb_runtime/uxb_runtime_task_v2.cpp:328-356 | in every run a wait returns to the task that called it, on the stack as it was, and only after the awaited task has finished; until then the frame waits for that task, whatever the thread runs on top of it |
| Helping.OwnersNeverHelp | native/uxb_runtime/uxb_runtime_task_v2.cpp:331-332 | a waiting task that owns a lock does not help; exactly one that owns none looks further |
| Helping.OpenLocksForbidHelp | native/uxb_runtime/uxb_runtime_task_v2.cpp:332 | and it may help exactly if no task has an open LOCK |
| Helping.HelpersTakeTheOldest | native/uxb_runtime/uxb_runtime_task_v2.cpp:334-347 | the wait is over exactly when its task has finished; until then whoever may help takes the oldest task of the queue, if there is one, and all others sleep |
| Helping.WokenWaitersLookAgain | native/uxb_runtime/uxb_runtime_task_v2.cpp:331-347 | a waiter that is woken looks at everything again, locks included |
| Helping.LockWaitersWaitForOwners | native/uxb_runtime/uxb_runtime_sync.cpp:140-150 | a thread in a lock's condition variable goes on exactly when no other task owns the lock |
| WakeUps.WakeUpsHaveReasons | native/uxb_runtime/uxb_runtime_sync.cpp:152-169 | in every run a step wakes a thread only if its lock has become free, a task has just finished, or it is the one worker woken by a SPAWN or all are told to stop |
| LockScopes.UnlockEndsLastLock | native/uxb_runtime/uxb_runtime_sync.cpp:190-198 | in every run UNLOCK gives back the locks of the last open LOCK, one level each, and nothing else, and never ends the program |
| LockScopes.ReleaseToEndsLaterLocks | native/uxb_runtime/uxb_runtime_sync.cpp:254-262 | in every run leaving a routine gives back the locks of every LOCK since its mark and of no earlier one |
| LockScopes.OnlyRunningTasksOwn | native/uxb_runtime/uxb_runtime_task_v2.cpp:243-244 | in every run a task that has not begun or has finished owns no lock |
| Progress.SomeoneAlwaysCanMove | native/uxb_runtime/uxb_runtime_task_v2.cpp:265-356 | until the main program has ended, some thread that is not asleep for good can go on |
| Progress.RunsMakeProgress | native/uxb_runtime/uxb_runtime_task_v2.cpp:265-356 | in every reachable state with an unfinished task some thread has an enabled step that takes it to another place |
| Progress.MoverSteps | native/uxb_runtime/uxb_runtime_task_v2.cpp:265-356 | a thread that can go on has such a step |
| Handover.RunLess | native/uxb_runtime/uxb_runtime_task_v2.cpp:328-356 | every section that the runtime executes on its own account lowers a well-founded measure |
| Handover.ScheduleHandsOver | native/uxb_runtime/uxb_runtime_task_v2.cpp:328-356 | under any schedule of these sections and any finite number of spurious wake-ups, after finitely many steps none is enabled and some thread is in compiled code, or the program is stopped, as long as no cycle of more than 1,000,000 tasks arises (fewer than 1,000,000 tasks are enough) |
| WaitGraph.DetectorSeesNear | native/uxb_runtime/uxb_runtime_sync.cpp:89-106 | cycle_locked answers yes exactly when the waiter is fewer than 1,000,000 steps away, in any graph |
| WaitGraph.DetectorVerdict | native/uxb_runtime/uxb_runtime_sync.cpp:89-106 | a new edge in an acyclic graph of any size: never a false report, and a cycle of n tasks is reported exactly when n is at most 1,000,000 |
| WaitGraph.DetectorIsRightIff | native/uxb_runtime/uxb_runtime_sync.cpp:89-106 | the verdict is right if and only if the edge closes no cycle or one of at most 1,000,000 tasks |
| WaitGraph.FewEdgesAreShort | native/uxb_runtime/uxb_runtime_sync.cpp:89-106 | a cycle has no more tasks than there are edges |
| WaitGraph.DetectorIsExact | native/uxb_runtime/uxb_runtime_sync.cpp:89-106 | with at most 1,000,000 edges it reports exactly the edges that close a cycle, and an accepted edge leaves the graph acyclic |
| WaitGraph.AcyclicIffNoCycle | native/uxb_runtime/uxb_runtime_sync.cpp:89-106 | every walk comes to an end if and only if no task reaches itself |
| WaitGraph.LongerRingIsMissed | native/uxb_runtime/uxb_runtime_sync.cpp:89-106 | the bound is sharp: a table with a ring of 1,000,001 tasks is not reported |
| MissedDeadlock.LongDeadlockIsReached | native/uxb_runtime/uxb_runtime_task_v2.cpp:328-356 | for every n above 1,000,000 that is at most workers times depth, some run with that many workers and never more than depth tasks on a stack reaches a deadlock of n tasks in which the program has not been stopped |
| MissedDeadlock.DeadlockWithinTheLimits | native/uxb_runtime/uxb_runtime_task_v2.cpp:205-212 | so it is with the 1024 workers that can be configured and stacks of at most 977 tasks |
| MissedDeadlock.LongDeadlockIsReal | native/uxb_runtime/uxb_runtime_sync.cpp:283-288 | the tasks of such a ring only wait for each other, for ever |
| Deadlock.CycleIsTrap | native/uxb_runtime/uxb_runtime_sync.cpp:140-150 | the tasks of a cycle wait only for each other |
| Deadlock.EventKeepsTrapped | native/uxb_runtime/uxb_runtime_sync.cpp:140-150 | nothing that any thread does frees a task from such a set |
| Deadlock.TrappedTasksAreStopped | native/uxb_runtime/uxb_runtime_sync.cpp:140-150 | no task of such a set has finished or is in compiled code |
| Verdict.DiagnosisStops | native/uxb_runtime/uxb_runtime_sync.cpp:283-288 | a step that asks the detector ends the program exactly if the detector says yes, and otherwise goes on as if it had not been asked |
| Verdict.StoppedIffDeadlock | native/uxb_runtime/uxb_runtime_sync.cpp:89-106 | such a step ends the program if and only if its new edge closes a cycle of at most 1,000,000 tasks; with at most 1,000,000 edges, or fewer tasks than that, if and only if there is a deadlock |
| Verdict.DiagnosisIsReal | native/uxb_runtime/uxb_runtime_sync.cpp:283-288 | had the program gone on, the reporting task would belong to a set of tasks that only wait for each other |
| Verdict.TrappedForever | native/uxb_runtime/uxb_runtime_sync.cpp:140-150 | and would never leave it in any continuation of the run |
| MutualExclusion.EnterKeepsAuto | native/uxb_runtime/uxb_runtime_sync.cpp:202-232 | a successful SYNC_ENTER opens exactly one region in the depths of its locks |
| MutualExclusion.LeaveKeepsAuto | native/uxb_runtime/uxb_runtime_sync.cpp:234-245 | a matching SYNC_LEAVE never reports an internal error and closes exactly that region |
| MutualExclusion.MatchedRunsAreOk | native/uxb_runtime/uxb_runtime_sync.cpp:202-245 | in matched runs the depth of a lock is the number of open regions that contain it |
| MutualExclusion.TasksExcludeEachOther | native/uxb_runtime/uxb_runtime_sync.cpp:202-245 | two tasks are never both inside regions that share a lock |
| LockAccounting.OrderedIsSortedAndComplete | native/uxb_runtime/uxb_runtime_sync.cpp:172-188 | the locks of a statement are taken in increasing order, each once, none left out |
| LockAccounting.EnterTakesAllOrNone | native/uxb_runtime/uxb_runtime_sync.cpp:202-232 | SYNC_ENTER succeeds at once exactly if each lock can be taken; then each is one level deeper and no other lock has changed |
| LockAccounting.BlockedEnterIsNoOp | native/uxb_runtime/uxb_runtime_sync.cpp:208-223 | a failed attempt leaves every owner, depth, held count, stack and edge as it was, and the task waits for a lock of another task |
| LockFrames.StepKeepsOthers | native/uxb_runtime/uxb_runtime_sync.cpp:117-169 | a step of any thread changes no record of a lock that another task owns, gives no other task a lock, and leaves the LOCK entries of all other tasks alone |
| SyncEnters.WaitingChangesNothing | native/uxb_runtime/uxb_runtime_sync.cpp:202-232 | in every run, from the call of SYNC_ENTER through all its waits and attempts, the task's owners, depths, held count and LOCK entries are those at the call |
| SyncEnters.WaitingEmptyHanded | native/uxb_runtime/uxb_runtime_sync.cpp:202-232 | a task that enters holding nothing waits holding nothing |
| SyncEnters.EnteringIsAtomic | native/uxb_runtime/uxb_runtime_sync.cpp:202-232 | when the call returns, after any number of waits, each lock asked for is one level deeper than at the call and all others are held as they were |
| LockAccounting.EnterIsNeverInternalError | native/uxb_runtime/uxb_runtime_sync.cpp:152-169 | giving back what was taken never reports an internal error |
| LockAccounting.EnterKeepsOk | native/uxb_runtime/uxb_runtime_sync.cpp:117-136 | the accounting of owners, depths, counts and stacks holds after SYNC_ENTER, and LOCK pushes one entry |
| LockAccounting.LeaveKeepsOk | native/uxb_runtime/uxb_runtime_sync.cpp:234-245 | and after SYNC_LEAVE |
| LockAccounting.PopKeepsOk | native/uxb_runtime/uxb_runtime_sync.cpp:190-198 | popping a LOCK entry is never an internal error and keeps the accounting |
| LockAccounting.PopToKeepsOk | native/uxb_runtime/uxb_runtime_sync.cpp:254-262 | lock_release_to keeps the accounting and cuts the task's own stack to its mark |
| LockAccounting.ReleaseAllReleasesAll | native/uxb_runtime/uxb_runtime_sync.cpp:295-308 | sync_release_all ends and leaves the task without locks, entries, count and edge, touching no other task's locks |
| LockManager.SyncState.TryAcquire | native/uxb_runtime/uxb_runtime_sync.cpp:117-136 | in place: taken, in use, or taken twice, with the new owner, depth and held count |
| LockManager.SyncState.ReleaseOne | native/uxb_runtime/uxb_runtime_sync.cpp:152-169 | in place: release_locked |
| LockManager.SyncState.EnterRound | native/uxb_runtime/uxb_runtime_sync.cpp:202-232 | in place: one round of SYNC_ENTER with its acquiring and undoing loops |
| LockManager.SyncState.PopExplicitEntry | native/uxb_runtime/uxb_runtime_sync.cpp:190-198 | in place: the last entry's locks are released and an empty stack is erased |
| LockManager.SyncState.Leave | native/uxb_runtime/uxb_runtime_sync.cpp:234-245 | in place: both modes of SYNC_LEAVE |
| LockManager.SyncState.ReleaseTo | native/uxb_runtime/uxb_runtime_sync.cpp:254-262 | in place: pops until the mark |
| LockManager.SyncState.ReleaseEverything | native/uxb_runtime/uxb_runtime_sync.cpp:295-308 | in place: sync_release_all |
| LockManager.SyncState.CycleLocked | native/uxb_runtime/uxb_runtime_sync.cpp:89-106 | the counted walk gives the specified verdict and the first lock on the way |
| LockManager.SyncState.BeginWait | native/uxb_runtime/uxb_runtime_sync.cpp:140-150 | wait_free_locked up to its wait: nothing to wait for, or the edge is written and checked |
| LockManager.SyncState.NoteWaitTask | native/uxb_runtime/uxb_runtime_sync.cpp:283-288 | the edge to a task is written and checked |
| LockManager.SyncState.NewMutex | native/uxb_runtime/uxb_runtime_sync.cpp:265-269 | a new id, greater than all before |
| LockManager.FirstLockIsFirst | native/uxb_runtime/uxb_runtime_sync.cpp:89-106 | the lock named in the diagnosis is the first one on the walk, and none is named exactly if only tasks wait for tasks |
| TaskManager.TaskRuntimeState.Spawn | native/uxb_runtime/uxb_runtime_task_v2.cpp:405-414 | in place: the new record, the queue and the workers after a spawn |
| TaskManager.TaskRuntimeState.MaybeAddWorker | native/uxb_runtime/uxb_runtime_task_v2.cpp:315-321 | in place: one more worker exactly when work is queued and all are blocked; afterwards queued work finds a worker that is not blocked |
| TaskManager.TaskRuntimeState.TakeWork | native/uxb_runtime/uxb_runtime_task_v2.cpp:272-281 | in place: the front of the queue, sleep, or the end of the worker |
| TaskManager.TaskRuntimeState.BeginRun | native/uxb_runtime/uxb_runtime_task_v2.cpp:219-228 | in place: CANCELLED without a run exactly if asked to stop, or RUNNING; a legal change of this record only |
| TaskManager.TaskRuntimeState.FinishRun | native/uxb_runtime/uxb_runtime_task_v2.cpp:247-262 | in place: a running task keeps its first error text, or gets that of the exception that has left its thunk; it ends DONE exactly if there is neither, and CANCELLED exactly with the text CANCELLED |
| TaskManager.TaskRuntimeState.Cancel | native/uxb_runtime/uxb_runtime_task_v2.cpp:532-537 | in place: a task that is not finished is asked to stop and otherwise unchanged, a finished one stays as it is |
| TaskManager.TaskRuntimeState.CancelPoint | native/uxb_runtime/uxb_runtime_task_v2.cpp:497-503 | in place: exactly a requested task is told to stop; its error text is then CANCELLED unless it has one |
| TaskManager.TaskRuntimeState.Fail | native/uxb_runtime/uxb_runtime_task_v2.cpp:417-421 | in place: the text of a THROW that a task does not catch, unless the task has a text already |
| TaskManager.TaskRuntimeState.WaitRound | native/uxb_runtime/uxb_runtime_task_v2.cpp:328-356 | in place: the wait is over, or there is a task to help with, or the thread sleeps |
| TaskManager.TaskRuntimeState.Snapshot | native/uxb_runtime/uxb_runtime_task_v2.cpp:592-605 | in place: all tasks are listed; a normal end changes no record, an abnormal one asks every unfinished task to stop |
| RandomRuns.ScheduleIsIrrelevant | native/uxb_runtime/uxb_runtime_task_v2.cpp:151-155 | with any generator, two interleavings of the same operations of each task give each task the same draws |
| RandomRuns.RandomnessIgnoresTheSchedule | native/uxb_runtime/uxb_runtime_task_v2.cpp:477-495 | so it is for this generator and its default seed |
| RandomRuns.SeedChild | native/uxb_runtime/uxb_runtime_task_v2.cpp:405 | in place, over the two generator objects: SPAWN draws one word of the parent and seeds the child with it |
| RandomRuns.SpawnIsADiscardedDraw | native/uxb_runtime/uxb_runtime_task_v2.cpp:405 | SPAWN moves the parent's stream exactly as far as one RND and leaves the value that RND(0) repeats |
| RandomRuns.SpawnedTellsItsWord | native/uxb_runtime/uxb_runtime_task_v2.cpp:405 | the child's generator tells the word it was seeded with and the parent's state word it came from, so different words make different children |
| RandomRuns.LastRepeatsLatest | native/uxb_runtime/uxb_runtime_task_v2.cpp:477-485 | RND(0) answers the latest number drawn and moves nothing, however many RND(0) and SPAWN lie between |
| RandomRuns.LastStartsAtZero | native/uxb_runtime/uxb_runtime_task_v2.cpp:58-65 | and 0 before the first number after seeding |
| RandomRuns.RandomizeForgets | native/uxb_runtime/uxb_runtime_task_v2.cpp:487-495 | after RANDOMIZE a task computes what it would compute from the seed alone |
| RandomRuns.SeededDrawIsRandomizeAndDraw | native/uxb_runtime/uxb_runtime_task_v2.cpp:480-484 | RND of a negative argument is RANDOMIZE followed by RND |
| GeneratorOwners.RunsAreTied | native/uxb_runtime/uxb_runtime_task_v2.cpp:230-246 | in every run the thread-local pointers and the saved ones mirror the stacks of nested tasks |
| GeneratorOwners.PointerIsCurrentTask | native/uxb_runtime/uxb_runtime_task_v2.cpp:151-155 | a thread in compiled code uses the generator of the task on top of its stack |
| GeneratorOwners.GeneratorHasOneUser | native/uxb_runtime/uxb_runtime_task_v2.cpp:152-155 | no two threads in compiled code use the same generator |
| GeneratorOwners.NothingIsMissing | native/uxb_runtime/uxb_runtime_task_v2.cpp:151-155 | whatever can happen next in a run finds its generator and the pointer saved for it |
| GeneratorOwners.RunsAreProjected | native/uxb_runtime/uxb_runtime_task_v2.cpp:477-495 | every run of the runtime is a run of RandomRuns: each use of a generator is an event of the task whose code runs |
| GeneratorOwners.ThreadsDoNotMatter | native/uxb_runtime/uxb_runtime_task_v2.cpp:405 | two runs with the same calls per spawn path have the same tasks, and each has drawn the same values, whatever threads and nesting |
| GeneratorOwners.SourceGeneratorIsOk | native/uxb_runtime/uxb_runtime_task_v2.cpp:405 | what the theorems on threads and schedules ask of a generator: the source's calls make one for a new task exactly when they spawn it; which one is said by the rows of RandomRuns |
| GeneratorOwners.RandomnessIgnoresTheThreads | native/uxb_runtime/uxb_runtime_task_v2.cpp:477-495 | so it is for this generator and its default seed |
| Rng.MixIsBijective | native/uxb_runtime/uxb_runtime_task_v2.cpp:47-57 | the SplitMix64 finalizer and its inverse undo each other on all 64-bit words |
| Rng.SeedIsNeverZero | native/uxb_runtime/uxb_runtime_task_v2.cpp:58-65 | seeding never gives the all-zero state |
| Rng.SeedingIsInjective | native/uxb_runtime/uxb_runtime_task_v2.cpp:58-65 | different seeds give different states |
| Rng.AdvanceIsInjective | native/uxb_runtime/uxb_runtime_task_v2.cpp:66-76 | the transition of xoshiro256** is injective |
| Rng.SeededNeverReachesZero | native/uxb_runtime/uxb_runtime_task_v2.cpp:58-76 | no state that a seeded generator reaches is zero |
| Rng.RandomIsUnitFraction | native/uxb_runtime/uxb_runtime_task_v2.cpp:77-80 | a random number is k / 2^53 where k are the 53 leading bits of the word, 2048 k <= word < 2048 (k + 1); so it is at least 0 and below 1 |
| Rng.LeadingBitsAreOne | native/uxb_runtime/uxb_runtime_task_v2.cpp:77-80 | a word has only one such k |
| Rng.StarredIsBijective | native/uxb_runtime/uxb_runtime_task_v2.cpp:66-68 | the scrambler *5, rotate 7, *9 has an inverse: the word tells the state word it comes from |
| Rng.SplitMixAnswers | native/uxb_runtime/uxb_runtime_task_v2.cpp:50-57 | seeding with 1234567 gives the four words that are published for SplitMix64 |
| Rng.XoshiroAnswers | native/uxb_runtime/uxb_runtime_task_v2.cpp:66-76 | the first four outputs published for xoshiro256** with the state 1, 2, 3, 4 |
| Rng.DefaultAnswer | native/uxb_runtime/uxb_runtime_task_v2.cpp:82 | the first two words of the default seed: what the main program draws first, and next |
| Rng.UxbRng.Seed | native/uxb_runtime/uxb_runtime_task_v2.cpp:58-65 | in place: the four words of the state |
| Rng.UxbRng.Next | native/uxb_runtime/uxb_runtime_task_v2.cpp:66-76 | in place: the output and the next state |
| Rng.UxbRng.NextReal | native/uxb_runtime/uxb_runtime_task_v2.cpp:77-80 | in place: the leading 53 bits of the next word as a fraction, remembered as the last value |
| OwnedText.RunsKeepOk | native/uxb_runtime/uxb_runtime_mir.cpp:231-270 | in every run the registry lists exactly the heap copies, each with its length and the one slot that owns and points to it |
| OwnedText.StoreCopiesText | native/uxb_runtime/uxb_runtime_mir.cpp:231-259 | after a store the slot reads back the source's text, zero bytes included, and no other slot reads anything else than before |
| OwnedText.ReleaseFreesOwnCopy | native/uxb_runtime/uxb_runtime_mir.cpp:261-272 | a release frees exactly the slot's own copy, if it has one, and no text that another slot reads |
| OwnedText.TextsAreReadWhereTheyLie | native/uxb_runtime/uxb_runtime_mir.cpp:68-83 | a literal and a heap copy read as they are, and an unknown address as the empty text |
| OwnedText.CopiesNeverOutnumberSlots | native/uxb_runtime/uxb_runtime_mir.cpp:231-272 | nothing leaks: never more heap copies than slots |
| OwnedText.RingTextSurvives | native/uxb_runtime/uxb_runtime_mir.cpp:34-45 | a ring text is read back unchanged during the next 31 calls of hold_text |
| OwnedText.RingTextIsOverwritten | native/uxb_runtime/uxb_runtime_mir.cpp:41-45 | and the 32nd call overwrites it |
| OwnedText.TextStore.TextOrEmpty | native/uxb_runtime/uxb_runtime_mir.cpp:68-83 | the scan of the ring and the two tables give the text of a pointer |
| OwnedText.TextStore.StrStore | native/uxb_runtime/uxb_runtime_mir.cpp:231-259 | in place, in the source's order: copy first, then free the slot's own old copy |
| OwnedText.TextStore.StrRelease | native/uxb_runtime/uxb_runtime_mir.cpp:261-272 | in place: answers whether anything was freed |
| Console.NothingIsLostOrReordered | native/uxb_runtime/uxb_runtime_mir.cpp:311-355 | in every interleaving the chunks of a task followed by its pending line are its writes, in order |
| Console.OnlyWholeLinesLeave | native/uxb_runtime/uxb_runtime_mir.cpp:321-334 | a pending line holds no newline, and nothing is pending before the pool is active |
| Console.ActiveWritesEmitLines | native/uxb_runtime/uxb_runtime_mir.cpp:326-334 | once the pool is active a write emits only text that ends in a newline |
| Console.BufferingSplitsAtTheLastNewline | native/uxb_runtime/uxb_runtime_mir.cpp:326-334 | however its writes were cut up and interleaved, a task that has written only since the pool became active, and was neither flushed nor finished, has emitted exactly its text up to the last newline |
| Console.FinishedTaskHasEmittedAll | native/uxb_runtime/uxb_runtime_mir.cpp:346-355 | after a task has finished nothing of it is pending |
| Console.FinishForgets | native/uxb_runtime/uxb_runtime_mir.cpp:346-355 | the console of a finished task is forgotten; the main program keeps its row and column |
| Console.CursorFollowsTheText | native/uxb_runtime/uxb_runtime_mir.cpp:311-320 | a task's row and column follow from its own text alone, whatever was flushed or written by others |
| Console.RowCountsNewlines | native/uxb_runtime/uxb_runtime_mir.cpp:314-320 | the row advances by the number of newlines |
| Console.ColumnCountsCharacters | native/uxb_runtime/uxb_runtime_mir.cpp:311-320 | over text without control characters the column advances by the UTF-8 characters, not the bytes |
| Console.ColumnRestarts | native/uxb_runtime/uxb_runtime_mir.cpp:311-320 | after a newline or a carriage return the column depends on what follows it alone |
| Console.ControlMovesColumn | native/uxb_runtime/uxb_runtime_mir.cpp:311-320 | a tab goes to the next multiple of 8, a backspace one back but not beyond the margin, other control characters move nothing |
| Console.ConsoleTable.ConsoleWrite | native/uxb_runtime/uxb_runtime_mir.cpp:311-335 | in place: cursor loop, direct write or buffered line |
| Console.ConsoleTable.ConsoleFlush | native/uxb_runtime/uxb_runtime_mir.cpp:337-344 | in place: the pending line leaves |
| Console.ConsoleTable.ConsoleFinish | native/uxb_runtime/uxb_runtime_mir.cpp:346-355 | in place: flush and erase, except for the main program |
| GraphWalks.DistanceIsUnique | runtime_ext/uxgraph/uxgraph_igraph.c:246-250 | two answers that meet the definition by walks are the same number |
| GraphWalks.SearchIsComplete | runtime_ext/uxgraph/uxgraph_igraph.c:213-244 | with an empty queue every vertex has the length of a shortest walk, or -1 exactly if there is none |
| GraphWalks.TargetIsFinal | runtime_ext/uxgraph/uxgraph_igraph.c:213-244 | a vertex at the head of the queue has its final distance, so the early break is sound |
| GraphWalks.RoomForOneMore | runtime_ext/uxgraph/uxgraph_igraph.c:213-244 | the queue of n entries never overflows |
| Graph.UxGraph.BfsDistance | runtime_ext/uxgraph/uxgraph_igraph.c:213-244 | in place: the search over arrays with head and tail gives shortest distances |
| Graph.UxGraph.ShortestDistance | runtime_ext/uxgraph/uxgraph_igraph.c:246-250 | the length of a shortest walk or -1, exactly when not both the source is valid and the target negative |
| Graph.UxGraph.PathExists | runtime_ext/uxgraph/uxgraph_igraph.c:252-254 | whether a walk exists between valid vertices; no for an invalid source or a too large target, yes for a valid source and a negative target |
| Graph.UxGraph.BfsDistances | runtime_ext/uxgraph/uxgraph_igraph.c:256-263 | the right distance for every vertex |
| Graph.UxGraph.AddEdge | runtime_ext/uxgraph/uxgraph_igraph.c:120-131 | in place: appended between valid vertices, otherwise refused |
| Descriptors.LiveIffReachable | runtime_ext/uxcapi/uxcapi.c:271-285 | no leak and no early free: allocated is exactly what a live holder reaches |
| Descriptors.SurvivesIffReachable | runtime_ext/uxcapi/uxcapi.c:275-285 | after any series of releases exactly those descriptors are left that the remaining holders reached before |
| Descriptors.NestingIsAcyclic | runtime_ext/uxcapi/uxcapi.c:628-635 | the nesting of descriptors is a DAG |
| TypeApi.TypeSystem.ValidMeansNoLeak | runtime_ext/uxcapi/uxcapi.c:271-285 | so it is after every call of the interface |
| TypeApi.TypeSystem.Release | runtime_ext/uxcapi/uxcapi.c:275-285 | the recursive cascade ends, only frees, and gives back exactly the references owed |
| TypeApi.TypeSystem.AddField | runtime_ext/uxcapi/uxcapi.c:619-626 | a scalar field is added exactly to a STRUCT that is not finalized |
| TypeApi.TypeSystem.AddStructField | runtime_ext/uxcapi/uxcapi.c:628-635 | only a finalized STRUCT is nested; its count grows by one |
| TypeApi.TypeSystem.Finalize | runtime_ext/uxcapi/uxcapi.c:672-703 | finalization, after which no field can be added |
| TypeApi.TypeSystem.TypeFree | runtime_ext/uxcapi/uxcapi.c:720-722 | the creator gives up its handle; what nobody else reaches is freed, nothing else |
| TypeApi.TypeSystem.UnionNew | runtime_ext/uxcapi/uxcapi.c:602-617 | a UNION with its creator's handle, or nothing |
| TypeApi.TypeSystem.AddStructArgument | runtime_ext/uxcapi/uxcapi.c:426-461 | an aggregate argument holds its type |
| TypeApi.TypeSystem.ClearArguments | runtime_ext/uxcapi/uxcapi.c:371-379 | all argument types are given back; what nobody else reaches is freed, nothing else |
| TypeApi.TypeSystem.SetReturnStruct | runtime_ext/uxcapi/uxcapi.c:794-804 | refused exactly without a finalized STRUCT; the new type is freed before it is retained if and only if only the old return type reaches it |
| TypeApi.SameTypeAgain | runtime_ext/uxcapi/uxcapi.c:794-804 | a sequence of calls that ends so: the same type again, its creator gone |
| TypeApi.NestedInOldType | runtime_ext/uxcapi/uxcapi.c:794-804 | another one: a type that only the old return type nests |
| TypeApi.TypeSystem.CallFree | runtime_ext/uxcapi/uxcapi.c:772-779 | arguments and return type are given back; what nobody else reaches is freed, nothing else |
| FfiHandles.TokenRoundTrip | runtime_ext/uxffi/uxffi.c:116-135 | decoding undoes encoding for every index and generation that can be handed out |
| FfiHandles.DecodedIsMade | runtime_ext/uxffi/uxffi.c:122-135 | and encoding undoes decoding |
| FfiHandles.StoreSucceedsUnlessFull | runtime_ext/uxffi/uxffi.c:137-156 | storing fails exactly when all 65534 slots are occupied; the new token was not live before, names the pointer, and all other tokens keep their meaning |
| FfiHandles.ReleaseEndsOneToken | runtime_ext/uxffi/uxffi.c:322-338 | a release ends that token and no other |
| FfiHandles.StaleTokenIsRejected | runtime_ext/uxffi/uxffi.c:110-114 | a released token is rejected through its slot's next 16382 uses; afterwards exactly when the wrap says so |
| FfiHandles.ReleasedTokenIsStale | runtime_ext/uxffi/uxffi.c:177-194 | a live token is taken for a token, a released one is stale unless memory lies at the address |
| FfiHandles.HandleTable.Store | runtime_ext/uxffi/uxffi.c:137-156 | in place: the cyclic scan |
| FfiHandles.HandleTable.Release | runtime_ext/uxffi/uxffi.c:322-338 | in place; an owned pointer is freed exactly when a live token of it is given up |
| FfiHandles.LiveTokenKeepsItsPointer | runtime_ext/uxffi/uxffi.c:137-156 | in every run a live token names its pointer until it is released or the table is cleared |
| FfiHandles.LiveTokensAreDistinct | runtime_ext/uxffi/uxffi.c:137-156 | tokens that are live together are different, however many have been issued |
| FfiHandles.FreedForEachOwner | runtime_ext/uxffi/uxffi.c:340-349 | clearing frees a pointer once for every slot that owns it |
| FfiHandles.OwnedIsFreedOnce | runtime_ext/uxffi/uxffi.c:322-349 | over every run of stores, releases and clears a pointer is freed as often as the table was made its owner, less the slots that own it still |
| FfiHandles.ReleasedSlotIsReusedLast | runtime_ext/uxffi/uxffi.c:137-156 | a slot whose token is released at once is not handed out next while any other slot is free |
| FfiHandles.NeverIssuedIsRaw | runtime_ext/uxffi/uxffi.c:177-194 | a number whose slot was never handed out is an ordinary address |
| FfiHandles.ClearStartsOver | runtime_ext/uxffi/uxffi.c:340-349 | after clearing, slots are handed out from the first one on |
| FfiHandles.HandleTable.Clear | runtime_ext/uxffi/uxffi.c:340-349 | in place: every slot is emptied, generations stay, the owned pointers of all slots are freed |
| Generations.SameGenerationIff | runtime_ext/uxffi/uxffi.c:110-114 | a generation returns exactly after a multiple of its cycle |
| JsTree.RunsKeepOk | runtime_ext/uxjsruntime/uxjsrt.c:541-572 | in every run a used context's runtime is used, a used result's context is used, and everything is freed once and before its owner |
| JsTree.MoveKeepsOk | runtime_ext/uxjsruntime/uxjsrt.c:234-261 | each allocation and each release keeps that |
| JsTree.HandleRoundTrip | runtime_ext/uxjsruntime/uxjsrt.c:84-92 | the index and the generation are read back from a handle |
| JsTree.HandleHasOneOwner | runtime_ext/uxjsruntime/uxjsrt.c:112-169 | a runtime or context handle works on one thread only, a result handle with one context only |
| JsTree.StaleHandleIsRejected | runtime_ext/uxjsruntime/uxjsrt.c:112-169 | a released handle is rejected through its slot's next 32766 uses; afterwards exactly when the wrap says so |
| JsTree.FreedContextHasNoResults | runtime_ext/uxjsruntime/uxjsrt.c:155-169 | in every run that gives a context back, an old result handle of it resolves under no context, also not a later one in the same slot, for 32766 further uses of the result slot; afterwards exactly when the wrap says so |
| JsHost.Host.RuntimeCreate | runtime_ext/uxjsruntime/uxjsrt.c:515-539 | in place: the first free slot and no other is taken, or 0 exactly when all are taken or QuickJS fails |
| JsHost.Host.ContextCreate | runtime_ext/uxjsruntime/uxjsrt.c:614-645 | in place: the first free slot, under the runtime of the handle, for its owner thread |
| JsHost.Host.AllocResult | runtime_ext/uxjsruntime/uxjsrt.c:234-247 | in place: the first free slot takes the value, or 0 exactly when all are taken |
| JsHost.Host.KeepResult | runtime_ext/uxjsruntime/uxjsrt.c:802-807 | the callers of alloc_result: the value is freed at once exactly when all slots are taken |
| JsHost.Host.ResultFree | runtime_ext/uxjsruntime/uxjsrt.c:963-983 | in place: exactly the named result of that context |
| JsHost.Host.ContextFree | runtime_ext/uxjsruntime/uxjsrt.c:647-656 | in place: the results of this context first, then the context; all other slots stay |
| JsHost.Host.RuntimeFree | runtime_ext/uxjsruntime/uxjsrt.c:555-572 | in place: its contexts, each with its results, then the runtime; all other slots stay |
| Collections.RunsMeanTheSame | runtime_ext/uxcollections/uxcollections_glib.c:47-57 | additions, overwrites, removals and clears without a zero byte enumerate the same keys, order and values as the native vectors |
| Collections.StepMeaningIff | runtime_ext/uxcollections/uxcollections_glib.c:47-57 | one operation keeps hash and vectors the same if and only if it has no zero byte, or removes what is stored in neither |
| Collections.AlwaysInStepIff | native/uxb_runtime/uxb_runtime_mir.cpp:881-987 | the two agree after every operation of a list if and only if each of them is of that kind where it is executed |
| Collections.DictsAgreeIff | native/uxb_runtime/uxb_runtime_mir.cpp:908-934 | dictionaries filled with zero-free values agree in the end if and only if no key set since the last clear has a zero byte |
| Collections.ZeroByteKeysCollide | runtime_ext/uxcollections/uxcollections_glib.c:47-50 | the keys "a\0b" and "a\0c": two entries in the vectors, one in the hash |
| Collections.HashRemoveKeepsOk | runtime_ext/uxcollections/uxcollections_glib.c:51-57 | the order list stays a duplicate-free listing of the keys |
| Collections.MergeIsOrderedUnion | runtime_ext/uxcollections/uxcollections_glib.c:273-275 | merge keeps a's order, then b's new keys in b's order, b's values winning |
| Collections.CloneIsSame | runtime_ext/uxcollections/uxcollections_glib.c:273 | a clone has the same entries in the same order |
| Collections.SetEqualsIsEquality | runtime_ext/uxcollections/uxcollections_glib.c:295 | equal sizes and a superset test decide equality of sets |
| Collections.DictEqualsIsEquality | runtime_ext/uxcollections/uxcollections_glib.c:277 | the one-sided comparison decides equality of dictionaries |
| Collections.SetPopRemovesFirstIff | runtime_ext/uxcollections/uxcollections_glib.c:301 | the first member is removed exactly if it has at most 4095 bytes; a longer one stays and its first 4095 bytes are removed, if they are a member |
| CollectionObjects.OrderedHash.Set | runtime_ext/uxcollections/uxcollections_glib.c:47-50 | in place: ohash_set |
| CollectionObjects.OrderedHash.Remove | runtime_ext/uxcollections/uxcollections_glib.c:51-56 | in place: ohash_remove with its search loop |
| CollectionObjects.OrderedHash.SetText | runtime_ext/uxcollections/uxcollections_glib.c:242-244 | in place: the entry goes under the text before the first zero byte |
| CollectionObjects.OrderedHash.Update | runtime_ext/uxcollections/uxcollections_glib.c:274 | in place, also when source and destination are the same |
| CollectionObjects.OrderedHash.Merged | runtime_ext/uxcollections/uxcollections_glib.c:275 | a new dictionary with the ordered union |
| CollectionObjects.OrderedHash.Intersection | runtime_ext/uxcollections/uxcollections_glib.c:289 | the intersection, in the order of a |
| CollectionObjects.OrderedHash.Difference | runtime_ext/uxcollections/uxcollections_glib.c:290 | the difference, in the order of a |
| CollectionObjects.OrderedHash.SymmetricDifference | runtime_ext/uxcollections/uxcollections_glib.c:291 | the symmetric difference, what only a has before what only b has |
| CollectionObjects.OrderedHash.Equals | runtime_ext/uxcollections/uxcollections_glib.c:295 | true set equality |
| CollectionObjects.VectorCollection.Set | native/uxb_runtime/uxb_runtime_mir.cpp:908-925 | in place: overwrite at the index found, or append to both vectors |
| CollectionObjects.VectorCollection.Remove | native/uxb_runtime/uxb_runtime_mir.cpp:964-973 | in place: erase at the index found |
| CollectionObjects.RotatedAt | runtime_ext/uxcollections/uxcollections_glib.c:236 | the element at i goes to i + n modulo the length, also for negative n |
| CollectionObjects.RotateBack | runtime_ext/uxcollections/uxcollections_glib.c:236 | the rotation by -n undoes the rotation by n |
| CollectionObjects.Deque.Rotate | runtime_ext/uxcollections/uxcollections_glib.c:236 | in place: the loop that moves the tail to the head computes that rotation |

## Left out

- Histories.StopsAfterAllHaveFinished: speaks of the tasks in the shutdown's snapshot; tasks spawned later are not waited for by the source either.
- Handover.ScheduleHandsOver: an endless series of spurious wake-ups is excluded, because it alone keeps a runtime busy; any finite number is allowed there, any number in every other theorem.
- MutualExclusion.TasksExcludeEachOther: for programs whose SYNC_ENTER and SYNC_LEAVE match; nothing is claimed for others.
- OwnedText.RingTextSurvives: one thread and its own ring; a ring of another thread is not read by it.
- TypeApi.TypeSystem.SetReturnStruct: what the code does with freed memory; the model stops before it.
- Fairness of the retry loop in SYNC_ENTER: the code promises none.
- GROUP.JOIN is a sequence of waits, JOIN and RESULT of a failed task are ends of the program; result values and their texts are not modelled.
- The report of errors that nobody has read, and the exit status that it decides, at the end of the shutdown.
- Names of locks and tasks, texts of diagnoses, the time-based RANDOMIZE, thread creation and output devices.
- Lock ids are the compiler's positive ids; negative ids would clash with the internal marks.
- Allocation succeeds and returns memory that nothing else uses; running out of memory is not modelled.
- Descriptors: array fields, expected layouts, callbacks and their event lists, module caches, and the capacity arithmetic of the argument arrays; the ABI itself belongs to libffi.
- Graphs: components, degrees, density and files; the 32-bit limit of the edge count.
- Console: the CONSOLE lock is an ordinary lock of the runtime, so a write is one step here; the lines of the legacy registry are not part of this model.
- Collections: handles of the wrong kind, lists, trees and nodes; keys are byte strings, and a double that is not a number, which is not equal to itself, is not among the values.
- JavaScript: evaluation, time limits, error texts; only the ownership of runtimes, contexts and results.
