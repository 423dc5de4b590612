# Verification model of the DevOps manager's server core

The server queues tasks by priority, hands them to workers under a concurrency
cap and per-host limits, records every task, command and command-host row in
three coupled tables, batches status writes, keeps a pool of agent connections,
measures its own load, and admits hosts. These Dafny modules model that core
and prove what it keeps over whole runs, what its fast forms compute, and
exactly when the spots that can go wrong do go wrong.

`dafny verify dfyconfig.toml` checks everything.

## How the model is built

- **Scheduler.** `SchedulerModel` has one function for each step the task queue
  manager takes under its lock. `QueueManager.TaskQueueManager` is the manager
  itself, with its fields and loops; each method is proved to take exactly that
  step. `GreedyDispatch` says what a queue pass achieves while the channels have
  room and `FullChannels` what it leaves behind when they have not;
  `SchedulerInvariants` and `SchedulerSteps` say what every step keeps, and
  `SchedulerRuns`, `SchedulerAnyRun` and `SchedulerLimits` what holds after every
  run, for every interleaving of steps and however full the channels are.
  `FillingPass`, `SpinningRuns` and `Deadlock` say which configurations have runs
  to a pass that spins, to a queue out of order and to a deadlock, and
  `CancelledRun` holds a run that ends with a wrong host table. `FifoRuns` says
  which configurations serve tasks of equal priority in turn. `SchedulerEffects`
  says what each step does to every field, without the functions that define the
  steps. `TaskOrder`,
  `HostLoads` and `Workers` hold the queue order, the host table and the choice
  of a worker. Run theorems come in three strengths: for any run whatsoever
  (`AnyRun`), for runs in which no ID is accepted again while a task with it is
  still queued, asleep, in a channel or with a worker (`FreshRun`), and for runs
  in which sleeping IDs are not accepted again and only queued tasks are
  cancelled (`OrderlyRun`).
- **Lifecycle.** `TaskStoreModel` has one function for each transaction on the
  three tables; `Service.TaskService` and `Service.TimeoutMonitor` perform the
  transactions statement by statement, loops and rollbacks included, and are
  proved to have that effect. `Progress` compares the three computations of a
  task's progress, `Completion` says what a task's status means for its hosts,
  `LifecycleInvariants`, `LifecycleStructure`, `Timeouts`, `Sweeps` and
  `LifecycleRuns` hold the invariants, their exact conditions and the theorems
  over runs. `TableEffects` says column by column what each transaction leaves in
  every record, and which records it leaves alone.
- **Batched writes.** `BatchWrites` compares a grouped batch with its updates
  written one by one; `BatchProcessor` holds the batch writer and the buffering
  loop.
- **Smaller machines.** `ConnectionPools`, `LoadMonitor`, `HostAdmission`.

Times are integers (nanoseconds where durations matter) passed in by the
caller, fresh IDs are parameters, percentages are reals, and each lock-held
method or transaction is one step. Where the database or a Go map may pick an
order, the order is a parameter or an arbitrary choice, and the theorems hold
for all of them.

Where the program and its comments disagree, the model follows the program:

- The `break` in the full-channel branch of the queue pass leaves only the
  `select`. The task goes to the front of the queue, whatever its priority, and
  the loop goes on with the same index. The method reports `stuck` where that
  loop would repeat the same iteration until another goroutine drains a
  channel. `GreedyDispatch.SpinExactly` says exactly when that happens, and
  `SpinningRuns.SpinIsReachableExactly` for which configurations some run gets
  there: exactly those whose cap can pass the number of channel slots.
  `FullChannels.PassKeepsOrderExactly` says exactly when the tasks put back break
  the order of the queue, and `SpinningRuns.BrokenOrderIsReachableExactly` that
  this needs the same configurations; `FifoRuns.FairInEveryRunExactly` says when
  tasks of equal priority can be served out of turn.
- The spinning pass holds the lock that a worker needs to end its task. So once
  every worker is waiting for it no step but the spin is ever taken again
  (`Deadlock.DeadlockIsForever`); some run gets there exactly if the cap can pass
  what channels and workers hold together (`Deadlock.DeadlockIsReachableExactly`).
- A task cancelled in a channel or while a worker executes it stays there and is
  executed all the same, and its hosts are released twice.
  `SchedulerInvariants.FinishCancelledExactly` says for every state exactly when
  the second release makes the host table wrong, `CancelledRun.CancelledRunFails`
  gives a run in which it does, and `SchedulerAnyRun` says what such runs keep.
- A retry's wake-up skips the capacity and duplicate checks, and the duplicate
  check of an enqueue does not see sleeping tasks;
  `SchedulerInvariants.EnqueuePlacesExactly` and
  `SchedulerAnyRun.WakeOverflowsExactly` say exactly when that harms.
- A host listed twice in a task is charged twice but checked once;
  `SchedulerLimits.ChargedLimitsExactly` says exactly when that passes the limit.
- The grouped count of failed hosts is assigned, not added up, so only the last
  group of a failure status counts; `Progress.FoldAgreesExactly`,
  `Progress.MixedFailuresNeverFinish`, `Progress.FoldIsDeterminateExactly` and
  `Sweeps.SweepIsDeterminateExactly` say exactly when and what follows.
- Stopping a task cancels only its own record, so a later result, or merely
  reading its status, can bring it back; `Completion.StoppedStaysStoppedExactly`
  and `Completion.ReadRevivesStoppedExactly` say exactly when not.
- A registration that fails to read the pending list but can write to it takes
  the host for new; `HostAdmission.FirstSeenAtBlind` says what follows.

## Model

| member | source | states |
|---|---|---|
| `TaskOrder.InsertKeepsOrder` | server/pkg/service/task_queue_manager.go:173-188 | inserting by priority into a sorted queue keeps it sorted and adds exactly the task |
| `TaskOrder.InsertPosition` | server/pkg/service/task_queue_manager.go:173-188 | what stands before the inserted task is, in its old order, everything of higher priority or equal priority and no later creation; the rest follows in its old order |
| `SchedulerInvariants.NewTaskPosition` | server/pkg/service/task_queue_manager.go:617-628 | a newly accepted ID is found at the position right behind the tasks not served after it |
| `SchedulerEffects.AcceptedTaskStands` | server/pkg/service/task_queue_manager.go:146-188 | a task accepted no earlier than the queued ones stands, with its ID, priority, hosts and time, behind all tasks of at least its priority and before the others; its position is one more than the number of the former |
| `SchedulerEffects.EnqueueRefusals` | server/pkg/service/task_queue_manager.go:135-156 | which of the four outcomes an enqueue has: full queue, running, queued, or accepted |
| `SchedulerEffects.WokenTaskStands` | server/pkg/service/task_queue_manager.go:173-188 | a retry stands before the first task of lower priority, or of its own and created later; the others keep their order |
| `FifoRuns.FairInEveryRunExactly` | server/pkg/service/task_queue_manager.go:135-251 | in every orderly run with acceptance times that do not go back, untried tasks of equal priority wait in the order of their acceptance, exactly unless the manager can dispatch, its cap can pass the channel slots, and the queue holds two tasks |
| `TaskOrder.WithoutKeepsOrder` | server/pkg/service/task_queue_manager.go:592-603 | cancelling a queued task keeps the queue sorted and removes exactly that task |
| `HostLoads.RefusalIsStable` | server/pkg/service/task_queue_manager.go:254-287 | admission is antitone in the host loads: what is refused stays refused under any heavier table |
| `HostLoads.ReleaseUndoesCharge` | server/pkg/service/task_queue_manager.go:290-314 | releasing what was just charged restores every entry up to its time stamp; the clamp at zero does not fire |
| `SchedulerEffects.AdmissionMeans` | server/pkg/service/task_queue_manager.go:254-287 | admission fails exactly if a listed host has an entry that is unavailable, at its limit, or above 80 percent in CPU or memory, or a host without an entry is listed twice under a limit of none |
| `SchedulerEffects.AdmissionColumns` | server/pkg/service/task_queue_manager.go:254-287 | which hosts get an entry from an admission, also one that stops early, and what is in it |
| `SchedulerEffects.ChargeColumns` | server/pkg/service/task_queue_manager.go:290-314 | what charging and releasing leave in every column of every host |
| `Workers.StrategiesAgree` | server/pkg/service/task_queue_manager.go:317-382 | for an admitted task the resource-based choice is the least-connections choice, because the load term is the same for every worker |
| `Workers.LeastBusyFull` | server/pkg/service/task_queue_manager.go:331-343 | the chosen worker's channel is full exactly when no channel has a free slot |
| `SchedulerEffects.ChoiceMeans` | server/pkg/service/task_queue_manager.go:317-360 | the chosen worker is the first with the shortest channel; a resource-based choice is worker 0 if every score reaches 1000000 |
| `SchedulerEffects.AverageOfAlike` | server/pkg/service/task_queue_manager.go:363-382 | if the known hosts of a task are used alike, the load term of the score is that use, CPU and memory together; zero without a known host |
| `QueueManager.TaskQueueManager.constructor` | server/pkg/service/task_queue_manager.go:78-121 | a new manager is in the model's initial state |
| `QueueManager.TaskQueueManager.EnqueueTask` | server/pkg/service/task_queue_manager.go:135-170 | the outcome and whole new state of the enqueue step: full queue, running or queued duplicate, or insertion in order |
| `QueueManager.TaskQueueManager.InsertTaskByPriority` | server/pkg/service/task_queue_manager.go:173-188 | the search and splice compute the reference insertion |
| `QueueManager.TaskQueueManager.CanExecuteTask` | server/pkg/service/task_queue_manager.go:254-287 | true exactly if no listed host refuses, and the entries it creates on the way, also when it stops early |
| `QueueManager.TaskQueueManager.UpdateHostLoadForTask` | server/pkg/service/task_queue_manager.go:290-314 | every listed host moves by the number of its occurrences, clamped at zero |
| `QueueManager.TaskQueueManager.SelectLeastBusyWorker` | server/pkg/service/task_queue_manager.go:331-343 | the loop finds the first worker with the shortest channel |
| `QueueManager.TaskQueueManager.CalculateWorkerScore` | server/pkg/service/task_queue_manager.go:363-382 | the score is ten times the channel length plus the average usage of the known hosts |
| `QueueManager.TaskQueueManager.SelectResourceBasedWorker` | server/pkg/service/task_queue_manager.go:346-360 | the loop finds the first worker with the best score below the initial 1000000, else worker 0 |
| `QueueManager.TaskQueueManager.Offer` | server/pkg/service/task_queue_manager.go:222-250 | one iteration refuses, sends or puts back a task, with the exact new state of each case |
| `QueueManager.TaskQueueManager.ScanQueue` | server/pkg/service/task_queue_manager.go:222-251 | the index loop that splices while it scans computes the recursive scan, and ends |
| `QueueManager.TaskQueueManager.ProcessTasks` | server/pkg/service/task_queue_manager.go:206-251 | one pass of the queue processor, early returns included, is the model's pass |
| `QueueManager.TaskQueueManager.Receive` | server/pkg/service/task_queue_manager.go:385-397 | a worker takes the oldest task of its channel; no other worker and no other channel changes |
| `QueueManager.TaskQueueManager.FinishExecution` | server/pkg/service/task_queue_manager.go:400-439 | after an execution the task leaves the running set, its hosts are released, and it sleeps for a retry exactly if it failed with retries left |
| `QueueManager.TaskQueueManager.WakeRetry` | server/pkg/service/task_queue_manager.go:420-425 | a retry re-enters the queue in order, without the capacity and duplicate checks |
| `QueueManager.TaskQueueManager.AdjustConcurrency` | server/pkg/service/task_queue_manager.go:495-531 | the new cap from load, queue length and running tasks: up by two below half with over ten tasks queued, down by two above 80 percent, within 5..100 |
| `QueueManager.TaskQueueManager.UpdateHostLoads` | server/pkg/service/task_queue_manager.go:457-477 | in whatever order the map is visited, a host ends up available exactly if its entry is at most five minutes old |
| `QueueManager.TaskQueueManager.UpdateHostLoad` | server/pkg/service/task_queue_manager.go:571-589 | a load report changes usage and availability of one host, no charge, and no other entry |
| `QueueManager.TaskQueueManager.CancelTask` | server/pkg/service/task_queue_manager.go:592-614 | cancelling removes a queued task, else a running one with its charges, else fails |
| `QueueManager.TaskQueueManager.GetTaskPosition` | server/pkg/service/task_queue_manager.go:617-628 | the one-based index of the first task with the ID |
| `GreedyDispatch.ScanIsGreedy` | server/pkg/service/task_queue_manager.go:222-251 | with room in the channels the in-place index scan is one greedy pass front to back whose picks go, in order, to the least busy worker each time; otherwise it meets a full channel |
| `SchedulerEffects.PassStartsExactly` | server/pkg/service/task_queue_manager.go:206-220 | no task is looked at exactly while the cap is reached or, under adaptive throttling, the load is above the threshold |
| `SchedulerEffects.SendColumns` | server/pkg/service/task_queue_manager.go:226-241 | an admitted task leaves the queue, is marked, charged, and appended to the channel; nothing else changes |
| `SchedulerEffects.PutBackColumns` | server/pkg/service/task_queue_manager.go:242-247 | a task put back stands first and unmarked, with no charge left |
| `GreedyDispatch.OverflowExactly` | server/pkg/service/task_queue_manager.go:240-247 | a full channel is met exactly when the greedy pass picks more tasks than the channels have free slots |
| `GreedyDispatch.GreedySplits` | server/pkg/service/task_queue_manager.go:222-251 | dispatched and remaining tasks interleave to the old queue, and together are a permutation of it |
| `GreedyDispatch.GreedyIsMaximal` | server/pkg/service/task_queue_manager.go:222-287 | after the pass the cap is reached or no remaining task passes admission |
| `GreedyDispatch.SpinExactly` | server/pkg/service/task_queue_manager.go:242-247 | the loop makes no further progress exactly when the free slots can be filled from the front with nothing refused and the next task would be admitted again after being put back |
| `FullChannels.ScanIsPass` | server/pkg/service/task_queue_manager.go:222-251 | however full the channels are, an index scan that does not spin is one pass front to back that sends while slots last and from then on puts every admitted task back and undoes its charges |
| `FullChannels.PutBackKeepsOrderExactly` | server/pkg/service/task_queue_manager.go:242-247 | one put-back keeps a sorted queue sorted exactly if no task it passes must be served before the task put back |
| `FullChannels.PassKeepsOrderExactly` | server/pkg/service/task_queue_manager.go:222-251 | a pass that does not spin keeps a sorted queue sorted exactly if no task it leaves must be served before one it put back |
| `SchedulerInvariants.RoomForOneMore` | server/pkg/service/task_queue_manager.go:240-247 | pigeonhole: below the cap, and with channels that hold the cap, some channel has a free slot |
| `SchedulerInvariants.ScanFollows` | server/pkg/service/task_queue_manager.go:206-251 | from every state, however full the channels are, a pass, put-backs and spinning included, only moves tasks from the queue to channels and keeps placement, accounting and limits, as far as they held |
| `SchedulerInvariants.ScanIsClean` | server/pkg/service/task_queue_manager.go:206-251 | with channels that hold the cap, a pass from a sorted state with the invariant meets no full channel, ends, and keeps order and invariant |
| `SchedulerInvariants.EnqueuePlacesExactly` | server/pkg/service/task_queue_manager.go:146-156 | an accepted task keeps every live ID in one place exactly when its ID is not asleep for a retry |
| `SchedulerInvariants.FinishIsExact` | server/pkg/service/task_queue_manager.go:430-438 | a finishing task is still marked as running and its hosts still carry its charges, so its release is exact |
| `SchedulerInvariants.FinishKeepsCore` | server/pkg/service/task_queue_manager.go:400-439 | finishing keeps placement, accounting and limits, and takes the ID out of the live ones exactly if no retry follows |
| `SchedulerEffects.TakeColumns` | server/pkg/service/task_queue_manager.go:385-397 | a receipt moves the head of the channel to the worker |
| `SchedulerEffects.FinishColumns` | server/pkg/service/task_queue_manager.go:400-439 | the end of an execution frees the worker, unmarks the ID, releases the hosts, and puts the task to sleep, one more try counted, exactly if StartTask failed with tries left |
| `SchedulerEffects.CancelColumns` | server/pkg/service/task_queue_manager.go:592-614 | cancelling takes the first queued task with the ID, else the mark and charges of a running one, else nothing |
| `SchedulerInvariants.CancelledStaysInFlight` | server/pkg/service/task_queue_manager.go:606-611 | cancelling a task in a channel or under execution leaves it there and takes away only its mark and its charges; the accounting stays right |
| `SchedulerInvariants.FinishCancelledExactly` | server/pkg/service/task_queue_manager.go:430-438 | in any state, finishing a task that is not marked as running keeps the accounting right exactly if no marked task uses one of its hosts |
| `SchedulerInvariants.FinishUnmarksNamesake` | server/pkg/service/task_queue_manager.go:430-438 | if a task with the same ID was sent in the meantime, finishing the cancelled one removes the other from the running map while it is still in flight |
| `SchedulerRuns.StepKeepsGood` | server/pkg/service/task_queue_manager.go:135-439 | every step of the manager keeps the whole invariant and the log, in each of the three strengths |
| `SchedulerRuns.QueuePassIsCleanInEveryRun` | server/pkg/service/task_queue_manager.go:206-251 | if the channels can hold the highest cap: after every orderly run the queue is sorted, at most the highest cap of tasks run, no pass is spinning, and the next pass ends, meets no full channel and equals the greedy pass |
| `FillingPass.SpinJams` | server/pkg/service/task_queue_manager.go:222-251 | a pass that spins has filled all channels and leaves at the front a task that is not running, may run under the cap, and is admitted again and again |
| `SpinningRuns.SpinIsReachableExactly` | server/pkg/service/task_queue_manager.go:206-251 | some orderly run reaches a pass that spins exactly if the manager can dispatch at all (queue capacity and cap at least one, throttle threshold not negative) and the highest cap exceeds the channel slots |
| `SpinningRuns.BrokenOrderIsReachableExactly` | server/pkg/service/task_queue_manager.go:206-251 | some orderly run reaches a queue that is out of order exactly for the same configurations |
| `Deadlock.DeadlockIsForever` | server/pkg/service/task_queue_manager.go:242-251 | when a pass has jammed and all workers are busy, every continuation whatsoever only spins on: no task is accepted, started, finished or cancelled, and only time stamps of hosts change |
| `Deadlock.DeadlockIsReachableExactly` | server/pkg/service/task_queue_manager.go:206-251 | some orderly run ends so exactly if the manager can dispatch at all and the highest cap exceeds the channel slots and the workers together |
| `Deadlock.JamsAreRelieved` | server/pkg/service/task_queue_manager.go:384-407 | if it does not, then whenever a round of a pass ends in a spin, some idle worker can take a task |
| `Deadlock.ShippedConfiguration` | server/pkg/service/task_service.go:70-81 | under the configuration the server ships with no orderly run reaches a spinning pass or a broken order; with one worker fewer there are runs to both and to a deadlock |
| `SchedulerRuns.HostsAreAccountedInEveryRun` | server/pkg/service/task_queue_manager.go:232-314 | after every orderly run, put-backs included, each host's counter is the number of its occurrences in the running tasks' host lists, and no release can reach the clamp |
| `SchedulerRuns.TasksAreConservedInEveryRun` | server/pkg/service/task_queue_manager.go:135-439 | after every orderly run, put-backs included, each accepted task is in exactly one of queued, asleep, running, finished, cancelled, the running ones are those in channels and with workers, and StartTask was called for each at most four times |
| `SchedulerAnyRun.TasksAreKeptInEveryRun` | server/pkg/service/task_queue_manager.go:135-439 | after any run, whatever was cancelled or enqueued again: each accepted task is queued, asleep, in a channel, with a worker, at the end of its last execution or was cancelled in the queue, so a task cancelled in flight is still executed; StartTask is called at most four times for each acceptance; marked tasks are in flight and at most the highest cap; retries apart, the queue keeps its capacity |
| `SchedulerAnyRun.HostsAreNeverOverchargedInEveryRun` | server/pkg/service/task_queue_manager.go:232-314 | after any run in which no live ID is accepted again, whatever was cancelled: no two live tasks share an ID, and no host is charged more than its running tasks account for |
| `SchedulerAnyRun.WakeOverflowsExactly` | server/pkg/service/task_queue_manager.go:420-425 | a wake-up leaves the queue over its capacity exactly if it was full |
| `CancelledRun.CancelledRunFails` | server/pkg/service/task_queue_manager.go:592-614 | without adaptive throttling, for any host and two IDs: the run in which a task is cancelled under execution and another is sent to its host before it ends leaves the host running a task and charged with none |
| `SchedulerLimits.NeverReverses` | server/pkg/service/task_queue_manager.go:504-517 | an adjustment of the cap never undoes the one before it |
| `SchedulerEffects.AdjustedExactly` | server/pkg/service/task_queue_manager.go:495-531 | a cap in 5..100 rises by two, to at most 100, exactly if the load is below half, over ten tasks wait and there is room below the cap; it falls by two, to at least 5, exactly if the load is above 80 percent; otherwise it stays |
| `SchedulerEffects.SettledMeans` | server/pkg/service/task_queue_manager.go:495-531 | exactly when such a cap stays where it is |
| `SchedulerEffects.ReportColumns` | server/pkg/service/task_queue_manager.go:571-589 | what a load report writes, and that it writes nothing else |
| `SchedulerEffects.RefreshColumns` | server/pkg/service/task_queue_manager.go:457-477 | availability follows the age of five minutes, and no other column changes |
| `SchedulerLimits.CapSettles` | server/pkg/service/task_queue_manager.go:495-531 | under a fixed load repeated adjustment moves strictly in one direction to a fixpoint; from 5..100 that is one with a load of at most 80 percent, or 5, and of at least half, or with no need or room to grow, or 100 |
| `SchedulerLimits.CapStaysInRangeInEveryRun` | server/pkg/service/task_queue_manager.go:495-531 | from a start in 5..100 the cap stays there in any run whatsoever and never more than 100 tasks are marked as running |
| `SchedulerLimits.ChargedLimitsExactly` | server/pkg/service/task_queue_manager.go:254-314 | for every admitted list the hosts stay within the limit exactly if each has room for all of its occurrences in the list |
| `SchedulerLimits.ChargedLimits` | server/pkg/service/task_queue_manager.go:254-314 | an admitted list without repeats cannot push a host over its limit |
| `SchedulerLimits.RepeatsOvershoot` | server/pkg/service/task_queue_manager.go:256-306 | n + 1 occurrences of a fresh host are admitted under a limit of n and pass it |
| `SchedulerLimits.HostLimitHoldsInEveryRun` | server/pkg/service/task_queue_manager.go:232-314 | with repeat-free lists and a limit of at least one, no host's counter ever passes its limit in any run, put-backs and cancelled tasks included; in orderly runs no host runs more tasks than its limit |
| `Progress.FoldAgreesExactly` | server/pkg/service/task_service.go:1426-1450 | for every group order four counts equal the row counts, and the failed count does, and the five add up to the rows, exactly when at most one failure status occurs |
| `Progress.FoldIsDeterminateExactly` | server/pkg/service/task_service.go:1426-1450 | the counts are the same for all group orders exactly if all failure statuses that occur, occur equally often |
| `Progress.StatusesAgreeExactly` | server/pkg/service/task_service.go:1465-1483 | for a right total the grouped and the row-wise status decisions coincide exactly if a row is pending or running, or a canceled row and two kinds of failure occur together, or neither does |
| `Progress.ThreeComputationsAgree` | server/pkg/service/task_service.go:716-781 | without canceled rows and with at most one kind of failure all three computations give the same counts and status |
| `Progress.MixedFailuresNeverFinish` | server/pkg/service/task_service.go:1437-1440 | a task whose hosts are all done but failed in two ways is never seen as finished by the grouped computation |
| `Progress.TaskRecord.UpdateProgress` | api/models/task.go:127-168 | the nested counting loops compute the row counts, and the status and times follow from them |
| `Progress.CountRows` | api/models/task.go:133-147 | the nested loops count completed, failed (three statuses) and running rows of all commands |
| `Progress.AllRowsAdd` | api/models/task.go:133-147 | the rows counted are those of all commands, however they are divided among these |
| `Completion.DecisionExactly` | server/pkg/service/task_service.go:1465-1483 | with a right host total the decided status is a function of which statuses occur among the rows: finished exactly if nothing is pending or running and the rows fail in one way at most, then canceled before failed before completed |
| `Completion.CompletedExactly` | server/pkg/service/task_service.go:1465-1473 | a task is decided completed exactly when every one of its hosts has completed |
| `Completion.LastResultFinishesTask` | server/pkg/service/task_service.go:1223-1285 | when all other hosts have completed, the last host's final result finishes the task as completed or failed by its exit code, with the right counts |
| `TableEffects.ResultColumns` | server/pkg/service/task_service.go:1223-1285 | a result writes both its times to the command and the rows on its host, statuses by exit code when finished, running when only started, and then only the task's progress; nothing if command or task is unknown |
| `TableEffects.ReadColumns` | server/pkg/service/task_service.go:681-786 | what a status read writes: the counts of the rows, of one failure status if any failed, and status and times from them |
| `TableEffects.ErrorColumns` | server/pkg/service/task_service.go:2188-2235 | a reported execution error fails command and row at the time of the call, and then only progress changes |
| `TableEffects.RetryColumns` | server/pkg/service/task_service.go:2238-2320 | a retry of a failed or timed-out command makes it and its rows pending without times, and then only progress changes |
| `TableEffects.StatusColumns` | server/pkg/service/task_service.go:1624-1667 | a status update writes the status, the row status that stands for it, and the start time when it starts to run |
| `TableEffects.UndeliveredColumns` | server/pkg/service/task_service.go:527-545 | a failed delivery writes the two statuses and no time |
| `Completion.StoppedStaysStoppedExactly` | server/pkg/service/task_service.go:548-578 | whether a stopped task stays canceled after a result, from the rows before the call with the result's status in its row: if all are finished and fail in one way at most, exactly if one is canceled; otherwise exactly if none is running or completed |
| `Completion.ReadRevivesStoppedExactly` | server/pkg/service/task_service.go:681-786 | the same for merely reading the status of a task just stopped; while one of its hosts is still running, the read makes the task running again |
| `LifecycleInvariants.SetBothCoupled` | server/pkg/service/task_service.go:1624-1667 | updating both status columns keeps them coupled when the selections and the statuses correspond |
| `LifecycleInvariants.SetStatusKeeps` | server/pkg/service/task_service.go:1624-1667 | a plain status update keeps links and coupling for every status |
| `LifecycleInvariants.StartKeeps` | server/pkg/service/task_service.go:367-426 | starting a task keeps links and coupling |
| `LifecycleInvariants.DispatchFailedKeeps` | server/pkg/service/task_service.go:527-545 | a failed delivery keeps links and coupling |
| `LifecycleInvariants.CancelKeeps` | server/pkg/service/task_service.go:581-640 | canceling keeps links and coupling although it selects commands and rows by separate conditions |
| `LifecycleInvariants.ConnectionLostKeeps` | server/pkg/service/task_service.go:1552-1580 | a lost connection keeps links and coupling although each table is selected by its own status |
| `LifecycleInvariants.AgentDisconnectedKeeps` | server/pkg/service/task_service.go:2122-2184 | an agent's disconnection keeps links and coupling, progress updates included |
| `LifecycleInvariants.RetryKeeps` | server/pkg/service/task_service.go:2238-2284 | a retry keeps links and coupling |
| `LifecycleInvariants.ResultKeepsCouplingExactly` | server/pkg/service/task_service.go:1248-1285 | a result keeps the coupling exactly when it names the command's own host, an unknown command, or no status other than the command's |
| `LifecycleInvariants.ExecutionErrorKeepsCouplingExactly` | server/pkg/service/task_service.go:2188-2213 | a reported execution error keeps the coupling exactly under the corresponding condition |
| `LifecycleStructure.CreateKeeps` | server/pkg/service/task_service.go:116-159 | creating a task keeps links, coupling and totals; the new total is the number of hosts |
| `TableEffects.CreateColumns` | server/pkg/service/task_service.go:99-163 | for each host one pending command on it with the given limit and exactly one pending row naming it, on the same host, all without times; the task record; and nothing else |
| `TableEffects.AddHostsColumns` | server/pkg/service/task_service.go:946-1021 | the same for added hosts, with the limit of the existing command, and the larger total; refused otherwise |
| `TableEffects.RemoveHostColumns` | server/pkg/service/task_service.go:1027-1072 | exactly the task's commands and rows on the host go, and the total drops by one, not below zero |
| `LifecycleStructure.AddHostsKeeps` | server/pkg/service/task_service.go:969-1016 | adding hosts keeps links, coupling and totals |
| `LifecycleStructure.RemoveKeepsTotalsExactly` | server/pkg/service/task_service.go:1043-1064 | removing a host keeps the totals right exactly when it is refused, the host occurs once in the task, or the task has no commands |
| `LifecycleStructure.DeleteKeeps` | server/pkg/service/task_service.go:320-343 | deleting a task leaves no command or row of it; all other tasks, commands and rows stay as they are |
| `TableEffects.DeleteColumns` | server/pkg/service/task_service.go:309-351 | exactly the task, its commands and their rows go; a running task is refused |
| `TableEffects.CleanupColumns` | server/pkg/service/database_optimizer.go:187-227 | which tasks, commands and rows the cleanup leaves, unchanged |
| `LifecycleStructure.CleanupKeeps` | server/pkg/service/database_optimizer.go:187-227 | the three-stage cleanup removes exactly the expired tasks with all their commands and rows |
| `Timeouts.ProductExactly` | server/pkg/service/timeout_monitor.go:140 | the 64-bit product of seconds and nanoseconds is exact exactly up to 9223372036 seconds |
| `Timeouts.TimedOutMeans` | server/pkg/service/timeout_monitor.go:127-143 | up to that limit a command is timed out exactly if it has a positive limit, has started and has run longer |
| `Timeouts.TimedOutExactly` | server/pkg/service/timeout_monitor.go:127-143 | for a positive 64-bit limit the check is right at all times exactly when the limit is at most 9223372036 seconds |
| `Timeouts.WrappedTimeout` | server/pkg/service/timeout_monitor.go:139-142 | just beyond that limit a command counts as timed out the moment it starts |
| `Timeouts.LateStaysLate` | server/pkg/service/timeout_monitor.go:127-143 | being timed out is monotone in time |
| `Timeouts.SweepExactly` | server/pkg/service/timeout_monitor.go:101-197 | a sweep moves exactly the late commands and their rows to the timed-out statuses, keeps links and coupling and leaves no late command |
| `TableEffects.TimeOutColumns` | server/pkg/service/timeout_monitor.go:156-197 | handling one command ends it and its rows as timed out at the given time, and then only its task's progress changes |
| `TableEffects.LateMeans` | server/pkg/service/timeout_monitor.go:101-143 | a command is late exactly if it runs, has a positive limit below 9223372037 seconds and has passed it |
| `Sweeps.RecordsAfterSweep` | server/pkg/service/timeout_monitor.go:146-197 | after a sweep a task's record follows from the group orders that the queries for its own commands found, one by one, and from nothing else of the sweep |
| `Sweeps.SweepOrderDoesNotMatter` | server/pkg/service/timeout_monitor.go:146-153 | two visiting orders leave the same tables, task records included, if the queries for the commands of one task find the same group order |
| `Sweeps.SweepIsDeterminateExactly` | server/pkg/service/timeout_monitor.go:101-197 | with right totals, what a sweep leaves is the same for all visiting orders and all group orders exactly if, in every task with late commands, the rows failed in each other way are none or as many as those then timed out |
| `LifecycleRuns.TablesStayCoupledInEveryRun` | server/pkg/service/task_service.go:1624-1667 | after every run of the eighteen transactions, in which others may come between the handlings of a sweep, each command has exactly one row, on its own host, whose status stands for the command's, and no record is orphaned |
| `LifecycleRuns.TasksStartAtMostOnceInEveryRun` | server/pkg/service/task_service.go:367-392 | in every run StartTask succeeds at most once for each task, which never becomes pending again |
| `LifecycleRuns.TotalsStayRightInEveryRun` | server/pkg/service/task_service.go:116-159 | after every run in which hosts are only removed where they occur once, or from tasks without commands, each task's total is the number of its commands |
| `LifecycleRuns.CancelExactly` | server/pkg/service/task_service.go:581-640 | canceling leaves none of the task's commands and rows open, changes no finished one and nothing of other tasks |
| `TableEffects.StartColumns` | server/pkg/service/task_service.go:367-426 | a pending task runs from the given time, and its commands and rows are pending again, their times kept; nothing else changes |
| `TableEffects.StopColumns` | server/pkg/service/task_service.go:548-578 | a running task is canceled at the given time, and no other record changes |
| `TableEffects.CancelColumns` | server/pkg/service/task_service.go:581-640 | an unfinished task and its pending and running commands and rows are canceled at the given time; nothing else changes |
| `TableEffects.ConnectionColumns` | server/pkg/service/task_service.go:1552-1580 | a lost connection fails what runs on the host, without a time, and changes nothing else |
| `TableEffects.DisconnectionColumns` | server/pkg/service/task_service.go:2122-2184 | a disconnection fails what is pending or runs on the host at the given time, and rewrites the progress of exactly the tasks with a failed command there |
| `Service.TaskService.CreateTask` | server/pkg/service/task_service.go:99-163 | the loop over the hosts creates the task with one pending command and row each |
| `Service.TaskService.AddTaskHosts` | server/pkg/service/task_service.go:946-1021 | refused without the task, while it runs or without an existing command; else commands, rows and the new total |
| `Service.TaskService.RemoveTaskHost` | server/pkg/service/task_service.go:1027-1072 | rows, then commands of the host in the task go; the total drops by one, not below zero |
| `Service.TaskService.DeleteTask` | server/pkg/service/task_service.go:309-351 | refused for a running task; else rows, commands and task go |
| `Service.TaskService.CleanupOldRecords` | server/pkg/service/database_optimizer.go:187-227 | the three stages in sequence have the effect of the model's cleanup |
| `Service.TaskService.StartTask` | server/pkg/service/task_service.go:367-426 | succeeds exactly for a pending task; resetting command by command, in any order, resets all of them and their rows |
| `Service.TaskService.StopTask` | server/pkg/service/task_service.go:548-578 | succeeds exactly for a running task, whose record alone changes, to canceled; no command or row does |
| `Service.TaskService.CancelTask` | server/pkg/service/task_service.go:581-640 | succeeds exactly for an unfinished task, with the effect described by CancelExactly |
| `Service.TaskService.CountGroups` | server/pkg/service/task_service.go:1426-1450 | the switch over the groups computes the fold, in the order in which the groups come |
| `Service.TaskService.WriteProgress` | server/pkg/service/task_service.go:1403-1500 | counts, status and times of one task are rewritten as decided; false if there is no such task |
| `Service.TaskService.GetTaskStatus` | server/pkg/service/task_service.go:681-786 | reading a status writes the progress, keeping a recorded finishing time |
| `Service.TaskService.UpdateCommandDispatchFailed` | server/pkg/service/task_service.go:527-545 | the command and its rows go to their failed statuses; no task and no other record changes |
| `Service.TaskService.UpdateCommandStatus` | server/pkg/service/task_service.go:1624-1667 | the switch writes the row status that stands for the command status, and the start time for a running one |
| `Service.TaskService.HandleCommandResult` | server/pkg/service/task_service.go:1223-1345 | statuses and times from the result, then progress; everything rolled back if the command or its task is unknown |
| `Service.TaskService.HandleCommandExecutionError` | server/pkg/service/task_service.go:2188-2235 | command and row fail, then progress; rolled back if the command or its task is unknown |
| `Service.TaskService.RetryFailedCommand` | server/pkg/service/task_service.go:2238-2320 | accepted exactly for a failed or timed-out command, which is reset with its rows |
| `Service.TaskService.HandleHostConnectionChange` | server/pkg/service/task_service.go:1552-1580 | only a disconnection changes the tables: no command or row on the host is left running, and no record that was not running on it changes |
| `Service.TaskService.HandleAgentDisconnection` | server/pkg/service/task_service.go:2122-2184 | open records on the host fail and the progress of every task with a failed command there is updated, in any order of tasks and, for each, of its groups |
| `Service.TimeoutMonitor.CheckTimeouts` | server/pkg/service/timeout_monitor.go:101-124 | the filter lists exactly the late commands and each is handled once, its progress query finding groups in an order of its own |
| `Service.TimeoutMonitor.FindTimeouts` | server/pkg/service/timeout_monitor.go:113-118 | the filtering loop keeps exactly the timed-out commands, each once |
| `Service.TimeoutMonitor.HandleSingleTimeoutCommand` | server/pkg/service/timeout_monitor.go:156-197 | one command, its rows and its task's progress; rolled back if the task is unknown |
| `BatchWrites.BatchIsSequenceExactly` | server/pkg/service/database_optimizer.go:88-135 | a batch leaves the rows of its updates written one by one, for all rows and all iteration orders, exactly when each group writes only what its commands' own updates leave and the groups together write all of it |
| `BatchWrites.BatchOfDifferentCommandsExactly` | server/pkg/service/database_optimizer.go:88-135 | if no command repeats, that holds exactly when updates sharing status and error message share their other fields |
| `BatchWrites.StatusColumnExactly` | server/pkg/service/database_optimizer.go:97-126 | the status column alone agrees exactly when no command gets two different statuses in one batch |
| `BatchWrites.KeysDifferExactly` | server/pkg/service/database_optimizer.go:98 | two keys are equal exactly when status and error message are, because no status contains the separator |
| `BatchWrites.StatusesCollideExactly` | server/pkg/service/database_optimizer.go:98 | two different statuses can meet in one key exactly if one is the beginning of the other up to a separator |
| `BatchWrites.NamedStatusesArePlain` | api/models/command_host.go:11-17 | updates with the statuses the program has never meet in one key unless status and error are equal: none of the names contains the separator |
| `BatchWrites.OneByOneConcat` | server/pkg/service/database_optimizer.go:88-183 | writing one list and then another is writing their concatenation |
| `BatchWrites.LastWriteWins` | server/pkg/service/database_optimizer.go:88-183 | written one by one, a column of a row ends up with the value of the last update of its command that sets it |
| `BatchWrites.UnsetColumnStays` | server/pkg/service/database_optimizer.go:88-183 | a column that no update of the command sets keeps its value |
| `BatchWrites.LastGroupWins` | server/pkg/service/database_optimizer.go:97-135 | in a batch, a column of a row ends up with the value of the last update of the group written last among those that hold the command and set the column |
| `BatchWrites.LastWithIsLast` | server/pkg/service/database_optimizer.go:94-102 | the fields a group writes are those of its last update |
| `BatchProcessor.StatusTable.BatchUpdateStatus` | server/pkg/service/database_optimizer.go:88-183 | grouping into maps and writing group by group, in any iteration order, is the model's batch, and equals the sequence if the updates are agreeable |
| `BatchProcessor.GroupUpdates` | server/pkg/service/database_optimizer.go:94-102 | the two maps hold each group's commands and its last update |
| `BatchProcessor.UpdateFields` | server/pkg/service/database_optimizer.go:107-123 | each of the five columns is set exactly if its value is given, to that value |
| `BatchProcessor.ConservedInEveryRun` | server/pkg/service/task_service.go:2475-2531 | after every event of every run the flushed batches followed by the buffer are the consumed updates of the kind in order, batches hold 1 to batchSize updates, and the buffer is shorter than a batch |
| `BatchProcessor.RowsInEveryRun` | server/pkg/service/task_service.go:2475-2554 | if every flushed batch is agreeable, writing the buffered updates to the rows one by one gives the rows of all consumed updates written one by one |
| `BatchProcessor.TickFlushesAll` | server/pkg/service/task_service.go:2519-2528 | after every run that ends in a tick the buffer is empty and the batches are all consumed updates; if they are agreeable, the rows are those of all consumed updates written one by one |
| `BatchProcessor.FullBatchesWithoutTicks` | server/pkg/service/task_service.go:2482-2518 | without ticks every flushed batch holds exactly batchSize updates |
| `BatchProcessor.HandledExactly` | server/pkg/service/task_service.go:2482-2529 | one event adds its update to the buffer of its kind; the buffer goes into a batch exactly if it is full or, on a tick, not empty |
| `BatchProcessor.BatchUpdateProcessor.Handle` | server/pkg/service/task_service.go:2482-2529 | a tick empties both buffers; a queued update joins the buffer of its kind, which is flushed exactly when full, for both kinds independently |
| `ConnectionPools.StaysConnectedExactly` | server/pkg/controller/grpc_task_controller.go:107-173 | over runs that neither add nor remove it, an agent stays pooled exactly if every health check heard of it in time; a later ping does not bring it back |
| `ConnectionPools.ConnectionPool.AddConnection` | server/pkg/controller/grpc_task_controller.go:54-78 | one connection per agent: the new one is pooled and active, the old one canceled |
| `ConnectionPools.ConnectionPool.RemoveConnection` | server/pkg/controller/grpc_task_controller.go:81-92 | the agent's connection is canceled and leaves the pool; all connections outside the pool are canceled |
| `ConnectionPools.ConnectionPool.GetConnection` | server/pkg/controller/grpc_task_controller.go:95-104 | found exactly if pooled: the activity filter never hides a connection |
| `ConnectionPools.ConnectionPool.UpdateLastPing` | server/pkg/controller/grpc_task_controller.go:107-115 | a ping is recorded exactly for a pooled agent |
| `ConnectionPools.ConnectionPool.GetActiveConnections` | server/pkg/controller/grpc_task_controller.go:118-129 | the active connections are all pooled ones |
| `ConnectionPools.ConnectionPool.CheckConnectionHealth` | server/pkg/controller/grpc_task_controller.go:148-173 | the two passes leave exactly the agents whose last ping is within the timeout, and every dropped connection is canceled |
| `ConnectionPools.ConnectionPool.Stop` | server/pkg/controller/grpc_task_controller.go:176-190 | the pool is empty and every connection ever made is canceled |
| `ConnectionPools.ConnectionPool.DisconnectAgent` | server/pkg/controller/grpc_task_controller.go:476-497 | succeeds exactly for a pooled agent, whose connection is canceled and dropped |
| `LoadMonitor.MeasuredInRange` | server/pkg/service/system_load_monitor.go:108-186 | with allocated memory within the reserved, CPU, memory and system load lie in 0..100 |
| `LoadMonitor.MeasuredExactly` | server/pkg/service/system_load_monitor.go:108-186 | the memory share in percent, and the two weighted sums capped at 100 |
| `LoadMonitor.RecentIsSuffix` | server/pkg/service/system_load_monitor.go:254-268 | of a chronological history the returned snapshots are a suffix, cut exactly at the moment asked for |
| `LoadMonitor.Statistics` | server/pkg/service/system_load_monitor.go:271-354 | minimum and maximum are attained bounds, the average is the sum over the count, and lies between them |
| `LoadMonitor.RecommendedInRange` | server/pkg/service/system_load_monitor.go:398-414 | the recommendation lies in 1..max and never rises with the load |
| `LoadMonitor.RecommendedExactly` | server/pkg/service/system_load_monitor.go:398-414 | the largest number of tasks that the free share of the load allows, counting a tenth as free at least, and never below one |
| `LoadMonitor.SystemLoadMonitor.AddToHistory` | server/pkg/service/system_load_monitor.go:189-196 | the history is always the last snapshots ever taken, up to its maximal size |
| `LoadMonitor.SystemLoadMonitor.GetLoadHistory` | server/pkg/service/system_load_monitor.go:254-268 | the loop returns the snapshots after the cutoff in order |
| `HostAdmission.ApprovedExactlyInEveryRun` | server/pkg/service/host_service.go:417-468 | after every run a host is approved exactly if a successful approval, or being approved at the start, has not been followed by its deletion |
| `HostAdmission.StaysDisjointExactly` | server/pkg/service/host_service.go:461-465 | pending and approved stay disjoint over a step exactly unless an approval fails to delete the pending entry |
| `HostAdmission.TableColumns` | server/pkg/service/host_service.go:116-172 | deleting and updating a host change only its own record, and an update keeps its admission |
| `HostAdmission.DisjointInEveryRun` | server/pkg/service/host_service.go:39-70 | pending and approved are disjoint after every run whose approvals delete their entries |
| `HostAdmission.StepFirstSeen` | server/pkg/service/host_service.go:308-342 | a host that stays pending keeps its first registration time except in a registration that fails to read the list but writes to it |
| `HostAdmission.FirstSeenAtBlind` | server/pkg/service/host_service.go:308-342 | over every run in which a host stays pending, its first registration time is that of the last registration that failed to read the list but wrote to it |
| `HostAdmission.FirstSeenInEveryRun` | server/pkg/service/host_service.go:308-342 | if there was no such registration, the time is the one from the start |
| `HostAdmission.HostService.RegisterHost` | server/pkg/service/host_service.go:39-70 | an approved host is updated, a pending one updated or a new one listed, depending on which accesses succeed; an error changes nothing |
| `HostAdmission.HostService.ApproveHost` | server/pkg/service/host_service.go:417-468 | succeeds exactly for a readable pending host and approves it even if the pending entry cannot be deleted |
| `HostAdmission.HostService.RejectHost` | server/pkg/service/host_service.go:471-488 | a pending host is dropped, and the table of hosts untouched |
| `HostAdmission.HostService.ReportHostStatus` | server/pkg/service/host_service.go:507-561 | a report is accepted exactly for an approved host and changes no admission |

## Left out

- The RoundRobin and WeightedRoundRobin choice of a worker, which takes the clock modulo the number of workers.
- Queued tasks are values: the one pointer that queue, running map, channel and worker share is not modelled. The only field that changes is the retry counter, raised in the step that also takes the task out of the running map.
- Goroutine scheduling and shutdown: each lock-held method is one step, and a spinning pass one step for each round.
- Lock re-entrancy: with adaptive throttling the program reads the load under the lock that it already holds, which blocks a Go lock; the model reads it.
- SchedulerRuns.QueuePassIsCleanInEveryRun: for orderly runs and channels that hold the highest cap; SpinIsReachableExactly, BrokenOrderIsReachableExactly, ScanIsPass and PassKeepsOrderExactly say what happens with less room.
- SchedulerRuns.HostsAreAccountedInEveryRun: for orderly runs; FinishCancelledExactly, CancelledRunFails and HostsAreNeverOverchargedInEveryRun say what happens otherwise.
- SchedulerRuns.TasksAreConservedInEveryRun: for orderly runs; TasksAreKeptInEveryRun says what is kept in any run.
- SchedulerLimits.HostLimitHoldsInEveryRun: for repeat-free lists; ChargedLimitsExactly says exactly what happens otherwise.
- LifecycleRuns.TablesStayCoupledInEveryRun: assumes that results name the command's own host; ResultKeepsCouplingExactly says exactly what happens otherwise.
- Service.TimeoutMonitor.CheckTimeouts: the whole sweep is one step with one clock reading; the program reads the clock again for each command. The runs of LifecycleRuns have the handling of one command, at a time of its own, as a step too.
- Service.TaskService.CleanupOldRecords: the old entries of the command-result table, which are deleted besides, are not modelled.
- Service.TaskService.GetTaskStatus: the answer from the cache and the returned map are not modelled, only what a read writes.
- Service.TaskService.HandleCommandResult: the entry in the command-result table and the output columns are not modelled.
- ConnectionPools.ConnectionPool.DisconnectAgent: one step, although the program cancels the context before it takes the lock for the removal; the identity of streams is not modelled, removal is by agent; the notice to the task service is left out, which HandleHostConnectionChange models.
- The columns stdout, stderr, exit code and error text of commands and rows (error text and exit code appear in the batched writes), the update times, and the table of command results.
- Soft deletion, NULL comparisons beyond a missing task ID, and any SQL error: deletes are physical and statements succeed.
- `UpdateTask` with an arbitrary field map, which can write anything.
- A batch update whose queue is full is written at once; that path is a batch of one.
- Sending commands to agents, the status and the result streams, and everything an agent does.
- The task and host caches, audit logs, statistics, pagination, alerts and log search.
- Failures of the host table's database; HostAdmission models failures of the pending list only.
- Rounding of floating-point percentages: loads are reals.
- Small accessors such as Duration, SuccessRate and the task builder, which would only add easy members.
