# A Dafny model of buildkit-service

buildkit-service runs image builds over a pool of buildkitd workers. This
project models the parts in which it is easy to be wrong and proves what they
promise:

- **The build daemon's protocol** (`Tasks`, `Ledger`, `TaskQueue`, `BuildModes`,
  `Daemon`, `Semaphores`, `Ownership`, `Lifecycle`, `RunnerCalls`,
  `DaemonTheorems`, `Visibility`, `Occupancy`, `Reachability`, `Crowding`,
  `Reaping`, `Progress`, `History`, `Retries`, `Placement`, `Timeline`,
  `Cancellation`, and `Sums` for adding up a map). The daemon is a transition
  system: one event is one critical section of the task store, one semaphore or
  queue operation, one pool replacement or one return of the build runner, by
  any goroutine in any order. Slot objects have identity and a count. Four
  inductive invariants (`SemOk`, `OwnOk`, `LifeOk`, `CallInv`) over the ledger
  invariant `BookOk` hold in every state of every run, and the theorems follow
  from them.
- **Worker selection** (`Sorting`, `HashRing`, `HashRingGrowth`, `AddrPool`): the
  ring with virtual nodes, its binary search and clockwise walk, and the pool
  that is replaced while its slots are occupied.
- **The batch build and retry engine** (`Batch`, `BatchInvariants`,
  `BatchTheorems`, `BatchOrder`, `BatchFlags`, `BatchDropped`, `BatchRepeated`,
  `BatchTruth`, `BatchPlan`, `BatchResume`, `BatchOutcome`, `Targets`): the worker slots and the global slot, the bounded
  retry channel, the wait group, retries of what remains of a job, the result
  store a later run resumes from, and how jobs are grouped and filtered.
- **The heredoc rewriter for Dockerfiles** (`Text`, `Lines`, `Patterns`,
  `Heredoc`, `HeredocForms`, `HeredocLegacy`, `HeredocHeaders`,
  `HeredocRewriter`, `HeredocTheorems`, `HeredocRewrites`, `HeredocIdempotence`).
- **Bounded logs** (`OutputCapture`, `FailureLog`): the circular capture buffer,
  the limited writer, and the failure log trimmed at line boundaries.
- **The rendezvous router** (`TargetRouter`) and **the byte budget of a request**
  (`Admission`).

Code that changes state is a class or a method with loops, proved against a
specification function; goroutines that interleave are a transition system over
their atomic steps. `dafny verify dfyconfig.toml` checks the whole project.

Where the code does less than one might expect, the model keeps the code and
states exactly when the expected property holds:

- The ring walk ends if and only if every node has a replica whose point no
  later node overwrote (`BuiltWalkEndsIff`); with two nodes that hash alike it
  never ends (`CollidingNodesNeverEnd`).
- A new node leaves the order of the old ones as it was, for every key, if and
  only if each ring point it takes over is followed by one of the same owner and
  some old point is left (`GrowthKeepsPreferences`, and `ClashTurnsOrder` for a
  clash that turns two old nodes round). The primary moves only to the new node,
  whatever clashes (`PrimaryMovesOnlyToNewNode`).
- An address has at most as many builds as its concurrency times the slots its
  lists have made, and at most what the daemon runs at once: its mode workers, or
  its global limit (`MostBuilds`); so many can run at once in every daemon
  (`SlotsCanBeFilled`). So its concurrency is respected if and only if at most one
  slot was made or the daemon runs no more builds at once than one slot takes
  (`RespectedIff`): not when it leaves the pool and comes back
  (`GapDoublesCapacity`), nor when it is listed twice (`TwiceListedDoublesCapacity`).
- The reaper loses a task if and only if it comes when a cancellation that is not
  yet concluded is older than the keep time (`NothingLostIff`); no keep time is
  long enough (`ReaperCanLoseATask`).
- A batch run that nobody cancels from outside and that returns no error has
  built everything, fail-fast and store errors included
  (`UncanceledNilMeansDone`). A run canceled at once returns no error with nothing
  built (`InterruptedRunReturnsNil`), so all runs are truthful if and only if
  everything was built before (`NilIsTruthfulIff`).
- That a run that returns no error has built everything exactly if it dropped no
  job holds in all runs if and only if there are no retries or no job ends with a
  target it lists twice (`NilIsReliableIff`, `RepeatedLastTargetMisleads`); it
  holds for every filtered batch of distinct targets (`FilteredRunIsReliable`).
- The two formats of one target are built in one job if and only if its name
  without the suffix needs no trimming and has no second suffix
  (`FormatsShareJob`, `DoubledSuffixSplitsJobs`).
- The capture buffer is marked as truncated by a write that fits exactly
  (`ExactFitIsMarked`).
- A failure record as long as the whole log file is lost at once if the file was
  not empty (`NewestSurvives`).
- A failure record whose write stops halfway is joined by the next one, and if the
  two together do not decode, the whole log cannot be read (`TornLineStopsReading`).
  The log can be read exactly when each surviving line can, and then gives what the
  last surviving line of each target says (`LoadsIff`).
- Routing a routed reference again changes nothing if and only if it is not a
  single-component path at Docker Hub (`RoutingTwice`, `OfficialNameMoves`); from
  the second time on nothing changes (`RoutingSettles`).
- An archive that names one file twice leaves less on disk than its entries hold;
  the budget counts both (`ContentsSize`).
- The last resort of the log truncation, storing the bare suffix, is never
  reached: the search has tried it before (`TruncatePayload`).

## Model

| member | source | states |
|---|---|---|
| Tasks.TaskClosuresKeepShape | internal/builddaemon/tasks.go:367-490 | every store closure keeps the shape of a task (finished iff terminal, no worker while queued, a worker while running) and none changes a terminal status |
| Tasks.TaskStore.constructor | internal/builddaemon/tasks.go:90-92 | the store starts empty |
| Tasks.TaskStore.Add | internal/builddaemon/tasks.go:94-98 | exactly the one task is added |
| Tasks.TaskStore.Get | internal/builddaemon/tasks.go:106-114 | the stored task, or nothing when there is none |
| Tasks.TaskStore.Cancel | internal/builddaemon/tasks.go:164-179 | a live task becomes canceled and its context is to be canceled; any other task and all other entries stay as they are |
| Tasks.TaskStore.MarkTaskQueued | internal/builddaemon/tasks.go:429-444 | a live task shows queued and no worker; a terminal one is untouched |
| Tasks.TaskStore.Assign | internal/builddaemon/tasks.go:367-391 | assignment succeeds exactly for a stored task that is neither canceled nor observed, and keeps the first start time |
| Tasks.TaskStore.Finish | internal/builddaemon/tasks.go:460-480 | a task is finished once: not when observed, and a canceled one only as canceled |
| Tasks.TaskStore.Delete | internal/builddaemon/tasks.go:181-191 | exactly the one entry goes |
| Tasks.TaskStore.DeleteExpired | internal/builddaemon/tasks.go:193-209 | exactly the entries whose keep time is over go, in whatever order the map is walked |
| Ledger.BookKept | internal/builddaemon/tasks.go:460-490 | every store and counter operation keeps the ledger: store and observations agree, admitted tasks are partitioned, counters count observations; and no operation goes back |
| Ledger.Conservation | internal/builddaemon/tasks.go:460-490 | admitted tasks = unobserved + observed and not yet counted + succeeded + failed + canceled + lost |
| TaskQueue.FifoKept | internal/builddaemon/mode_scheduler.go:204-236 | push, pop and close keep: what was handed out is a prefix of what was pushed, an open queue holds the rest |
| TaskQueue.BuildTaskQueue.constructor | internal/builddaemon/mode_scheduler.go:198-202 | a new queue is open and empty |
| TaskQueue.BuildTaskQueue.PushId | internal/builddaemon/mode_scheduler.go:204-213 | appends, or refuses exactly when closed |
| TaskQueue.BuildTaskQueue.PopId | internal/builddaemon/mode_scheduler.go:215-228 | hands out the oldest id, or nothing exactly when closed |
| TaskQueue.BuildTaskQueue.CloseQueue | internal/builddaemon/mode_scheduler.go:230-236 | drops what is queued and hands out nothing more |
| Sums.TotalWithout | internal/builddaemon/mode_scheduler.go:57-72 | the sum of mode concurrencies does not depend on the order the map is walked in |
| BuildModes.CheckModes | internal/builddaemon/mode_scheduler.go:57-72 | modes are accepted if and only if names and concurrencies are valid, the default exists and the sum fits the limit |
| BuildModes.WorkerCount | internal/builddaemon/mode_scheduler.go:136-157 | exactly as many workers are started as the concurrencies sum up to |
| Semaphores.NextKeepsSem | internal/builddaemon/scheduler.go:27-72 | every event keeps: each semaphore's count is the number of its holders and within capacity |
| Ownership.NextKeepsOwn | internal/builddaemon/mode_scheduler.go:159-236 | every event keeps: each admitted task is in one queue position, with one goroutine or with the admission handler, and its done channel is open until its owner closes it |
| Lifecycle.NextKeepsLife | internal/builddaemon/tasks.go:261-340 | every event keeps: done channels are closed only for ended tasks, canceled unobserved tasks are awaited, the sweep settles what it passed, retained tasks are within the limit |
| RunnerCalls.NextKeepsCalls | internal/builddaemon/tasks.go:298-427 | every event keeps the runner-call discipline of every task |
| RunnerCalls.CallBound | internal/builddaemon/tasks.go:298-339 | calls that are pairwise different, in range and in order number at most steps × (retry + 1) × addresses |
| DaemonTheorems.RunInv | internal/builddaemon/tasks.go:261-427 | all invariants hold in every state of every run |
| DaemonTheorems.RunAdvances | internal/builddaemon/tasks.go:153-209 | over any stretch of a run no task is revived, re-observed or re-admitted, and a start time and the finish time of an observed task never change |
| DaemonTheorems.SemaphoresCountHolders | internal/builddaemon/scheduler.go:27-72 | in every state the global and each slot semaphore count exactly their holders, never exceed capacity, a release never blocks, and with no attempt under way nothing is held |
| DaemonTheorems.NoDeadlock | internal/builddaemon/tasks.go:342-427 | while any goroutine works on a task, some goroutine can step without giving up |
| DaemonTheorems.WaiterCanStep | internal/builddaemon/scheduler.go:39-72 | with a waiting attempt and no occupied worker slot, an acquiring attempt can step, stale snapshots included |
| DaemonTheorems.ModeWorkerNeverWaitsForGlobal | internal/builddaemon/scheduler.go:27-37 | with explicit modes and a positive limit a mode worker always finds room at the global semaphore |
| DaemonTheorems.TerminalIsFinal | internal/builddaemon/tasks.go:164-209 | over all runs a terminal status is final, an observation is made once, a deleted task stays away |
| DaemonTheorems.StatusShape | internal/builddaemon/tasks.go:367-490 | in every state a stored task is finished iff terminal, shows no worker while queued and one while running, and is observed iff recorded so |
| DaemonTheorems.TasksConserved | internal/builddaemon/tasks.go:460-490 | in every state the admitted tasks add up, and every task deleted unobserved was canceled |
| DaemonTheorems.CanceledTaskIsAwaited | internal/builddaemon/server.go:110-119 | a canceled unobserved task still has a cancel handler or the shutdown sweep at it |
| DaemonTheorems.RetainedWithinLimit | internal/builddaemon/build_request.go:32-38 | the store never holds more tasks than configured |
| DaemonTheorems.SweepLeavesNothingLive | internal/builddaemon/run.go:67-74 | after the shutdown sweep every task it found live is terminal and observed, or gone |
| DaemonTheorems.RingOrderIsOrder | internal/builddaemon/scheduler.go:233-250 | what the ring computes is one of the orders in which the protocol tries a snapshot |
| DaemonTheorems.QueuesAreFifo | internal/builddaemon/mode_scheduler.go:191-236 | in every state each queue handed out a prefix of its pushes, and no id was pushed twice, to any mode |
| DaemonTheorems.NothingAfterClose | internal/builddaemon/mode_scheduler.go:215-236 | over any run a closed queue hands out nothing more |
| DaemonTheorems.DoneClosedOnce | internal/builddaemon/tasks.go:261-268 | in every run a done channel is closed at most once, only for an ended task and never while a goroutine still works on it |
| DaemonTheorems.RunnerCallDiscipline | internal/builddaemon/tasks.go:298-427 | one attempt never calls the runner twice on one address, a step starts only after the earlier one was built, and a task's calls are bounded |
| DaemonTheorems.SuccessMeansAllStepsBuilt | internal/builddaemon/tasks.go:300-340 | a task observed as succeeded had every step built |
| DaemonTheorems.FailoverShrinks | internal/builddaemon/tasks.go:413-426 | each failover strictly shrinks the addresses an attempt may still try |
| Visibility.BuilderIsShown | internal/builddaemon/tasks.go:365-391 | the worker shown for a task being built is the one whose slot its builder holds |
| Visibility.RunningIsOwned | internal/builddaemon/tasks.go:365-391 | a task shown as running has exactly one goroutine, and it is past its assignment |
| Occupancy.SoleSlotKept | internal/builddaemon/scheduler.go:130-157 | a replace that lists an address once keeps its one slot the only one |
| Occupancy.AddressWithinCapacity | internal/builddaemon/scheduler.go:130-157 | an address that stays in the pool never has more builds than its concurrency |
| Crowding.RunCounted | internal/builddaemon/scheduler.go:130-157 | in every state of every run the slots of an address are as many as its lists made: one for each listing whenever it comes in anew |
| Crowding.BuildsWithinSlots | internal/builddaemon/scheduler.go:130-157 | in every state of every run the builds on an address are at most its concurrency times the slots made for it |
| Crowding.MostBuilds | internal/builddaemon/scheduler.go:27-157 | in every state of every run the builds on an address are also at most what the daemon runs at once: its mode workers, or its global limit |
| Crowding.SlotsCanBeFilled | internal/builddaemon/scheduler.go:27-157 | for every daemon and every sequence of address lists there is a run with exactly those refreshes in which that bound is reached, each of the builds with the runner called |
| Crowding.RespectedIff | internal/builddaemon/scheduler.go:27-157 | for every daemon, all runs with given lists keep an address within its concurrency iff the lists make at most one slot for it or the daemon runs no more builds at once than one slot takes |
| Crowding.GapDoublesCapacity | internal/builddaemon/scheduler.go:130-157 | for every concurrency, a run in which an address that was dropped and listed again has twice as many builds |
| Crowding.TwiceListedDoublesCapacity | internal/builddaemon/scheduler.go:130-157 | the same, without a refresh, for an address listed twice at the start |
| Reaping.OnlyReapLoses | internal/builddaemon/tasks.go:181-209 | no event but the reaper's loses a task |
| Reaping.ReaperLoses | internal/builddaemon/tasks.go:193-209 | the reaper loses a task iff its time is up while a handler or the sweep has yet to conclude its cancellation |
| Reaping.NothingLostIff | internal/builddaemon/tasks.go:193-209 | a run has lost no task iff at no visit of the reaper a cancellation still to be concluded was older than the keep time |
| Reaping.ReaperCanLoseATask | internal/builddaemon/tasks.go:193-209 | for every configuration and keep time, a run in which the reaper deletes an unobserved canceled task |
| Progress.DecisionCosts | internal/builddaemon/tasks.go:298-340 | what follows an attempt ends the task or uses up a step, a retry or a worker not yet excluded; which of these is `Retries.AttemptDecided` |
| Progress.OwnStepWeighs | internal/builddaemon/tasks.go:261-427 | every step of a goroutine lowers a measure over the steps, retries and workers its task still has |
| Progress.OwnStepsEnd | internal/builddaemon/tasks.go:261-427 | in every run, with a bound on the pool, a stretch of goroutine steps alone is no longer than that measure |
| Progress.RunRetired | internal/builddaemon/mode_scheduler.go:181-189 | in every state a mode worker has left only a closed queue |
| Progress.GoroutinesFinish | internal/builddaemon/tasks.go:261-427 | from every reachable state goroutine steps alone, none giving up, lead to a state in which no goroutine is busy and every open queue is empty |
| Retries.AttemptDecided | internal/builddaemon/tasks.go:311-334 | in every run, after an attempt that did not build and with the context alive, the task is given up as failed iff no failover is possible and the error is deterministic or the retries are used up; a failover goes on without the failed worker, any other with the next attempt and all workers; a built step leads to the next one, an ended context to a canceled task |
| Retries.StepDecided | internal/builddaemon/tasks.go:261-310 | in every run a task that is gone or canceled is closed without an attempt, a task succeeds iff no step is left, and every other step is attempted unless its build context cannot be made |
| Retries.FailureHasCause | internal/builddaemon/tasks.go:277-334 | a goroutine about to conclude its task as failed could not open the log, could not make a build context, or had an attempt fail without hope or retries left |
| Retries.ObservedFailureHasCause | internal/builddaemon/tasks.go:277-334 | every task ever observed as failed was given up for one of these reasons |
| Retries.CancellationHasCause | internal/builddaemon/tasks.go:311-327 | a goroutine concludes its task as canceled only when the context has ended |
| Retries.WaitGivenUp | internal/builddaemon/scheduler.go:27-72 | a wait for a semaphore or the next attempt is given up only when the context has ended |
| Retries.ObservedByOwner | internal/builddaemon/tasks.go:460-480 | a task is observed as succeeded or failed only by its own goroutine, which came to that end |
| Retries.ConclusionShown | internal/builddaemon/tasks.go:460-480 | a goroutine's conclusion is shown with its time and observed, unless the task was canceled or observed before |
| Retries.RetriesAreMade | internal/builddaemon/tasks.go:311-334 | for every daemon with a worker and every number of retries there is a run in which one step is called that many times and once more, once for each attempt, and the task is observed as failed |
| Placement.LookupIsLast | internal/builddaemon/scheduler.go:133-138 | an address of the pool is found at its last position |
| Placement.ReplaceIs | internal/builddaemon/scheduler.go:130-149 | an address of the pool keeps the slot it had there last, any other gets a new slot of its own |
| Placement.CandidatesInOrder | internal/builddaemon/scheduler.go:219-250 | the candidates are exactly the workers not excluded, in preference order |
| Placement.TriesSnapshot | internal/builddaemon/scheduler.go:39-46 | the candidates an attempt tries are those of a snapshot of the pool it took, in preference order and without the excluded workers |
| Placement.PassedOverWasFull | internal/builddaemon/scheduler.go:209-217 | over all runs, a candidate that was passed over was full when it was looked at |
| Placement.WaitsOnlyWhenFull | internal/builddaemon/scheduler.go:41-72 | an attempt waits for any of its candidates only after it found each of them full |
| Placement.SlotHadRoom | internal/builddaemon/scheduler.go:41-72 | the slot an attempt gets had room, and was the candidate looked at or one of those waited for |
| Placement.NoWorkerHasCause | internal/builddaemon/scheduler.go:46-49 | an attempt finds no worker only when every worker of the pool it saw was excluded |
| Placement.TasksRunInTheirMode | internal/builddaemon/mode_scheduler.go:148-189 | in every run the workers of a mode work only on tasks that asked for it, and a task's own goroutine only on that task |
| Placement.TaskHandedOver | internal/builddaemon/build_request.go:242-253 | an admitted task gets a goroutine of its own or the last place in its mode's queue, and is refused iff that queue is closed |
| Timeline.StartedOnce | internal/builddaemon/tasks.go:376-382 | in every run the start time of a task, once set, never changes while the task is stored |
| Timeline.StartIsFirstAssignment | internal/builddaemon/tasks.go:365-386 | the start time shown is the time of the first assignment |
| Timeline.FinishTime | internal/builddaemon/tasks.go:164-179 | a finish time that changes becomes the time of an event that cancels or concludes that task, and none of an observed task changes |
| Timeline.KeptLongEnough | internal/builddaemon/tasks.go:181-209 | a stored task goes iff the reaper comes when its keep time is over, or its refused admission deletes it |
| Timeline.NoCallOnceOver | internal/builddaemon/tasks.go:367-391 | once a task is canceled, observed or gone, the runner is not called for it again |
| Timeline.NotAssignedHasCause | internal/builddaemon/tasks.go:366-391 | an attempt is turned away with a worker in hand only when its task is canceled, observed or gone |
| Timeline.LeavingClosesDone | internal/builddaemon/tasks.go:261-269 | a goroutine that leaves its task has closed the done channel exactly once, unless the task is no longer stored |
| Cancellation.CanceledContextEnds | internal/builddaemon/tasks.go:164-179 | in every state the context of a canceled task has ended, or a handler or the sweep is about to end it |
| Cancellation.RefusedIsClosed | internal/builddaemon/build_request.go:247-253 | a task whose admission is refused is observed as canceled and its done channel closed before it is deleted |
| HashRing.NewConsistentHash | internal/builddaemon/scheduler.go:165-176 | the ring is all points in order, and the map's last writer wins |
| HashRing.LastWriterOwns | internal/builddaemon/scheduler.go:167-172 | each point belongs to the last node that has a replica there |
| HashRing.BuiltRingOk | internal/builddaemon/scheduler.go:165-176 | a built ring is sorted and knows an owner below the node count for every point |
| HashRing.SearchRing | internal/builddaemon/scheduler.go:183-183 | the binary search finds the first point not below the key's hash |
| HashRing.GetSlotOrder | internal/builddaemon/scheduler.go:178-198 | the walk ends within a lap and returns the nodes in the order in which a clockwise walk from the key's hash first meets them |
| HashRing.WalkIsFirstMet | internal/builddaemon/scheduler.go:187-197 | the order lists a node before another iff the walk meets it in fewer steps |
| HashRing.AllVisited | internal/builddaemon/scheduler.go:187-197 | the order is a permutation of all nodes |
| HashRing.WalkEndsIffAllSurvive | internal/builddaemon/scheduler.go:189-196 | the loop ends for some number of steps if and only if every node owns a ring point |
| HashRing.NeverMet | internal/builddaemon/scheduler.go:189-196 | a node without a ring point keeps the loop going after any number of steps |
| HashRing.SurvivesIff | internal/builddaemon/scheduler.go:165-176 | in a built ring a node owns a point iff it has a replica that no later node shares |
| HashRing.BuiltWalkEndsIff | internal/builddaemon/scheduler.go:165-198 | the loop on a built ring ends iff every node has a replica that no later node shares |
| HashRing.CollidingNodesNeverEnd | internal/builddaemon/scheduler.go:165-198 | two nodes that hash alike: the loop never ends, for any key and number of steps |
| HashRingGrowth.PreferenceIsWalk | internal/buildbatch/consistent_hash.go:32-55 | the preference order is what the walk from the key's start returns |
| HashRingGrowth.GrowthKeepsPreferences | internal/buildbatch/consistent_hash.go:16-55 | adding a node keeps the order of the old nodes for all keys iff some old point is left and each point it takes over is followed by one of the same owner |
| HashRingGrowth.NewPointsAreHarmless | internal/buildbatch/consistent_hash.go:16-30 | a new node whose points clash with none meets that condition |
| HashRingGrowth.ClashTurnsOrder | internal/buildbatch/consistent_hash.go:16-55 | a clash in which two old nodes change places for some key |
| HashRingGrowth.PrimaryMovesOnlyToNewNode | internal/buildbatch/consistent_hash.go:32-55 | adding a node leaves a key's primary in place or moves it to the new node, whatever points clash |
| AddrPool.SortSlots | internal/buildbatch/scheduler.go:96-98 | the same slots in address order |
| Sorting.StrLeIff | internal/buildbatch/scheduler.go:96-98 | the string order compares the first place where two strings differ, and a prefix comes first |
| AddrPool.FirstOpenIsFirst | internal/buildbatch/scheduler.go:148-163 | one pass takes the first slot that is open in ring order, and none exactly when none is open |
| AddrPool.PickedIsBest | internal/buildbatch/scheduler.go:147-166 | the slot picked is at the first place in ring order that is free and not cooling, else at the first that is free; none iff all are full |
| AddrPool.Pool.PickedIsBestSlot | internal/buildbatch/scheduler.go:147-166 | the same for the slots of a pool at a given time |
| AddrPool.Pool.constructor | internal/buildbatch/scheduler.go:51-55 | an empty pool with its ring |
| AddrPool.Pool.Replace | internal/buildbatch/scheduler.go:70-106 | slots are exactly the requested addresses in order, an address that stays keeps its slot object, a new one gets a fresh empty slot of its own |
| AddrPool.Pool.IndexSlots | internal/buildbatch/scheduler.go:74-79 | each address is indexed by its last slot, found by position |
| AddrPool.LatestIsLast | internal/buildbatch/scheduler.go:74-79 | walking the slots and overwriting leaves the last one of an address |
| AddrPool.Pool.SlotsFor | internal/buildbatch/scheduler.go:81-94 | one slot for each address, old where there is one |
| AddrPool.Pool.PreferenceIsComplete | internal/buildbatch/scheduler.go:142-142 | the preference order lists every slot once, as the clockwise walk first meets it |
| AddrPool.Pool.TryPass | internal/buildbatch/scheduler.go:148-163 | a pass raises exactly the count of the slot it takes |
| AddrPool.Pool.TwoPasses | internal/buildbatch/scheduler.go:147-166 | the slot at the first place in the order that is free and not cooling, else at the first that is free; none iff all are full |
| AddrPool.Pool.PickAvailable | internal/buildbatch/scheduler.go:137-167 | in the order in which the walk from the key first meets the slots, the first that is free and not cooling, else the first that is free; none iff all are full; exactly one count goes up |
| AddrPool.Pool.AcquireBoth | internal/buildbatch/scheduler.go:198-206 | a canceled wait for the global slot leaves every count as it was; otherwise that slot and the global slot are taken and no other |
| AddrPool.StayingAddressKeepsSlot | internal/buildbatch/scheduler.go:70-106 | after any sequence of replaces the pool lists the addresses last requested, in order, and an address in all of them keeps one slot object |
| BatchInvariants.PartitionKept | internal/buildbatch/build_command_batch.go:107-231 | every step keeps each job in one place |
| BatchInvariants.NextInv | internal/buildbatch/build_command_batch.go:107-231 | every step keeps what is known of every job, flag and build |
| BatchTheorems.EachJobInOnePlace | internal/buildbatch/build_command_batch.go:107-231 | in every run each job is unscheduled or drained, in flight, queued for retry, finished or dropped, and only one of these |
| BatchTheorems.QueueAndFlightFit | internal/buildbatch/build_command_batch.go:108-108 | jobs queued for retry and jobs in flight never exceed the number of jobs |
| BatchTheorems.SendNeverBlocks | internal/buildbatch/build_command_batch.go:149-156 | in every run a send on the retry channel finds room |
| BatchTheorems.WorkerSlotsCounted | internal/buildbatch/scheduler.go:137-206 | in every run each worker slot's count is the number of its holders and within the worker's concurrency |
| BatchTheorems.NeverStuck | internal/buildbatch/build_command_batch.go:198-231 | a run that has not returned can always go on by itself: the waits for a worker slot, for the global slot and for the builds in flight all complete |
| BatchTheorems.StepWeighs | internal/buildbatch/build_command_batch.go:205-231 | every step uses up some of the specs and retries that remain, and a refresh of the pool adds none |
| BatchTheorems.RunLength | internal/buildbatch/build_command_batch.go:205-231 | the number of steps of any run is bounded by its specs and its retry budget, however often the pool is refreshed: the drain loop ends |
| BatchTheorems.RunFinishes | internal/buildbatch/build_command_batch.go:205-231 | every run can be continued without outside help until the batch returns |
| BatchTheorems.OutcomeIsAccurate | internal/buildbatch/build_command_batch.go:235-244 | a run that dropped nothing returns nil iff every spec is stored as success |
| BatchTheorems.NothingDropped | internal/buildbatch/build_command_batch.go:111-126 | without cancellation, store errors and fail-fast nothing is dropped |
| BatchTheorems.CleanRunOutcome | internal/buildbatch/build_command_batch.go:137-244 | such a run returns nil iff every spec is stored as success, and leaves a verdict for every job |
| BatchTruth.UncanceledNilMeansDone | internal/buildbatch/build_command_batch.go:111-244 | a run that nobody cancels from outside and that returns nil has dropped nothing and stored everything as success, with fail-fast and store errors allowed |
| BatchTruth.InterruptedRunReturnsNil | internal/buildbatch/build_command_batch.go:111-244 | for every batch that is not done yet, a run canceled at once returns nil and stores nothing |
| BatchTruth.RunKeepsSuccesses | internal/buildbatch/build_command_batch.go:139-195 | in every run what was stored as success stays so unless a build failed for good |
| BatchTruth.NilIsTruthfulIff | internal/buildbatch/build_command_batch.go:111-244 | all runs that return nil have everything stored as success iff everything was stored before |
| BatchDropped.RunLeft | internal/buildbatch/build_command_batch.go:111-126 | in every run of specs not yet done in which no job ends with a target it lists twice, a job that was dropped or still waits has a spec that is not stored as success |
| BatchDropped.NilMeansDoneIffNothingDropped | internal/buildbatch/build_command_batch.go:235-244 | when such a run returns nil, every spec is stored as success iff no job was dropped |
| BatchRepeated.RepeatedLastTargetMisleads | internal/buildbatch/build_command_batch.go:137-158 | with a target listed twice at the end of a job and a retry, a run that drops the job, returns nil and has everything stored |
| BatchRepeated.NilIsReliableIff | internal/buildbatch/build_command_batch.go:235-244 | for specs not yet done, nil means done exactly if nothing was dropped in all runs iff there are no retries or no job ends with a target it lists twice |
| BatchTheorems.JobBuildBound | internal/buildbatch/build_command_batch.go:137-158 | in every run a job executes at most specs + retry builds |
| BatchTheorems.NeverRebuildsSuccess | internal/buildbatch/build_command_batch.go:147-156 | in every run, after a spec was built only later specs of the job are built |
| BatchTheorems.RetriesAreUsedUp | internal/buildbatch/build_command_batch.go:141-173 | in every run a finished job has failed iff its builds failed more often than there are retries, and then exactly once more |
| BatchTheorems.FailureCancels | internal/buildbatch/build_command_batch.go:160-192 | in every run a store error, and with fail-fast a failed job, has canceled the batch |
| BatchFlags.FlagsSay | internal/buildbatch/build_command_batch.go:160-244 | in every run: broken off iff a result could not be stored, failed iff that or a job was not built, canceled iff that, someone canceled or, failing fast, a job was not built; no error iff every result was stored and every job that ended was built |
| BatchOrder.LaunchedInOrder | internal/buildbatch/build_command_batch.go:198-230 | in every run the goroutines started are the jobs in the order given and then the tasks sent back in the order sent, up to what is left or given up |
| BatchOrder.StoppedLaunchesNoMore | internal/buildbatch/build_command_batch.go:111-126 | once a run is canceled, or a job failed with fail-fast, at most the task already past the check is started |
| BatchOrder.TasksKeepTheirJob | internal/buildbatch/build_command_batch.go:147-156 | in every run each task keeps its job's key and schedule key and holds the end of the job's specs |
| BatchPlan.GroupByKey | internal/buildbatch/build_specs.go:127-131 | each key holds its specs in the order given |
| BatchPlan.KeysInOrder | internal/buildbatch/build_specs.go:133-137 | all keys, once each, in order, however the map is walked |
| BatchPlan.GroupBuildSpecs | internal/buildbatch/build_specs.go:122-156 | one job for each key, in key order; a job holds exactly the specs of its key, those not OCI first, then by target, ties as given, and is scheduled by its first spec's schedule key, or by its own key if that is blank |
| BatchPlan.JobIsJobOf | internal/buildbatch/build_specs.go:139-153 | the job made for a key is that job, stated without the sort |
| BatchPlan.JobHoldsGroup | internal/buildbatch/build_specs.go:139-153 | a job holds each of its key's specs as often as the input does, sorted, and no other |
| BatchPlan.FilterJob | internal/buildbatch/build_specs.go:164-200 | a job is skipped as done iff all its specs are stored as success, as failed iff asked to and one failed, else kept with its key, its schedule key and, in order, exactly the specs not stored as success; an error iff a result cannot be read |
| BatchPlan.FilterBuildJobs | internal/buildbatch/build_specs.go:158-204 | the jobs kept, in order, are those with work left, each from its own place in the list; the outcomes and counts of the rest; an error iff some result cannot be read |
| BatchPlan.KeptIsFrom | internal/buildbatch/build_specs.go:158-204 | each kept job is one of the list with its key and schedule key and exactly its unbuilt specs in order; the kept ones keep their order, and a job is kept iff its verdict says so |
| BatchPlan.SkippedAreKnown | internal/buildbatch/build_specs.go:189-198 | as many jobs are counted as skipped with an outcome as keys are known with it |
| BatchPlan.ExistingIsVerdict | internal/buildbatch/build_specs.go:189-198 | a job has an existing outcome iff it is skipped, and it is that verdict's |
| BatchResume.GroupingIsGrouped | internal/buildbatch/build_specs.go:122-156 | jobs from any list of specs have distinct keys and hold only targets of their key |
| BatchResume.KeptIsConfigOk | internal/buildbatch/build_specs.go:158-204 | the jobs kept are fit for the engine |
| BatchResume.KeptIsFresh | internal/buildbatch/build_specs.go:158-204 | the jobs kept by filtering are not empty and hold only specs not stored as success |
| BatchResume.FilteredRunIsReliable | internal/buildbatch/build_specs.go:122-204 | for jobs grouped from distinct targets and filtered against any store, a run that returns nil has everything stored iff no job was dropped |
| BatchResume.RunTouches | internal/buildbatch/results.go:212-222 | in every run only results of the batch's own targets change |
| BatchResume.NextRunHasNothingToDo | internal/buildbatch/build_specs.go:158-204 | after a clean run, filtering the same jobs leaves nothing iff the run returned nil or failed targets are skipped |
| BatchOutcome.OutcomeCounters.constructor | internal/buildbatch/results.go:116-131 | the counts are the numbers of targets with each outcome |
| BatchOutcome.OutcomeCounters.Apply | internal/buildbatch/results.go:133-160 | a new outcome replaces the target's earlier one and the counts stay right |
| BatchOutcome.OutcomeCounters.ApplyExisting | internal/buildbatch/results.go:162-184 | the same for an outcome of an earlier run |
| BatchOutcome.OutcomeCounters.DecrementTotal | internal/buildbatch/results.go:186-193 | the total goes down by one and never below zero |
| BatchOutcome.CountsWithinTargets | internal/buildbatch/results.go:108-131 | the two counts add up to the targets seen |
| Targets.NydusKeyIsTargetKey | internal/buildbatch/build_specs.go:210-220 | the Nydus name of a target belongs to the target's own key |
| Targets.FormatsShareJob | internal/buildbatch/build_specs.go:218-227 | both formats of a target share a job iff the bare name needs no trimming and has no second suffix |
| Targets.DoubledSuffixSplitsJobs | internal/buildbatch/build_specs.go:218-227 | a target with a doubled suffix has its two formats built in different jobs |
| Targets.NydusNameIsBareNameWithSuffix | internal/buildbatch/build_specs.go:210-216 | the Nydus name of a target is its bare name and the suffix, written once |
| Targets.BareNameIs | internal/buildbatch/build_specs.go:218-227 | the bare name is the trimmed name without one suffix at its end |
| Lines.JoinSplit | pkg/dockerfilepreprocess/heredoc.go:156-165 | splitting into lines loses nothing and every line but the last is complete |
| Lines.SplitJoin | pkg/dockerfilepreprocess/heredoc.go:113-113 | lines put together split into the same lines |
| Heredoc.InstructionHeader | pkg/dockerfilepreprocess/instructions.go:23-44 | the loop joins continuation lines and drops comments between them as specified |
| Heredoc.DelimiterAt | pkg/dockerfilepreprocess/heredoc.go:142-154 | the first line that is the delimiter, and none iff there is none |
| Heredoc.FindHeredocEnd | pkg/dockerfilepreprocess/heredoc.go:142-154 | the search loop finds that line |
| HeredocForms.PatternsAreExact | pkg/dockerfilepreprocess/heredoc.go:12-16 | greedy matching accepts exactly the languages of the three regular expressions |
| HeredocForms.LegacySpecOk | pkg/dockerfilepreprocess/heredoc.go:122-140 | indent, target and delimiter token of a recognized form, and how long its line must be; `HeredocLegacy.FormParses` and `NoneIff` say which lines are recognized and with what token |
| HeredocLegacy.FormParses | pkg/dockerfilepreprocess/heredoc.go:122-140 | a line of either form, given by its parts, is recognized with its indent, its target and the token made of dash, quote, word and quote; one with unlike quotes is an error |
| HeredocLegacy.NoneIff | pkg/dockerfilepreprocess/heredoc.go:122-140 | a line is no legacy form iff it is not made of such parts |
| HeredocLegacy.AppendIff | pkg/dockerfilepreprocess/heredoc.go:15-15 | a line is an append iff it is made of the parts of one |
| HeredocHeaders.AsideIff | pkg/dockerfilepreprocess/instructions.go:27-27 | a line is skipped iff it is all space or its first other character is a number sign |
| HeredocHeaders.ContinuedIff | pkg/dockerfilepreprocess/instructions.go:33-36 | a line is continued iff, blanks at its end aside, it ends with one escape character and not with two |
| HeredocHeaders.HeaderIs | pkg/dockerfilepreprocess/instructions.go:23-44 | a header is the aside it starts with, or runs to the first line that is neither aside nor continued, and is the lines before it without their escapes and then that line |
| HeredocHeaders.DelimiterIff | pkg/dockerfilepreprocess/heredoc.go:142-154 | a line ends a heredoc iff it is the delimiter, tabs before it if they are stripped, and at most one line end |
| HeredocHeaders.KeywordIff | pkg/dockerfilepreprocess/instructions.go:13-19 | a keyword is recognized letter by letter in either case |
| HeredocHeaders.InstructionSplits | pkg/dockerfilepreprocess/instructions.go:13-19 | an instruction is its first word and, trimmed, what follows the blank behind it |
| HeredocRewriter.SkipBodies | pkg/dockerfilepreprocess/heredoc.go:93-99 | the bodies are skipped one after the other |
| HeredocRewriter.NextBlock | pkg/dockerfilepreprocess/heredoc.go:47-99 | one round of the loop decides the block at the front of the remaining lines |
| HeredocRewriter.TransformLegacyHeredocs | pkg/dockerfilepreprocess/heredoc.go:39-114 | the loop computes the specified text, change flag or error; an error carries no text |
| HeredocTheorems.TransformedIsBlocks | pkg/dockerfilepreprocess/heredoc.go:101-113 | on success the blocks tile the input, the output is the blocks' output, and without a change it is the input |
| HeredocTheorems.BlockInPlace | pkg/dockerfilepreprocess/heredoc.go:101-107 | in place of each block stand its own lines byte for byte, or the COPY line and its own body |
| HeredocTheorems.BlockAt | pkg/dockerfilepreprocess/heredoc.go:46-108 | each block of a file is what is read where the blocks before it end, under the escape character and directives they leave |
| HeredocTheorems.BlockReadAsTold | pkg/dockerfilepreprocess/heredoc.go:46-99 | each block of a file is the instruction header read at its place and the bodies of that header's heredocs |
| HeredocTheorems.BodyNeverRead | pkg/dockerfilepreprocess/heredoc.go:46-108 | every line of a file is in exactly one block, each block is an instruction header and its own bodies, and no body line is in any instruction's header |
| HeredocTheorems.BlockIsHeaderAndBody | pkg/dockerfilepreprocess/heredoc.go:55-99 | a block is a header and, for each heredoc in it, the lines up to its first delimiter |
| HeredocTheorems.UnchangedOutput | pkg/dockerfilepreprocess/heredoc.go:105-112 | without a rewritten block the output lines are the input lines |
| HeredocTheorems.CopyShorter | pkg/dockerfilepreprocess/heredoc.go:102-102 | the COPY line is shorter than the header it replaces |
| HeredocTheorems.BlockShrinks | pkg/dockerfilepreprocess/heredoc.go:101-107 | a rewritten block is strictly shorter than its source, any other is the same text |
| HeredocTheorems.RewritingShrinks | pkg/dockerfilepreprocess/heredoc.go:39-114 | a changed file is strictly shorter, an unchanged one is the same |
| HeredocRewrites.LegacyBlockIsCopy | pkg/dockerfilepreprocess/heredoc.go:57-107 | an instruction of a legacy form with like quotes and a plain target, its keyword in any case, is replaced by its indent, COPY, its own token and its target |
| HeredocRewrites.OnlyLegacyIsRewritten | pkg/dockerfilepreprocess/heredoc.go:57-107 | only such an instruction, outside ONBUILD, is replaced |
| HeredocRewrites.LegacyFileRewritten | pkg/dockerfilepreprocess/heredoc.go:39-114 | the text written for a file with such an instruction is what is written for the blocks before it, that COPY line, the body byte for byte, and what is written for the rest |
| HeredocRewrites.PlanIff | pkg/dockerfilepreprocess/heredoc.go:57-92 | when and why an instruction is refused, and what is planned for it otherwise |
| HeredocRewrites.ErrorIsFirst | pkg/dockerfilepreprocess/heredoc.go:46-99 | a file that is refused is refused for its first bad block, at that block's line |
| HeredocRewrites.EscapeStays | pkg/dockerfilepreprocess/heredoc.go:43-54 | once a line was no directive the escape character of the file stays |
| HeredocIdempotence.CopyNeverContinued | pkg/dockerfilepreprocess/instructions.go:33-41 | an emitted COPY line is a header of its own, under either escape character |
| HeredocIdempotence.CopyPlan | pkg/dockerfilepreprocess/heredoc.go:74-92 | a COPY header is no legacy form and keeps the heredocs of the RUN it replaces |
| HeredocIdempotence.KeptBlockAgain | pkg/dockerfilepreprocess/heredoc.go:46-108 | a kept block is found again wherever its lines stand |
| HeredocIdempotence.RewrittenBlockAgain | pkg/dockerfilepreprocess/heredoc.go:46-108 | a rewritten block is kept when it is met again |
| HeredocIdempotence.RewritingIsIdempotent | pkg/dockerfilepreprocess/heredoc.go:39-114 | rewriting what was written reports no change |
| OutputCapture.CaptureKeepsTail | internal/buildbatch/build_execution.go:57-79 | after any writes the capture holds the last bytes of the stream, and is marked iff the stream did not fit or one write filled the buffer |
| OutputCapture.UnmarkedIsWhole | internal/buildbatch/build_execution.go:40-55 | an unmarked capture is the whole stream |
| OutputCapture.ExactFitIsMarked | internal/buildbatch/build_execution.go:61-67 | a write that fits exactly is marked although nothing is lost |
| OutputCapture.BuildOutputCapture.constructor | internal/buildbatch/build_execution.go:29-31 | an empty buffer |
| OutputCapture.BuildOutputCapture.Write | internal/buildbatch/build_execution.go:57-79 | the circular buffer refines the unbounded log cut to its end |
| OutputCapture.BuildOutputCapture.Append | internal/buildbatch/build_execution.go:74-77 | two copies round the end append to what is held |
| OutputCapture.BuildOutputCapture.Overwrite | internal/buildbatch/build_execution.go:61-67 | data as long as the buffer leaves its own end |
| OutputCapture.BuildOutputCapture.CloseAndReadTail | internal/buildbatch/build_execution.go:40-55 | the bytes held in order, behind the marker iff marked |
| OutputCapture.LimitedLogWriter.constructor | internal/builddaemon/workspace.go:147-150 | an empty sink with its limit |
| OutputCapture.LimitedLogWriter.Write | internal/builddaemon/workspace.go:152-169 | the sink gets the first bytes the underlying writer takes of what the limit leaves; the data's length is returned unless the writer fails or takes less |
| OutputCapture.LimitedKeepsHead | internal/builddaemon/workspace.go:152-169 | for any limit and any answers of the underlying writer the sink is within the limit and the count is right; until a write is cut short it is exactly the start of the stream up to the limit |
| OutputCapture.CutShortIsPrefix | internal/builddaemon/workspace.go:160-167 | the first write cut short leaves a prefix of the stream |
| OutputCapture.BudgetConserved | internal/builddaemon/workspace.go:160-161 | bytes taken and bytes left add up whatever the writer does |
| FailureLog.TruncatePayload | internal/buildbatch/failure_log_store.go:179-221 | the result is a prefix of the log and the note, and fits; it is the longest fitting prefix if encoded length is monotone; failure only if not even the empty prefix fits |
| FailureLog.MarshalLine | internal/buildbatch/failure_log_store.go:154-177 | a line within the limit for the record, or for it with its log cut |
| FailureLog.FindKeepOffset | internal/buildbatch/failure_log_store.go:135-152 | the start of the first line behind the excess, or the end of the file |
| FailureLog.KeepFromIsLongest | internal/buildbatch/failure_log_store.go:91-133 | what is kept is the longest whole-line end strictly shorter than the limit |
| FailureLog.TrimKeepsWholeLines | internal/buildbatch/failure_log_store.go:91-152 | trimming keeps exactly that end, a last line without its line end included |
| FailureLog.TrimIsLongest | internal/buildbatch/failure_log_store.go:91-133 | a file over the limit becomes its longest whole-line end strictly shorter than the limit |
| FailureLog.TrimmedIs | internal/buildbatch/failure_log_store.go:91-133 | a file within its limit stays, any other starts at the first line behind the excess |
| FailureLog.LogIsWholeLineSuffix | internal/buildbatch/failure_log_store.go:38-133 | whatever the file held before and wherever appends fail, the file is a whole-line suffix of everything ever in it, and within its limit after an append that did not fail |
| FailureLog.NewestSurvives | internal/buildbatch/failure_log_store.go:59-67 | the newest line survives its own append iff it is strictly shorter than the limit or all fits; else the file is empty |
| FailureLog.FailureLogStore.constructor | internal/buildbatch/failure_log_store.go:31-36 | a store over whatever file is there |
| FailureLog.FailureLogStore.AppendFailure | internal/buildbatch/failure_log_store.go:38-133 | nothing for a blank target or an empty log; else one line is appended and the file shortened to the first line behind the excess, or left as each file-system fault leaves it, with success reported accordingly |
| FailureLog.FailureLogStore.TrimFile | internal/buildbatch/failure_log_store.go:91-133 | a file over the limit starts anew at the first line behind the excess |
| FailureLog.LoadLatestFailureLogs | internal/buildbatch/failure_log_store.go:223-269 | reads iff each line does, and then gives, for exactly the wanted targets that some line tells of, what the last such line says |
| FailureLog.ReadsIff | internal/buildbatch/failure_log_store.go:241-256 | the log can be read iff each of its lines can |
| FailureLog.NewestKnows | internal/buildbatch/failure_log_store.go:250-256 | a target is reported iff it is wanted and has a record |
| FailureLog.NewestIsNewest | internal/buildbatch/failure_log_store.go:250-256 | what is reported for a target is its newest record |
| FailureLog.ReadGivesNewest | internal/buildbatch/failure_log_store.go:241-268 | reading lines of records gives the newest record of each wanted target, as the encoder wrote it |
| FailureLog.ReadSaysLast | internal/buildbatch/failure_log_store.go:241-268 | what is read of any lines is, for each wanted target that some line tells of, what its last line says |
| FailureLog.LoadsIff | internal/buildbatch/failure_log_store.go:38-269 | from any earlier file and with any faults the log can be read iff each surviving line of everything written can, and then gives what the last surviving line of each wanted target says |
| FailureLog.LoadGivesNewestSurviving | internal/buildbatch/failure_log_store.go:38-269 | with an earlier process's records in the file and no line torn, whatever else fails, reading gives the newest surviving record of each wanted target |
| FailureLog.TornLineStopsReading | internal/buildbatch/failure_log_store.go:70-77 | a torn write is joined by the next record, and if the two do not decode together nothing of the log is read |
| TargetRouter.ParseRoutingTargets | internal/builddaemon/target_router.go:34-61 | accepted iff two to thirty-two prefixes that parse, no two alike; the result is in prefix order |
| TargetRouter.ParsedTargetOk | internal/builddaemon/target_router.go:63-91 | a parsed target's prefix is its host and path |
| TargetRouter.PrefixParses | internal/builddaemon/target_router.go:63-91 | a prefix, trimmed of space and trailing slashes, parses iff its first component is a registry, it holds no scheme and the reference library reads it with the probe behind it; host and path are then what the library says |
| TargetRouter.EmptyPrefixRefused | internal/builddaemon/target_router.go:63-91 | an empty prefix is refused |
| TargetRouter.PrefixDetermines | internal/builddaemon/target_router.go:86-90 | a target is known by its prefix |
| TargetRouter.ParsedTargets | internal/builddaemon/target_router.go:46-58 | a list that parses holds valid targets with distinct prefixes |
| TargetRouter.TargetsParse | internal/builddaemon/target_router.go:46-58 | valid prefixes that parse to distinct targets are accepted |
| TargetRouter.Select | internal/builddaemon/target_router.go:106-114 | the running maximum selects the highest score, the least prefix among ties |
| TargetRouter.ChoiceUnique | internal/builddaemon/target_router.go:106-114 | the choice depends only on the set of prefixes and the digest |
| TargetRouter.AddingMovesOnlyToNew | internal/builddaemon/target_router.go:106-114 | adding a prefix leaves a digest in place or moves it to the new one, ties included |
| TargetRouter.RemovingMovesOnlyItsOwn | internal/builddaemon/target_router.go:106-114 | removing a prefix moves only its own digests |
| TargetRouter.OrderDoesNotMatter | internal/builddaemon/target_router.go:46-60 | a permuted list is accepted alike and gives the same router |
| TargetRouter.OneTargetMore | internal/builddaemon/target_router.go:46-60 | one prefix more in the list, anywhere, is one target more in the router |
| TargetRouter.Route | internal/builddaemon/target_router.go:93-128 | an error iff there are no targets, the digest is malformed or the image does not parse; else the highest score's host, its path before the image's own unless that is there already, and the suffix |
| TargetRouter.PathIsPlaced | internal/builddaemon/target_router.go:116-127 | the path is kept when it is the target's path or lies under it, else put under it |
| TargetRouter.DigestIff | internal/builddaemon/target_router.go:130-140 | a digest is accepted iff, trimmed, it is 64 hexadecimal digits, and the result is those digits in lower case |
| TargetRouter.RoutingIsDetermined | internal/builddaemon/target_router.go:93-128 | two routers configured with the same prefixes in any order route alike |
| TargetRouter.AddingReroutesOnlyToNew | internal/builddaemon/target_router.go:34-128 | with one configured prefix more an image is routed as before or to the new target, and is refused iff it was |
| TargetRouter.RemovingReroutesOnlyItsOwn | internal/builddaemon/target_router.go:34-128 | with one configured prefix less only the images that were routed to it are routed elsewhere |
| TargetRouter.RoutingTwice | internal/builddaemon/target_router.go:93-128 | a configured router given its own result and the same digest keeps the target, and returns it unchanged iff it is not a single-component path at Docker Hub |
| TargetRouter.RoutingSettles | internal/builddaemon/target_router.go:93-128 | a third routing returns what the second one did |
| TargetRouter.OfficialNameMoves | internal/builddaemon/target_router.go:93-128 | a target and an image that the second routing moves |
| Admission.CopyWithLimit | internal/builddaemon/workspace.go:134-145 | exactly what is written for every fault, at most the limit, and whether more was noticed |
| Admission.TaskDir.constructor | internal/builddaemon/build_request.go:98-102 | an empty task directory |
| Admission.TaskDir.SaveZip | internal/builddaemon/workspace.go:59-67 | the archive's bytes are added |
| Admission.TaskDir.Create | internal/builddaemon/workspace.go:111-115 | a file that is already there is truncated |
| Admission.TaskDir.Write | internal/builddaemon/workspace.go:116-116 | the file's bytes are added |
| Admission.TaskDir.Remove | internal/builddaemon/workspace.go:122-125 | the file's bytes go |
| Admission.TaskDir.RemoveAll | internal/builddaemon/build_request.go:106-121 | nothing is left |
| Admission.ExtractFile | internal/builddaemon/workspace.go:96-130 | one file within what is left: what is written, held and left of it for every fault |
| Admission.ExtractZip | internal/builddaemon/workspace.go:74-132 | in every outcome all bytes ever written, and so those held at any moment, are within the limit; success iff every entry can be extracted and fits in turn, and then all entries were written and the last file of each path is there; over the limit iff there are too many entries or the first one that fails is one that does not fit |
| Admission.ContentsAreLast | internal/builddaemon/workspace.go:111-116 | what is left of a path is its last entry |
| Admission.ContentsSize | internal/builddaemon/workspace.go:96-130 | what is left on disk is at most what the entries hold, and as much iff no entry that holds anything is overwritten |
| Admission.ExtractableFits | internal/builddaemon/workspace.go:96-99 | what can be extracted is no larger than its limit |
| Admission.SaveUpload | internal/builddaemon/workspace.go:50-72 | the upload is saved iff it fits and nothing fails, never more than the limit is written, and it is refused as too large iff more than the limit arrives |
| Admission.Admit | internal/builddaemon/build_request.go:32-209 | upload and everything extraction writes are together within the budget at entry, for every upload and outcome; exactly when a request is accepted, has too many tasks before it, finds no space, is too large or is rejected; a refused request's directory is removed and nothing is left |

## Left out

- HTTP routing, multipart parsing, authentication, command lines, defaults of the configuration, pprof: plumbing with nothing to prove.
- The BuildKit client, registry checks, the result database and the network: the runner's answer and the database are inputs; storing a result may fail.
- Traces, metrics and printed summaries: only the three terminal counters and the batch counters are modelled.
- SHA-256, FNV-1a, JSON, and the shell, Dockerfile-word, directive and image-reference parsers: parameters of the model, with what is asked of them stated as hypotheses (`Agrees`, `Faithful`, `LibraryOk`, `Monotone`).
- Address parsing and DNS: a replace is given any finite list of addresses, without nil entries.
- Build variables, the classification of error messages and the hashing of source contexts: their results are inputs.
- Real time: a clock that only moves forward; tickers, timeouts and the polling interval of the batch scheduler are not modelled.
- The streaming variant of the batch command, which sizes its retry channel differently.
- Goroutine scheduling below the level of one critical section or one channel operation: the check of a task's context inside an attempt and the one after it are one step of the daemon, and setting the failure flag and canceling are one step of the batch.
- The order of the pool inside the daemon protocol: an attempt may try a snapshot in any order, of which the ring's is one; sorting is in the pool model.
- The batch engine's choice among worker slots: any free slot of the pool may be picked, of which the ring's is one; a round of the poll that finds none is no event, and a refresh may list any current and new slots, at least one.
- A goroutine's release of its worker slot, the global slot and the wait group at its end is one step of the batch.
- Integer widths: byte counts and ring indices are unbounded; scores and ring points are natural numbers.
- AddrPool.Pool.PickAvailable: the two passes run without interference; interleaved acquisition is part of the daemon protocol.
- AddrPool.Pool.AcquireBoth: the poll until a worker slot is free is not modelled, only one round of it.
- HashRing.GetSlotOrder: asks that every node owns a ring point, the exact condition under which the code's loop ends.
- HeredocHeaders.ContinuedIff: asks for an escape character that is no blank; the code knows only backslash and backquote.
- HeredocHeaders.DelimiterIff: asks for a delimiter that does not start with a tab or end with a line end.
- HeredocRewrites.LegacyBlockIsCopy: asks, when the target comes last, that it does not end with a space character, which trimming the header would take off.
- HeredocRewrites.LegacyFileRewritten: asks the same of a target that comes last.
- HeredocIdempotence.RewritingIsIdempotent: asks that the COPY detector finds the heredocs the RUN detector found, and that directives start with a number sign.
- TargetRouter.RoutingTwice: asks that the reference library reads back the suffix and the path that were written, the path with `library/` put before a single component at Docker Hub.
- FailureLog.LoadGivesNewestSurviving: asks that no append stopped in the middle of a line; `LoadsIff` is for all of them.
- Admission.Admit: a removal of the directory that fails, and the bytes by which preprocessing the Dockerfile changes it after extraction, are not modelled.
- Heredoc: upper-casing covers the characters that can make a keyword; text is a sequence of characters, not of bytes.
- Negative retry counts in the batch behave like zero and are not modelled separately.
