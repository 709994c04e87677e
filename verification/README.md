# Verified model of the single-node Ray runtime

This project models the runtime that runs tasks on one node, and proves what holds in every interleaving of its parts:

- **Resources** (`ResourceSets`, `ResourceManagement`): named quantities, admission, allocation and release.
- **Local scheduler** (`SchedulerModel`, `SchedulerResources`, `SchedulerTasks`, `SchedulerProgress`,
  `SchedulerLeases`, `SchedulerFairness`, `LocalScheduling`): the command channel, the status map, the pending queue,
  the drain, the dispatched tasks and the worker leases.
- **Worker pool** (`WorkerPoolModel`, `WorkerPoolSafety`, `WorkerPoolKills`, `WorkerPoolCalls`, `WorkerPoolLimits`,
  `WorkerPooling`): the scan under the read lock, the scan under the write lock, spawning, returning and killing.
- **Object store** (`ObjectStoreModel`, `ObjectStoreSafety`, `ObjectStoreLimits`, `ObjectStoreCalls`, `ObjectStoring`): the
  memory budget, reference counts, spilling to files and restoring.
- **Placement** (`Placement`): the Spread and Pack policies and the global scheduler's view of the nodes.
- **The composition** (`RuntimeModel`, `RuntimeWorkers`, `RuntimeResults`, `RuntimeExecution`, `RuntimeProgress`,
  `RuntimeSettling`, `RuntimeClients`, `LocalRuntime`, `RuntimeCalls`, `Executing`): all of the above wired together,
  with the function registry.

## How it is modelled

The concurrent parts are transition systems. One event is one atomic action of the program: one locked region, one
`try_allocate`, one `release`, one file operation, one load or one store of a worker's status. `Possible(s, events)` says
that a sequence of events can happen from `s`, `Exec(s, events)` is the state it leads to, and the main claims quantify
over all such sequences. The state also carries histories (commands sent, tasks dispatched, puts begun) that the program
does not keep and that the claims speak about.

The code that works in place is modelled in place as well: `Resources`, `ResourceManager`, `LocalScheduler`, `WorkerPool`,
`InMemoryObjectStore`, `GlobalScheduler` and `FunctionRegistryExecutor` are classes. `LocalScheduler` carries a ghost
trace, and its invariant says that its fields show the state that trace leads to; other parties may act before each try of
the drain. So every claim about runs holds of that object. The worker pool and the store as classes describe each call run
alone; what happens when their calls overlap is the subject of the transition systems, and `WorkerPoolCalls` and
`ObjectStoreCalls` prove of those what a call does when nothing overlaps it.

`RuntimeModel.RunsScheduler`, `RunsPool` and `RunsStore` show that every run of the composed runtime is a run of each
component, so the claims about components carry over.

Assumptions:

- Quantities are exact reals: no rounding, no NaN, no infinities. Counts and sizes do not overflow.
- Hash maps are visited in an arbitrary order.
- Files are read and written whole and never fail, except that a missing file makes a restore fail.
- A registered function depends on its payload only, terminates and has no other effect, so looking it up and running it
  is one action; an error or a panic in it is the outcome "no bytes".
- Identifiers are random in the program. No uniqueness is built in; the claims that need it say so.
- Negative quantities are allowed wherever a claim does not exclude them.

Where the documentation and the code differ, the model follows the code:

- The scheduler's header says tasks are matched in first-in-first-out order (`crates/ray-raylet/src/scheduler.rs:5`). The
  loop tries a new submission before the queued tasks, and a completion does not wake the queue. `SchedulerFairness` shows
  that a queued task can be passed over by any number of later ones, and exactly when.
- The comment in `release_worker_lease` says the scheduler gives a lease's resources back
  (`crates/ray-raylet/src/server.rs:239-247`). Nothing does; `SchedulerLeases.DispatchableIffFeasible` states exactly
  which tasks can still be dispatched then.
- `utilization` is documented as a fraction (`crates/ray-raylet/src/resource_manager.rs:55`).
  `ResourceManagement.UtilizationIsFraction` states exactly when it is one.

Four promises one might expect are false. Each comes with a run that breaks it and the exact condition under which it
holds:

- Two callers can get the same worker (`WorkerPoolLimits.WorkerCanBeShared`). A run shares no worker if and only if none of
  its steps is a clash (`WorkerPoolSafety.SharedExactlyByClash`).
- A killed worker can be handed out again (`WorkerPoolLimits.KilledWorkerCanComeBack`). From a state in which it is dead
  this can happen if and only if a caller that looked before the kill has yet to act on what it saw, on a worker that is
  still in the vector to stay (`WorkerPoolKills.KilledComesBackExactly`).
- A restore can undo a later put (`ObjectStoreLimits.LateRestoreUndoesPut`). The latest puts are safe throughout a run if
  and only if no insert meets a spill or restore in flight that carries other bytes
  (`ObjectStoreLimits.LatestPutWinsExactly`).
- Dispatch is not first come, first served (`SchedulerFairness.QueuedTaskCanStarve`): a task can be overtaken by a new
  submission and, when a completion lands between two tries, inside a drain. From a receive point with an empty channel,
  some continuation overtakes a queued task with one that needs no less if and only if it fits now, as long as nothing
  completes (`SchedulerFairness.OvertakenIffItFits`), and if and only if the leases leave room for it at all once tasks
  may complete (`SchedulerFairness.OvertakenIffFeasible`).

## Model

| member | source | states |
|---|---|---|
| `ResourceSets.MinusLookup` | crates/ray-core/src/resource.rs:54-62 | Each lookup after `subtract` is the difference, cut off at zero, on the named resources and unchanged elsewhere; under `can_satisfy` it is the plain difference. |
| `ResourceSets.SubtractThenAddRestores` | crates/ray-core/src/resource.rs:44-69 | `subtract` followed by `add` restores every lookup if and only if `can_satisfy` held. |
| `ResourceSets.RoundTripKeys` | crates/ray-core/src/resource.rs:54-69 | The round trip leaves the names of both sides, so the key set is restored if and only if every required name was present. |
| `ResourceSets.AdmissionIsCombined` | crates/ray-core/src/resource.rs:44-69 | Non-negative requirements are admitted one after another if and only if their pointwise sum fits; the lookups left are what was there minus that sum. |
| `ResourceSets.BatchOrderIrrelevant` | crates/ray-core/src/resource.rs:44-69 | Every order of a non-negative batch is admitted or none is, with the same lookups left. |
| `ResourceSets.NegativeRequirementMakesOrderMatter` | crates/ray-core/src/resource.rs:44-69 | A negative requirement can make the order of a batch decide. |
| `ResourceSets.AdmittedIffPrefixesFit` | crates/ray-core/src/resource.rs:44-69 | In a given order, a batch of any sign is admitted if and only if each requirement fits into what those before it leave. |
| `ResourceSets.EveryOrderAdmitted` | crates/ray-core/src/resource.rs:44-69 | Every order of a batch of any sign is admitted if and only if each requirement, name by name, fits together with the positive parts of all others. |
| `ResourceSets.Resources.Satisfies` | crates/ray-core/src/resource.rs:44-51 | The loop, in any visiting order, decides whether every requirement is covered. |
| `ResourceSets.Resources.Subtract` | crates/ray-core/src/resource.rs:54-62 | The in-place loop, in any visiting order, computes the map whose lookups `MinusLookup` describes. |
| `ResourceSets.Resources.Add` | crates/ray-core/src/resource.rs:65-69 | The in-place loop, in any visiting order, adds pointwise. |
| `ResourceManagement.ResourceManager.TryAllocate` | crates/ray-raylet/src/resource_manager.rs:26-36 | Takes the requirement if and only if it is covered, and otherwise changes nothing. |
| `ResourceManagement.ResourceManager.Release` | crates/ray-raylet/src/resource_manager.rs:39-43 | Adds the released quantities pointwise. |
| `ResourceManagement.ResourceManager.ReportUtilization` | crates/ray-raylet/src/resource_manager.rs:56-67 | The loop reports exactly the resources with a positive total, each with the share of its total that is not available. |
| `ResourceManagement.UtilizationIsFraction` | crates/ray-raylet/src/resource_manager.rs:55-67 | All reported shares lie in [0, 1] if and only if each availability lies between zero and its total. |
| `SchedulerResources.ResourcesAreConserved` | crates/ray-raylet/src/resource_manager.rs:26-43 | In every interleaving of the loop, completions and leases, for each resource: available + held by dispatched tasks + leased = total, for requirements of any sign. |
| `SchedulerResources.UtilizationIsWhatIsTaken` | crates/ray-raylet/src/resource_manager.rs:56-67 | In every run exactly the resources with a positive total are reported, and share times total is what tasks in flight and leases hold. |
| `SchedulerResources.AvailabilityStaysInBounds` | crates/ray-raylet/src/resource_manager.rs:26-67 | With non-negative demands, in every run 0 <= available <= total, and reported utilization lies in [0, 1]. |
| `SchedulerResources.OversizedTaskNeverDispatched` | crates/ray-raylet/src/scheduler.rs:78-142 | With non-negative demands, no run dispatches a task that exceeds the total. |
| `SchedulerResources.DrainIsMaximal` | crates/ray-raylet/src/scheduler.rs:121-142 | Whenever the loop is back at its receive point, no queued task fits into the availability minus what was released since that drain began, leases and completions interleaving. |
| `SchedulerTasks.EveryTaskIsAccountedFor` | crates/ray-raylet/src/scheduler.rs:78-142 | In every run the submissions taken are, as a multiset, the queued, in-flight, completed and cancelled-in-queue ones, and the queue is a subsequence of the submission order. |
| `SchedulerTasks.DispatchedAtMostOnce` | crates/ray-raylet/src/scheduler.rs:78-142 | With unique ids no two dispatches in a run are of the same task. |
| `SchedulerTasks.CancelledInQueueNeverDispatched` | crates/ray-raylet/src/scheduler.rs:104-142 | With unique ids no dispatched task, the first included, is still queued or was ever cancelled in the queue. |
| `SchedulerTasks.QueueMatchesPending` | crates/ray-raylet/src/scheduler.rs:87-142 | With unique ids the queue holds exactly the ids whose status is Pending, and only Pending, Running and Cancelled occur. |
| `SchedulerTasks.StatusNeverGoesBack` | crates/ray-raylet/src/scheduler.rs:87-142 | With unique ids, between any two points of a run each status only moves from Pending to Running to Cancelled; Cancelled is final. |
| `SchedulerTasks.AnswersFollowTheChannel` | crates/ray-raylet/src/scheduler.rs:198-220 | A status query taken by the loop finds the task if and only if a submission was sent before it; with unique ids the answer is Cancelled if and only if a cancellation was sent after the submission and before the query. |
| `SchedulerTasks.QueryIsAnswered` | crates/ray-raylet/src/scheduler.rs:112-118 | With unique ids a query is answered when taken: not found, Pending, Cancelled or Running exactly for an id never submitted, queued, cancelled after its submission, or dispatched and not cancelled. |
| `SchedulerTasks.AnswersNeverChange` | crates/ray-raylet/src/scheduler.rs:112-118 | An answer once given stays in every continuation. |
| `SchedulerTasks.DispatchedWasSubmitted` | crates/ray-raylet/src/scheduler.rs:78-142 | Every dispatched task was submitted just so, before. |
| `SchedulerTasks.CancelClearsQueue` | crates/ray-raylet/src/scheduler.rs:104-110 | A cancellation clears the queue of every task with that id, unique or not, keeps the others in order, marks a known task Cancelled and touches nothing in flight. |
| `SchedulerTasks.ChannelHolds` | crates/ray-raylet/src/scheduler.rs:47 | Before the loop takes any, commands can be sent if and only if there are at most 4096. |
| `SchedulerProgress.FirstFitIsGreedy` | crates/ray-raylet/src/scheduler.rs:121-142 | The recursive first-fit pass admits a task if and only if it fits into what the admitted tasks before it leave. |
| `SchedulerProgress.ChosenComplementary` | crates/ray-raylet/src/scheduler.rs:121-142 | Admitted and kept tasks split the queue without loss, each in queue order. |
| `SchedulerProgress.QuietDrainIsFirstFit` | crates/ray-raylet/src/scheduler.rs:121-142 | A drain that nothing interrupts is possible from every queue and leaves the outcome of the first-fit pass: the kept tasks queued, the admitted ones dispatched and Running, and each availability lower by what they need. |
| `SchedulerProgress.MarkRunningExactly` | crates/ray-raylet/src/scheduler.rs:126-134 | After the pass every admitted id is Running and every other status is as it was. |
| `SchedulerProgress.SecondDrainIsNoOp` | crates/ray-raylet/src/scheduler.rs:121-142 | With nothing released since the last drain began, another pass admits nothing. |
| `SchedulerProgress.IdlePoolIsFull` | crates/ray-raylet/src/resource_manager.rs:39-43 | With no task in flight, every lookup is the total minus the leases. |
| `SchedulerProgress.RoundMakesProgress` | crates/ray-raylet/src/scheduler.rs:76-143 | From every conserved state, leases or not, a round (all in-flight tasks complete, then a command that submits nothing is handled, with any completions, sends and non-negative leases in between) dispatches a queued task or leaves only tasks that exceed the total minus the leases. |
| `SchedulerProgress.QueueEmptiesInRounds` | crates/ray-raylet/src/scheduler.rs:76-143 | After as many rounds as tasks were queued, the queue holds only tasks that exceed the total minus the leases; without leases, the total. |
| `SchedulerProgress.RoundIsPossible` | crates/ray-raylet/src/scheduler.rs:76-143 | From every state at the receive point with an empty channel a round can happen. |
| `SchedulerLeases.DispatchedLaterIsFeasible` | crates/ray-raylet/src/server.rs:204-247 | With non-negative demands every task dispatched in any continuation fits into the total minus the leases granted by now. |
| `SchedulerLeases.DispatchableIffFeasible` | crates/ray-raylet/src/server.rs:204-247 | In every reachable state, with non-negative demands, some continuation dispatches a given task if and only if it needs no more than the total minus the leases granted so far. |
| `SchedulerLeases.LeaseTakesExactly` | crates/ray-raylet/src/server.rs:204-237 | A lease is granted if and only if it fits, and then takes its amounts; otherwise nothing changes. |
| `SchedulerLeases.OneLeaseCanBlock` | crates/ray-raylet/src/server.rs:204-247 | From every reachable state, for every task that needs some of a resource, one lease of that resource can end its chances in every continuation. |
| `SchedulerFairness.SafeUntilCompletion` | crates/ray-raylet/src/scheduler.rs:76-143 | From every state with non-negative demands, a task that does not fit now is overtaken in no continuation before a completion, neither by a submission nor inside a drain. |
| `SchedulerFairness.OvertakenIffItFits` | crates/ray-raylet/src/scheduler.rs:76-143 | At the receive point with an empty channel, some continuation without completions overtakes a queued task with one that needs no less, under any name, if and only if it fits now. |
| `SchedulerFairness.OvertakenIffFeasible` | crates/ray-raylet/src/scheduler.rs:76-143 | With completions, some continuation overtakes it if and only if it needs no more than the total minus the leases. |
| `SchedulerFairness.OvertakenInDrainIffFeasible` | crates/ray-raylet/src/scheduler.rs:121-142 | Inside a drain, completions before the next try can make the task tried next overtake one already passed over that needs no more, if and only if the task tried next needs no more than the total minus the leases. |
| `SchedulerFairness.OvertakingNeedsRelease` | crates/ray-raylet/src/scheduler.rs:76-143 | In every run with non-negative demands a task is overtaken, by a submission or inside a drain, only if some of what it needs was released since that drain, or the last one, began. |
| `SchedulerFairness.QueuedTaskCanStarve` | crates/ray-raylet/src/scheduler.rs:76-143 | On every node, for every sequence of later submissions that each fit it alone and leave too little for an earlier task, some run dispatches all of them, in order, while that task stays queued. |
| `LocalScheduling.LocalScheduler.Act` | crates/ray-raylet/src/scheduler.rs:163-192 | A completion, a lease request or a send between two actions of the loop is exactly that action of the transition system. |
| `LocalScheduling.LocalScheduler.TakeCommand` | crates/ray-raylet/src/scheduler.rs:76-118 | Handling the head of the channel in place is the Receive action; a status query gets the status on record, which is the answer the model records. |
| `LocalScheduling.LocalScheduler.TryQueuedTask` | crates/ray-raylet/src/scheduler.rs:125-139 | One try in place is the TryNext action: the task leaves the queue and runs, or is kept. |
| `LocalScheduling.LocalScheduler.Drain` | crates/ray-raylet/src/scheduler.rs:121-142 | The in-place loop over the queue, with other parties acting before each try, ends with every task tried and the fields showing the model state; undisturbed, it computes the first-fit pass. |
| `LocalScheduling.LocalScheduler.HandleNext` | crates/ray-raylet/src/scheduler.rs:76-143 | One turn of the loop is a Receive, a drain with only others' actions in between, and its end; so every claim about runs holds of the object. |
| `WorkerPoolModel.PoolWithinCapacity` | crates/ray-raylet/src/worker.rs:89-156 | In every interleaving of gets, returns and kills the pool holds at most `max_workers` workers, none twice, and the write lock excludes all others. |
| `WorkerPoolSafety.NobodyIsRefused` | crates/ray-raylet/src/worker.rs:89-140 | Without kills, while at most as many callers are live as the pool may hold, no `get_worker` answers None, despite unlocked returns and the two-step claim. |
| `WorkerPoolSafety.BusyWorkersHaveDistinctHolders` | crates/ray-raylet/src/worker.rs:89-156 | In every run, kills included, every busy worker is in some caller's hands, no caller has two, and no more pooled workers are busy than callers are live. |
| `WorkerPoolSafety.NoneBecomesBusyDuringScan` | crates/ray-raylet/src/worker.rs:103-111 | Between any two points of one write-locked scan no worker has become busy, whatever else happened. |
| `WorkerPoolSafety.ExclusiveUnlessClash` | crates/ray-raylet/src/worker.rs:89-156 | From an exclusively owned pool, a step (kills included) keeps ownership exclusive if and only if it does not mark busy a worker that stopped being idle after the caller looked and that is busy or still in a caller's hands. |
| `WorkerPoolSafety.SharedExactlyByClash` | crates/ray-raylet/src/worker.rs:89-156 | A run, kills included, never gives one worker to two callers at once if and only if none of its steps is such a clash. |
| `WorkerPoolSafety.TimelyRunsAreExclusive` | crates/ray-raylet/src/worker.rs:89-156 | In every run without late claims, kills included, no two callers hold one worker. |
| `WorkerPoolLimits.WorkerCanBeShared` | crates/ray-raylet/src/worker.rs:92-97 | For every non-zero capacity some run without kills gives one worker to two callers. |
| `WorkerPoolLimits.KilledWorkerCanComeBack` | crates/ray-raylet/src/worker.rs:130-156 | For every non-zero capacity some run hands a worker out again after its kill has finished. |
| `WorkerPoolLimits.KilledWorkerCanBeClaimed` | crates/ray-raylet/src/worker.rs:89-156 | For every non-zero capacity some run kills a worker under the eyes of a caller that saw it idle, who then gets it. |
| `WorkerPoolLimits.KilledSlotIsReused` | crates/ray-raylet/src/worker.rs:89-156 | For every non-zero capacity some run fills the pool, kills worker 0 and gives its slot to a new caller, who holds a new worker. |
| `WorkerPoolKills.KilledComesBackExactly` | crates/ray-raylet/src/worker.rs:89-156 | From every state with worker w dead, some continuation hands w out again if and only if a caller is about to mark it busy, or is about to mark it idle while w is in the vector and no purge in progress has dropped it. |
| `WorkerPoolKills.DeadForGood` | crates/ray-raylet/src/worker.rs:130-156 | A dead worker that nobody is about to mark busy or idle stays dead in every continuation. |
| `WorkerPoolCalls.DeadIsPurged` | crates/ray-raylet/src/worker.rs:130-156 | Under every interleaving, a dead worker that nobody is about to mark busy or idle is out of the vector once a purge that starts then, or the return of the caller that has it, has ended, and stays out. |
| `WorkerPoolCalls.UnkilledStaysPooled` | crates/ray-raylet/src/worker.rs:130-156 | In every run without a kill of it a pooled worker stays pooled, whatever else is killed and purged. |
| `WorkerPoolCalls.GetAlone` | crates/ray-raylet/src/worker.rs:89-127 | In the transition system `get_worker` run alone gives the first idle worker, else a new one if there is room, else None, from every state with a free lock. |
| `WorkerPoolCalls.ReturnAlone` | crates/ray-raylet/src/worker.rs:130-140 | A return run alone makes a live worker idle; after the return of a dead one exactly the workers that are not dead stay. |
| `WorkerPoolCalls.KillAlone` | crates/ray-raylet/src/worker.rs:143-156 | A kill run alone marks its pooled target dead, and exactly the workers that are not dead stay. |
| `WorkerPoolCalls.SurvivorsExactly` | crates/ray-raylet/src/worker.rs:155 | Those are the members of the vector whose status is not Dead. |
| `WorkerPoolCalls.SurvivorsInOrder` | crates/ray-raylet/src/worker.rs:155 | They keep their order. |
| `WorkerPoolCalls.KillFreesSlot` | crates/ray-raylet/src/worker.rs:89-156 | From every full pool without an idle worker a new caller is refused, but after a kill of any of its workers the next one gets a new worker. |
| `WorkerPoolLimits.OneCallerTooMany` | crates/ray-raylet/src/worker.rs:116-127 | For every capacity some run with one live caller above it refuses that caller, so the bound of `NobodyIsRefused` is exact. |
| `WorkerPooling.WorkerPool.FindIdle` | crates/ray-raylet/src/worker.rs:92-98 | The scan finds the first idle worker, or none if and only if there is none. |
| `WorkerPooling.WorkerPool.GetWorker` | crates/ray-raylet/src/worker.rs:89-127 | As one step: answers None if and only if the pool is full and every worker is lent; otherwise the first free worker or a new one, held by nobody else and never killed. |
| `WorkerPooling.WorkerPool.ReturnWorker` | crates/ray-raylet/src/worker.rs:130-140 | As one step: a live worker becomes idle, a dead one stays dead, and the cleanup of dead workers finds nothing left to remove. |
| `WorkerPooling.WorkerPool.Retain` | crates/ray-raylet/src/worker.rs:135 | The in-place loop keeps exactly the workers that are not dead, in order. |
| `WorkerPooling.WorkerPool.KillWorker` | crates/ray-raylet/src/worker.rs:143-156 | As one step: the first worker with that id is dead and out of the pool for good, the others stay in order; an unknown id changes nothing. |
| `ObjectStoreSafety.SpillAndRestoreAreSafe` | crates/ray-object-store/src/store.rs:119-185 | With write-once ids, in every interleaving a live entry, every spill file of its id and every buffer of a call in progress hold exactly the bytes put. |
| `ObjectStoreSafety.BudgetUnderConcurrency` | crates/ray-object-store/src/store.rs:190-221 | With a non-zero budget, write-once ids and at most k puts between measurement and insert, stored plus pending bytes never exceed k budgets; for k = 1 that is the budget. |
| `ObjectStoreSafety.ReferencesAreCounted` | crates/ray-object-store/src/store.rs:71-116 | In every run a live entry's count is 1 + adds - removes since its insert and at least 1, so eviction removes nothing. |
| `ObjectStoreCalls.PutAlone` | crates/ray-object-store/src/store.rs:190-221 | In the transition system a put run alone succeeds if and only if there is no budget or stored and new bytes stay within it; the object is then new with one reference. |
| `ObjectStoreCalls.SpillAlone` | crates/ray-object-store/src/store.rs:119-152 | A spill run alone succeeds if and only if the object is there; its bytes are in the file, its place on record, nothing else changes. |
| `ObjectStoreCalls.RestoreAlone` | crates/ray-object-store/src/store.rs:155-185 | A restore run alone succeeds if and only if object, record and file are there; the file's bytes are back, record and file are gone. |
| `ObjectStoreCalls.PutThatFitsSucceeds` | crates/ray-object-store/src/store.rs:190-221 | Whatever else happens, a put whose bytes fit at every point of a run does not fail in it. |
| `ObjectStoreCalls.PutFailsExactlyOverBudget` | crates/ray-object-store/src/store.rs:190-221 | A put fails in exactly the step that measures more than a non-zero budget after evicting. |
| `ObjectStoreCalls.SpilledIsRestored` | crates/ray-object-store/src/store.rs:88-185 | After a spill, whatever happens to references and to other ids, a restore succeeds as long as the object lives, with the bytes spilled, and leaves neither record nor file. |
| `ObjectStoreLimits.BudgetBoundIsAttained` | crates/ray-object-store/src/store.rs:190-221 | For every budget and any k distinct ids some run with at most k overlapping puts stores exactly k budgets. |
| `ObjectStoreLimits.LateRestoreUndoesPut` | crates/ray-object-store/src/store.rs:155-185 | For any two values some run completes the put of the second and then holds the first again. |
| `ObjectStoreLimits.UncleanInsertLoses` | crates/ray-object-store/src/store.rs:119-221 | From every state, after an insert while a spill or restore of that id carries other bytes (in a buffer, or in the file it wrote or will read), some continuation loses the latest bytes; one run for each of the four kinds of call. |
| `ObjectStoreLimits.LatestPutWins` | crates/ray-object-store/src/store.rs:119-221 | If every insert of a run is clean, that is, no spill or restore of the id in flight carries other bytes, every live entry holds what its latest put wrote, however often ids are put. |
| `ObjectStoreLimits.LatestPutWinsExactly` | crates/ray-object-store/src/store.rs:119-221 | The latest bytes of every entry are safe at each point of a run, from what is in flight, if and only if each of its inserts is clean. |
| `ObjectStoring.InMemoryObjectStore.TotalSize` | crates/ray-object-store/src/store.rs:56-63 | The loop sums the sizes of all entries, whatever the order. |
| `ObjectStoring.InMemoryObjectStore.EvictZeroRefObjects` | crates/ray-object-store/src/store.rs:71-80 | Removes exactly the entries without references, leaves the others as they are and reports how many went. |
| `ObjectStoring.InMemoryObjectStore.AddReference` | crates/ray-object-store/src/store.rs:88-96 | One more reference on a present entry; bytes, spill place and all other entries stay. |
| `ObjectStoring.InMemoryObjectStore.RemoveReference` | crates/ray-object-store/src/store.rs:100-116 | Drops a reference, removes the entry with its last one and says so; bytes, spill places and all other entries stay. |
| `ObjectStoring.InMemoryObjectStore.Put` | crates/ray-object-store/src/store.rs:190-221 | Run alone: fails if and only if stored plus new bytes exceed a non-zero budget, so eviction never helps; a replaced entry counts in full. |
| `ObjectStoring.InMemoryObjectStore.Delete` | crates/ray-object-store/src/store.rs:246-251 | Removes the entry and nothing else. |
| `ObjectStoring.InMemoryObjectStore.SpillToDisk` | crates/ray-object-store/src/store.rs:119-152 | Writes the bytes to the file and records its place, or fails without change if and only if the object is absent. |
| `ObjectStoring.InMemoryObjectStore.RestoreFromDisk` | crates/ray-object-store/src/store.rs:155-185 | Restores from the recorded file and removes it; succeeds if and only if the object, the record and the file exist. |
| `ObjectStoring.InMemoryObjectStore.SpillAndRestore` | crates/ray-object-store/src/store.rs:119-185 | Spilling and restoring gives the same bytes and references back and leaves no file. |
| `ObjectStoring.InMemoryObjectStore.SpillChangeRestore` | crates/ray-object-store/src/store.rs:88-185 | With any references added and removed between a spill and its restore, the restore succeeds if and only if the object survived, with the bytes spilled and no file left. |
| `Placement.MaxIsLastMaximum` | crates/ray-scheduler/src/policy.rs:32-61 | Spread's choice has the most available CPU, the last of equal ones. |
| `Placement.MinIsFirstMinimum` | crates/ray-scheduler/src/policy.rs:76-104 | Pack's choice has the least available CPU, the first of equal ones. |
| `Placement.SelectionIsOptimal` | crates/ray-scheduler/src/policy.rs:32-104 | A policy selects if and only if some node satisfies the requirement, and then one with the most (Spread) or least (Pack) available CPU among those. |
| `Placement.SelectionIgnoresOrder` | crates/ray-scheduler/src/policy.rs:32-104 | Outcome, error and chosen CPU value do not depend on the node order. |
| `Placement.ChosenNodeAdmits` | crates/ray-scheduler/src/policy.rs:32-104 | If no view overstates its node, `try_allocate` on the chosen node succeeds. |
| `Placement.GlobalScheduler.UpdateNode` | crates/ray-scheduler/src/global.rs:53-56 | Replaces the view of that node and keeps every view filed under its own id. |
| `Placement.GlobalScheduler.RemoveNode` | crates/ray-scheduler/src/global.rs:59-62 | Removes that node's view only. |
| `Placement.GlobalScheduler.ScheduleTask` | crates/ray-scheduler/src/global.rs:65-78 | Succeeds if and only if some alive node satisfies the requirement, with one of the most (Spread) or least (Pack) available CPU; the error tells having no alive node from having none that fits. |
| `RuntimeModel.RunsScheduler` | crates/ray-raylet/src/scheduler.rs:152-193 | Every run of the runtime is a run of the scheduler. |
| `RuntimeModel.RunsPool` | crates/ray-raylet/src/scheduler.rs:152-193 | Every run of the runtime is a run of the worker pool. |
| `RuntimeModel.RunsStore` | crates/ray-raylet/src/scheduler.rs:152-193 | Every run of the runtime is a run of the object store. |
| `RuntimeWorkers.NoTaskGoesWithoutWorker` | crates/ray-raylet/src/worker.rs:89-140 | With non-negative requirements, at least some share of a CPU per task, no kills and as many workers as shares that make up the CPUs, at most that many tasks are in flight, `get_worker` never answers None and every busy worker is in a caller's hands; a share of one CPU gives `max_workers` at least the CPU count. |
| `RuntimeResults.FinishedTasksReleaseEverything` | crates/ray-raylet/src/scheduler.rs:152-193 | However tasks ended, once all dispatched ones are finished every resource is back at its total minus the leases. |
| `RuntimeResults.FinishedTasksDeliver` | crates/ray-raylet/src/scheduler.rs:163-192 | With distinct result and client ids, unlimited budget and no deletes or reference removals: a finished task that succeeded left its first return id mapped to its function applied to its payload, a failed one left no entry. |
| `RuntimeClients.NothingElseIsStored` | crates/ray-raylet/src/scheduler.rs:163-192 | Under the same conditions whatever is stored was put by a client or is the result of a task under its first return id. |
| `RuntimeClients.ClientPutIsKept` | crates/ray-runtime/src/lib.rs:137-141 | Under the same conditions a client's put never fails, and once done its object is there with the bytes put in every continuation. |
| `RuntimeExecution.FinishedTasksRanOnce` | crates/ray-raylet/src/executor.rs:75-98 | In every run a finished task was executed exactly once, with the function registered under its name at that point. |
| `RuntimeExecution.LatestRegistrationCounts` | crates/ray-raylet/src/executor.rs:52-59 | At every point of every run the registry holds for a name what the latest registration or removal of it said, and nothing if there was none. |
| `RuntimeProgress.DispatchedTasksFinish` | crates/ray-raylet/src/scheduler.rs:152-193 | From every reachable state, any interleaving of the actions that bring tasks, pool calls and store calls forward is bounded in length, and such an action is available until every dispatched task is over: nothing deadlocks. |
| `RuntimeProgress.EverythingCanFinish` | crates/ray-raylet/src/scheduler.rs:152-193 | From every reachable state all dispatched tasks can finish without another command, and everything but the leases is then back. |
| `RuntimeSettling.EverythingFeasibleFinishes` | crates/ray-raylet/src/scheduler.rs:64-193 | From every reachable state of the whole runtime, with no further submission (only status queries), some continuation ends with every dispatched task over, the channel empty, and only tasks queued that exceed the total minus the leases. |
| `LocalRuntime.CallDelivers` | crates/ray-runtime/src/lib.rs:34-129 | On a default runtime, with unique ids and no deletes, a submitted call that has finished leaves its return id mapped to what the function registered under its name when it was executed makes of its payload, or to nothing on failure. |
| `LocalRuntime.CallsAlwaysGetWorkers` | crates/ray-runtime/src/lib.rs:64-129 | A runtime given only function calls and no leases has exactly one CPU taken per call in flight, and gives each a worker if it has as many workers as CPUs. |
| `LocalRuntime.DefaultConfigNeverStarves` | crates/ray-runtime/src/lib.rs:34-45 | The default configuration never has more than two workers per CPU and, in any run without kills, leaves no task that needs at least half a CPU without one. |
| `RuntimeCalls.CallCanBeMade` | crates/ray-runtime/src/lib.rs:64-129 | On every machine with a CPU, for every function and payload, some run registers the function, submits the call and ends with exactly its result, or nothing on failure, under the return id. |
| `Executing.FunctionRegistryExecutor.RegisterFn` | crates/ray-raylet/src/executor.rs:52-54 | From then on `execute` of any task with that name yields the new function applied to its payload, and every other task gets the answer it got before. |
| `Executing.FunctionRegistryExecutor.UnregisterFn` | crates/ray-raylet/src/executor.rs:57-59 | From then on `execute` of any task with that name is rejected as not registered, and every other task gets the answer it got before. |
| `Executing.FunctionRegistryExecutor.Execute` | crates/ray-raylet/src/executor.rs:75-98 | Yields the answer the registrations above promise, which is the outcome the runtime model records for the task; "not registered" if and only if the name is unbound. |

## Left out

- gRPC servers, build scripts and protocol conversion: transport over generated code; of the raylet server only worker leases are modelled.
- `serialize.rs`, `shared_memory.rs`, `traits.rs` and the Python bindings: thin wrappers and plain records.
- The GCS store: independent maps with no invariant between them.
- `get` and `wait` of the object store: their outcome depends on deadlines and sleeping.
- Rounding, NaN and overflow of quantities, sizes and counts; file-system errors and partial writes.
- `dependency_ids`, `max_retries` and `job_id` of a task: the scheduler does not read them.
- `LocalExecutor`, `has_fn`, `get_all_nodes`, `alive_node_count`, `object_count` and the pool's counters: only easy members.
- Shutdown: the channel never closes in the model.
- WorkerPooling.WorkerPool: its calls are single steps; overlapping calls, and so unlocked returns, are in WorkerPoolModel.
- ObjectStoring.InMemoryObjectStore: its calls are single steps; overlapping calls are in ObjectStoreModel.
- LocalScheduling.LocalScheduler: a dispatched task is one record until it completes; its phases (worker, execution, result, return) are in RuntimeModel.
