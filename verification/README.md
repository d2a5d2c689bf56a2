# SignalOS: a verified model of its protocols, schedulers and logs

A Dafny model of the parts of SignalOS whose correctness is hardest to see from
one function body, with proofs of what they are for. `dafny verify
dfyconfig.toml` checks everything.

| file | models |
|---|---|
| `DeliveryCancel.dfy`, `DeliveryRuns.dfy` | governed deliveries and their cancellation: the stdin reader and the worker thread as an interleaved transition system, and its executions |
| `WaveLevels.dfy`, `WaveDispatch.dfy`, `WaveRuns.dfy` | the wave scheduler: memoised levelling, level-by-level dispatch, and what a run amounts to: failure propagation, the summary |
| `PlanValidation.dfy`, `Graphs.dfy` | plan validation with its three-colour search; chains, reachability and depth in dependency graphs |
| `TaskRows.dfy`, `TaskRuns.dfy`, `TaskStore.dfy`, `SqlTaskStore.dfy` | the lease-based task store: its contract, whole-run properties, the in-memory objects, and the SQL table as a simulation |
| `BrainLog.dfy`, `BrainSearch.dfy` | the append-only knowledge log as an ordered map; search ranking over it |
| `PanelSync.dfy` | the all-or-nothing multi-file install |
| `Substitution.dfy`, `Redaction.dfy` | case-insensitive substitution and when it erases a subject; erasure of a data subject from the JSON-lines records, and the export |
| `Scrubber.dfy` | the triple-quote scrubber |
| `Ulid.dfy`, `Decimal.dfy` | ULIDs and decimal numerals |
| `Collections.dfy`, `Text.dfy`, `Wrappers.dfy` | distinct sequences and permutations, `strip` and case folding, the option type |

Code that works by changing things step by step is modelled by classes and
methods with loops, each tied by its contract to a function or relation on
values; the properties are proved about those. The cancellation protocol is a
transition system on values, because it is run by two threads at once. What the
program leaves to its environment (clocks, random bits, providers, what each
worker returns and which of them a wait finds finished, which file operations
fail) is a parameter, or a field of `Step`.

## What the proofs assume

- Cancellation: each `Step` is atomic. Deliver's registration, verdict's
  prelude, cancel's terminalising block, and the check and cleanup after a run
  are one step each; publishing the flag, writing the marker, every action of
  the running orchestrator and the deregistration of the worker are separate
  steps. Splitting the first group further breaks the claims.
- Every task handed to the scheduler has a `task` or `branch` key. Its two
  sources set one: plan tasks (python/signalos_lib/orchestrator.py:191-203) and
  the worktree manager
  (python/signalos_lib/_bundle/core/execution/build/worktree-manager.sh:222-258).
- Of workers it is assumed only that a future yields a record or raises.
  `_execute_task` returns records whose `result` is itself a record
  (python/signalos_lib/orchestrator.py:1484); the dispatch loop is modelled for
  others too, and `WaveRuns.OneRowEach` says what this one gives.
- Scoring is over the reals, with a logarithm of which only "positive above 1"
  is assumed, and for comparing weights that it increases; lease times are reals.
- JSON text that the program writes is read back as the value that was written.
- Case folding, digits and identifiers are ASCII.
- In the install: temporaries have names of their own, removing a temporary
  succeeds, and equal digests mean equal bytes.

## Where the code and its description part

- A delivery that has completed can still be recorded as cancelled, because the
  reader may have looked the run up before it was unregistered. A step of the
  reader does so exactly when it is cancel's last one, for such a run, with no
  worker registered and the write succeeding
  (`DeliveryCancel.FinishedOverwrittenIff` for the object in memory,
  `FinishedRecordOverwrittenIff` for the record on disk); over executions see
  `RecordOverwritten` and `HeldSinceLookup`, and for an execution in which it
  happens `LateCancelOverwritesComplete`.
- A cancel that looked its run up before it was resumed cancels the earlier
  orchestrator and takes the run out of the registry, so that the resumed
  orchestrator is left awaiting a verdict with the delivery lock. A step of the
  reader does so exactly when it is cancel's last one, for another orchestrator
  than the registered one, with no worker registered and the write succeeding
  (`DeliveryRuns.DropsUncancelledIff`); the run must have been started or resumed
  in between (`StaleSinceLookup`), and `StaleCancelLeavesOrchestrator` is an
  execution in which it happens.
- "Bounded retry" bounds reported failures, not claims. A task is claimed at most
  `max_attempts` times more often than a lease on it lapses
  (`TaskRuns.ClaimsBounded`); while leases lapse there is no bound
  (`TaskRuns.ClaimsUnbounded`).
- The SQL store answers like the in-memory store if and only if at every claim
  the task enqueued first, of those that can be claimed, is strictly the oldest
  (`SqlTaskStore.AnswersAgree`). Two tasks created at the same instant break
  this (`SqlTaskStore.TiesMayDiffer`).
- The cycle error names the first listed task that leads to a cycle
  (`PlanValidation.ValidateTasks`). It lies on one only if it is its own ancestor
  (`PlanValidation.OnCycleIff`); `PlanValidation.ReportsDependant` validates a
  plan for which it is not.
- The id pattern `^[0-9A-Z]{26}$` also accepts a newline after an id, and only
  there (`PlanValidation.NewlineAllowed`); an accepted id has 26 characters if and
  only if it does not end in one (`PlanValidation.UlidLength`).
  `PlanValidation.AcceptsNewline` validates a plan with such an id.
- An embedding upgrade appends two lines for each entry. Stopped after n lines it
  loses an entry if and only if n is odd, and then it is the one entry whose
  tombstone came last (`BrainLog.InterruptedUpgradeKeepsAll`,
  `BrainLog.InterruptedUpgrade`).
- Erasure replaces occurrences inside a field, not the field; it skips a field
  called `_source_file`, which the search for matches does look at
  (`Redaction.MentionsAfterPurge`). A subject can survive it if and only if the
  tag contains it or can complete a new occurrence of it
  (`Redaction.PurgeIsSure`); `x[` is such a subject
  (`Redaction.BracketsCanReform`), `[x]` is not (`Redaction.SomeBracketsErased`).
- An install that raises does not always restore the originals. For n acceptable
  targets it makes 7n operations that may fail, and n more for the report. If one
  of the former fails it restores the originals, all of them unless another
  operation fails while it does; it raises with every target installed if and
  only if the first failure is in the report (`PanelSync.Synchronize`).
  `PanelSync.RaisesInstalled` is such a call.

## Model

| member | source | states |
|---|---|---|
| DeliveryCancel.StepInv | python/signalos_ipc_server.py:1106-1184 | every step of either thread keeps the invariant: registry, worker, reader and open cancels stay consistent |
| DeliveryCancel.ExecutionInv | python/signalos_ipc_server.py:3526-3566 | hence every state of every interleaving, from any freshly started sidecar, satisfies it |
| DeliveryCancel.NoAcceptedCancelIsLost | python/signalos_ipc_server.py:1652-1682 | once a cancel has written its marker while the delivery is open, whichever orchestrator it had looked up, flag or marker stays set in every later state up to a step that ends the delivery |
| DeliveryCancel.CancelHeld | python/signalos_ipc_server.py:1055-1059 | an open cancel stays open and visible, over any stretch of any execution, until a step about that run ends its delivery |
| DeliveryCancel.DroppedOnlyByEnd | python/signalos_ipc_server.py:1149-1184 | any step that forgets an open cancel deals with that run and leaves it unregistered and terminal, or is the cleanup of a start that raised or found the workspace taken |
| DeliveryCancel.PostRunSettles | python/signalos_ipc_server.py:1163-1184 | a deliver or verdict that returns normally leaves no unanswered request: the run is over, or nothing is requested; where the check cancels it, that is recorded, and the orchestrator's lock is free and no other |
| DeliveryCancel.VerdictHonoursCancel | python/signalos_ipc_server.py:1372-1393 | with a request pending the next verdict cancels, persists and frees the orchestrator's own lock instead of running a gate; if persisting fails request and lock stay |
| DeliveryCancel.CancelAnswered | python/signalos_ipc_server.py:1662-1682 | when a cancel finishes, the run has ended as cancelled and the lock of the orchestrator it looked up, and no other, is free, or the request is left for the registered worker or the next resume |
| DeliveryRuns.OpenCancelsAreOfOpenDeliveries | python/signalos_ipc_server.py:1609-1682 | in every execution an open cancel's delivery is registered or resumable, or its resume has just recorded the cancellation |
| DeliveryRuns.NextRequestCancels | python/signalos_ipc_server.py:1372-1393 | from when a cancel is open and no worker is registered for its run, as after a verdict that raised, no gate of it runs until the delivery ends; the next verdict ends it as cancelled or leaves the cancel open, the next resume records the cancellation or fails |
| DeliveryRuns.CancelledResumeEnds | python/signalos_ipc_server.py:1724-1770 | a resume that has recorded the cancellation ends the delivery by its next step |
| DeliveryRuns.LockIsRespected | python/signalos_ipc_server.py:1106-1184 | no step takes the lock from an orchestrator but on that orchestrator's behalf |
| DeliveryRuns.FailedCancelLeavesNoTrace | python/signalos_ipc_server.py:1652-1661 | a cancel whose marker cannot be written leaves the sidecar as it found it |
| DeliveryRuns.EndForgetsRequest | python/signalos_ipc_server.py:1149-1184 | a run that leaves the registry has no flag, and no marker unless it could not be deleted or another delivery held the workspace |
| DeliveryRuns.DeliveryStartsUnrequested | python/signalos_ipc_server.py:1106-1108 | a new delivery is requested to stop exactly if a flag was set before or an old marker could not be deleted |
| DeliveryRuns.RaisedStartIsCleanedUp | python/signalos_ipc_server.py:1145-1157 | a start that raised leaves run, flag and the orchestrator's lock behind it |
| DeliveryRuns.UnwrittenCancellation | python/signalos_ipc_server.py:1163-1173 | a cancellation that cannot be written is one in memory only, and the request stays |
| DeliveryRuns.ResumeRestores | python/signalos_ipc_server.py:1815-2001 | a resume registers a new orchestrator with the recorded status and the lock and writes nothing, or finds the delivery over, has that on record and registers nothing |
| DeliveryCancel.NoOperationStartsWhilePending | python/signalos_ipc_server.py:1372-1403 | no operation begins on a run whose cancel is open |
| DeliveryCancel.WorkersAreRegistered | python/signalos_ipc_server.py:788-795 | registered workers are active deliveries, and there is at most one |
| DeliveryCancel.ReaderRespectsWorker | python/signalos_ipc_server.py:1662-1680 | while a run's worker is registered no reader step writes its status in memory or on disk, takes its lock or unregisters it |
| DeliveryCancel.FinishedOverwrittenIff | python/signalos_ipc_server.py:1609-1680 | a finished orchestrator is rewritten in memory by a reader step exactly when that is cancel's last one, for the object it looked up earlier, with no worker registered |
| DeliveryCancel.FinishedRecordOverwrittenIff | python/signalos_ipc_server.py:1662-1680 | a record on disk of a completed or stopped delivery is changed by a reader step exactly when that is cancel's last one on that run, it had found the run registered, no worker is, and the write succeeds; it then says cancelled |
| DeliveryCancel.RecordOverwritten | python/signalos_ipc_server.py:1609-1680 | over any stretch of any execution after a delivery is over and until it is resumed: its record stays, unless such a cancel step occurs, after which it says cancelled; the cancel was already under way at the start |
| DeliveryCancel.HeldSinceLookup | python/signalos_ipc_server.py:1609-1651 | a cancel under way that found its run registered looked it up earlier in the execution, while it was, and has held that object since |
| DeliveryCancel.LateCancelOverwritesComplete | python/signalos_ipc_server.py:1665-1680 | a concrete execution in which a delivery completes, is unregistered, and is then recorded as cancelled |
| DeliveryRuns.DropsUncancelledIff | python/signalos_ipc_server.py:1662-1680 | a reader step unregisters a run whose registered orchestrator it does not cancel exactly when cancel's last step succeeds for another one; the record says cancelled, and the registered one keeps its status and the lock |
| DeliveryRuns.StaleSinceLookup | python/signalos_ipc_server.py:1609-1662 | when a cancel holds another orchestrator than the registered one, the run was started or resumed after the lookup, and that one has been registered since |
| DeliveryRuns.StaleCancelLeavesOrchestrator | python/signalos_ipc_server.py:1662-1680 | an execution in which a cancel that is open leaves the resumed orchestrator awaiting its verdict, unregistered and with the lock |
| WaveLevels.Leveller.Depth | python/signalos_lib/orchestrator.py:1583-1592 | on any graph the recursion terminates, memoises, never changes a recorded level, and keeps every level justified and bounded |
| WaveLevels.Leveller.MaxBelow | python/signalos_lib/orchestrator.py:1590 | the maximum over in-plan dependencies, whatever the recursion records on the way |
| WaveLevels.LevelAll | python/signalos_lib/orchestrator.py:1594-1595 | every distinct id gets exactly one level, no level exceeds the number of ids, and a dependency not on a cycle is strictly lower |
| WaveLevels.AcyclicLevels | python/signalos_lib/orchestrator.py:1574-1576 | without cycles every in-plan dependency is strictly lower, and a positive level is one above some dependency's |
| WaveLevels.LevelHasChain | python/signalos_lib/orchestrator.py:1590 | a task at level d starts a chain of d dependencies |
| WaveLevels.AcyclicLevelsAreDepths | python/signalos_lib/orchestrator.py:1569-1595 | without cycles every level is the length of the longest dependency chain |
| WaveLevels.LevelsIgnoreTaskOrder | python/signalos_lib/orchestrator.py:1581-1595 | so any two orders of visiting, and of memoising, give the same levels |
| WaveLevels.NoGaps | python/signalos_lib/orchestrator.py:1597-1601 | below an occupied level every level is occupied |
| WaveLevels.Index | python/signalos_lib/orchestrator.py:1579 | the loop builds the dict of tasks by key, last task winning, keys in order of first use |
| WaveLevels.KeysInFirstUse | python/signalos_lib/orchestrator.py:1579 | the keys are in the order of their first use |
| WaveLevels.LastTaskWins | python/signalos_lib/orchestrator.py:1579 | each key holds the last task that uses it |
| WaveLevels.BucketOrder | python/signalos_lib/orchestrator.py:1597-1601 | within a level the tasks are in the order of their keys |
| WaveLevels.Group | python/signalos_lib/orchestrator.py:1597-1601 | the grouping loop puts each task in the wave of its level, in dict order, and drops empty waves |
| WaveLevels.TopologicalSort | python/signalos_lib/orchestrator.py:1569-1601 | the whole function: levels with the guarantees above, and the waves they induce |
| WaveLevels.WavesPartition | python/signalos_lib/orchestrator.py:1598-1601 | the waves hold every distinct task exactly once, and none is empty |
| WaveLevels.AcyclicWavesAreLevels | python/signalos_lib/orchestrator.py:1597-1601 | without cycles no wave is dropped: wave l is level l |
| WaveDispatch.BlockPass | python/signalos_lib/orchestrator.py:2129-2148 | the pass over one level blocks exactly the tasks with a recorded dependency and keeps the rest; to the log it adds their blocking and nothing else |
| WaveDispatch.Pool | python/signalos_lib/orchestrator.py:2161-2232 | the done/pending loop terminates with no task of the level left without a result, however waits and timeouts fall; each dispatched task has the fate its worker gave it, or that of a timeout exactly if no wait found it finished |
| WaveDispatch.RunLevels | python/signalos_lib/orchestrator.py:2128-2232 | the log has one event for each scheduled task, obeys the blocking rule and the workers' outcomes, and explains the rows and the aborted ids |
| WaveRuns.SameFate | python/signalos_lib/orchestrator.py:2128-2232 | two runs with the same workers, whatever finished future each handles first, give each task the same fate |
| WaveRuns.OrderDoesNotMatter | python/signalos_lib/orchestrator.py:2177-2264 | so they have the same rows up to order, and the same summary |
| WaveRuns.BlockedHasOrigin | python/signalos_lib/orchestrator.py:2134-2141 | behind every blocked task there is a proper ancestor that failed, aborted or timed out on its own account, on graphs with cycles too |
| WaveRuns.FailureBlocks | python/signalos_lib/orchestrator.py:2134-2141 | a recorded failure blocks every task that reaches it, over any number of levels |
| WaveRuns.DispatchedIffAncestorsClear | python/signalos_lib/orchestrator.py:2128-2232 | a task is dispatched if and only if no proper ancestor was recorded failed, aborted or timed out |
| WaveRuns.ResultConservation | python/signalos_lib/orchestrator.py:2128-2232 | one event and one row for each scheduled task, and one row more for each malformed record |
| WaveRuns.SummaryConservation | python/signalos_lib/orchestrator.py:2250-2264 | a summary exists unless a record was malformed; its counts never exceed the scheduled tasks, and equal them exactly when every status is counted |
| WaveRuns.SummaryTells | python/signalos_lib/orchestrator.py:2196-2264 | it counts as completed the tasks whose worker returned that, as failed those blocked, timed out, raised, failed or aborted, as paused those paused, and says all completed exactly when none failed and none is paused |
| WaveRuns.FatesOfLevel | python/signalos_lib/orchestrator.py:2177-2232 | at a level where no wait times out every dispatched task has its worker's outcome; if the first wait does, all are timed out |
| WaveRuns.OneRowEach | python/signalos_lib/orchestrator.py:2128-2264 | when the records that workers return have a record for their result, each scheduled task has exactly one row, with its step and the status its fate stands for, and there is a summary |
| WaveRuns.WavesAreOrdered | python/signalos_lib/orchestrator.py:2104-2105 | the waves of an acyclic plan schedule every task after all it depends on |
| WaveRuns.Schedule | python/signalos_lib/orchestrator.py:2104-2105 | without a graph one level; with one the leveller's waves, which hold exactly the plan's tasks, in order if they are named and the graph is acyclic |
| WaveRuns.RunWave | python/signalos_lib/orchestrator.py:2104-2264 | graph to summary: the leveller's waves are dispatched, the log obeys the workers' outcomes and the blocking rule, the summary tells its fates, and for acyclic plans of named tasks a task is dispatched exactly when no ancestor failed, aborted or timed out |
| PlanValidation.CheckFields | python/signalos_lib/plan.py:291-323 | the errors for one task are exactly its field faults and its duplicate id, with the first index |
| PlanValidation.CheckReferences | python/signalos_lib/plan.py:325-331 | exactly the dependencies that name no task are reported |
| PlanValidation.Search.Dfs | python/signalos_lib/plan.py:339-347 | true only if the node leads to a cycle; false leaves it and all it reaches finished, ranked above their dependencies |
| PlanValidation.FindCycle | python/signalos_lib/plan.py:335-353 | the search finds something if and only if the dependency relation has a cycle, and then the first listed task that leads to one |
| PlanValidation.ValidateTasks | python/signalos_lib/plan.py:276-355 | no errors if and only if fields, ids and references are right and the relation is acyclic; a cycle is reported if and only if all else is right and there is one, and alone, with the first listed task that leads to one |
| PlanValidation.OnCycleIff | python/signalos_lib/plan.py:335-353 | a task lies on a cycle if and only if it is among its own ancestors |
| PlanValidation.ReportsDependant | python/signalos_lib/plan.py:349-353 | for a concrete plan the validator reports a task that lies on no cycle |
| PlanValidation.UlidLength | python/signalos_lib/plan.py:288-298 | an id that matches the pattern has 26 characters if and only if it does not end in a newline |
| PlanValidation.NewlineAllowed | python/signalos_lib/plan.py:288-298 | text and a newline match if and only if the text does and has 26 characters |
| PlanValidation.AcceptsNewline | python/signalos_lib/plan.py:276-355 | for every id the validator accepts a plan whose id is that one and a newline |
| PlanValidation.NoFaultReported | python/signalos_lib/plan.py:276-331 | reporting nothing before the cycle search means well-formed fields, unique ids and resolved references |
| PlanValidation.FaultFreeFields | python/signalos_lib/plan.py:276-331 | which fields, statuses, tiers and efforts these are |
| PlanValidation.ValidPlanLevels | python/signalos_lib/plan.py:325-355 | the same graph, levelled, puts every task of an accepted plan at its longest-path depth, above all its dependencies |
| Ulid.MakeUlid | python/signalos_lib/plan.py:47-63 | the two shift-and-mask loops spell out the timestamp and the randomness |
| Ulid.DecodeEncode | python/signalos_lib/plan.py:52-62 | decoding n characters gives the number modulo 32 to the n |
| Ulid.AlphabetIsCrockford | python/signalos_lib/plan.py:47-63 | the characters are the digits and the capitals but I, L, O and U |
| Ulid.UlidIsAccepted | python/signalos_lib/plan.py:288-298 | every generated id has 26 characters and matches the validator's pattern |
| Ulid.UlidRoundTrip | python/signalos_lib/plan.py:47-63 | decoding gives both inputs back if and only if the time is below 2^50 and the randomness below 2^80 |
| Ulid.UlidOrder | python/signalos_lib/plan.py:50-55 | for times below 2^50, an earlier time gives a lexicographically smaller id |
| TaskStore.InMemoryTaskStore.Enqueue | python/signalos_lib/task_store.py:42-45 | idempotent: a known id changes nothing, a new one is queued last |
| TaskStore.InMemoryTaskStore.Claim | python/signalos_lib/task_store.py:48-57 | the scan over the objects takes the first claimable task in insertion order, leases that one and touches no other |
| TaskStore.InMemoryTaskStore.Heartbeat | python/signalos_lib/task_store.py:60-65 | renews a running task's lease, and reports whether it did |
| TaskStore.InMemoryTaskStore.Fail | python/signalos_lib/task_store.py:74-85 | counts the attempt, then requeues or buries the one task it names |
| TaskStore.InMemoryTaskStore.ReclaimExpired | python/signalos_lib/task_store.py:88-96 | requeues exactly the running tasks whose lease has lapsed and returns how many there were |
| TaskRuns.BudgetKept | python/signalos_lib/task_store.py:73-85 | in every run queued and running tasks have fewer than max_attempts attempts |
| TaskRuns.AttemptsGrow | python/signalos_lib/task_store.py:78 | attempts never decrease, over any stretch of any run |
| TaskRuns.ExhaustedNeverClaimed | python/signalos_lib/task_store.py:48-57 | a task at the bound is never claimed again, whatever callers do |
| TaskRuns.RequeuesBounded | python/signalos_lib/task_store.py:80-83 | fail requeues one task at most max_attempts - 1 times in a whole run |
| TaskRuns.CrashesAreNotCounted | python/signalos_lib/task_store.py:87-96 | a run of any length in which one task is claimed at every event and its attempts never move |
| TaskRuns.ClaimsBounded | python/signalos_lib/task_store.py:47-96 | in every run a task is claimed at most max_attempts times more often than a lease on it lapses |
| TaskRuns.BoundReached | python/signalos_lib/task_store.py:47-96 | for every max_attempts and every number of lapses a run reaches that bound |
| TaskRuns.ClaimsUnbounded | python/signalos_lib/task_store.py:47-57 | for every n a run with n claims of one task and no attempt counted |
| TaskRuns.LeaseFollowed | python/signalos_lib/task_store.py:48-65 | between two claims the row is running with the claim's deadline as last renewed, or was requeued after that deadline, or is done |
| TaskRuns.LeaseExclusion | python/signalos_lib/task_store.py:47-65 | two successive claims without a fail in between: the first deadline, as last renewed, has passed |
| TaskRuns.LeaseEndsBeforeReclaim | python/signalos_lib/task_store.py:47-65 | the same for any two claims of a task, however many lie between |
| SqlTaskStore.PostgresTaskStore.Claim | python/signalos_lib/postgres_task_store.py:83-107 | one UPDATE leases a claimable row created no later than any other claimable row, if there is one |
| SqlTaskStore.PostgresTaskStore.Fail | python/signalos_lib/postgres_task_store.py:125-141 | whichever in-memory store the table corresponds to, after the UPDATE it corresponds to that store after `fail`: the CASE expressions decide and count as it does |
| SqlTaskStore.ClaimsAgree | python/signalos_lib/postgres_task_store.py:91-98 | every row the SELECT may return is the in-memory store's choice if and only if the first claimable task in insertion order was created before every other claimable one |
| SqlTaskStore.StepSimulated | python/signalos_lib/postgres_task_store.py:73-148 | each statement is matched by the in-memory operation, a claim under that condition: same answer, and the two states correspond again |
| SqlTaskStore.RunSimulated | python/signalos_lib/postgres_task_store.py:73-148 | along every serial run without a tied claim, table and objects agree after every statement on status, attempts, runtime, result, error, and lease while running |
| SqlTaskStore.AnswersAgree | python/signalos_lib/postgres_task_store.py:73-148 | every execution of a run answers every call as the in-memory store does if and only if no claim of it is tied |
| SqlTaskStore.InOrderUntied | python/signalos_lib/postgres_task_store.py:73-98 | which holds if each enqueue that inserts comes at a later time than the ones before |
| SqlTaskStore.ReadsAgree | python/signalos_lib/postgres_task_store.py:150-165 | get and dead_letters see the same rows |
| SqlTaskStore.TiesMayDiffer | python/signalos_lib/postgres_task_store.py:95 | two tasks created at one instant and a claim: a tied run, on which the two stores may answer differently |
| BrainLog.LoadEntries | python/signalos_lib/brain.py:64-91 | the loop computes the replay of the log: last write wins, in order of first put |
| BrainLog.LoadPut | python/signalos_lib/brain.py:83-91 | a put under an id never put before adds the entry at the end |
| BrainLog.LoadTombstone | python/signalos_lib/brain.py:81-82 | a tombstone takes away exactly the entry with its id |
| BrainLog.WithoutAppend | python/signalos_lib/brain.py:81-91 | and leaves the others in their order |
| BrainLog.LoadSkips | python/signalos_lib/brain.py:64-80 | a line that cannot be read or lacks a field changes nothing |
| BrainLog.LoadRewrite | python/signalos_lib/brain.py:340-360 | tombstone and re-append change the entry where it stands |
| BrainLog.NextIdIsFresh | python/signalos_lib/brain.py:101-118 | the next id is on no line of the log, live, pruned or incomplete |
| BrainLog.NextIdIsNext | python/signalos_lib/brain.py:101-118 | it is the prefix and at least three digits: one more than the largest number on any line, one if there is none |
| BrainLog.ComputeNextId | python/signalos_lib/brain.py:101-118 | the loop finds one more than the largest number parsed from any id |
| Decimal.ParsePrint03 | python/signalos_lib/brain.py:114-118 | what the 03d format prints, int reads back, for every integer |
| BrainLog.KnowledgeLog.BrainPut | python/signalos_lib/brain.py:170-194 | loading afterwards gives the old list and the new entry, under an unused id |
| BrainLog.KnowledgeLog.BrainPrune | python/signalos_lib/brain.py:234-246 | loading afterwards gives the old list without that id; appends nothing when it is not live |
| BrainLog.KnowledgeLog.BrainUpgradeEmbeddings | python/signalos_lib/brain.py:326-363 | loading afterwards gives the old list in place, with embeddings filled in and nothing else changed |
| BrainLog.KnowledgeLog.BrainExport | python/signalos_lib/brain.py:249-256 | loading the bundle gives the same list, and the count is its length |
| BrainLog.ExportLoads | python/signalos_lib/brain.py:249-256 | exporting and loading is the identity on the loaded list |
| BrainLog.AppendRefines | python/signalos_lib/brain.py:170-361 | each operation on the log is the operation on the ordered map |
| BrainLog.RunRefines | python/signalos_lib/brain.py:64-361 | hence so is every sequence of operations, from any log |
| BrainLog.PutIdsNeverRepeat | python/signalos_lib/brain.py:101-118 | over any run, an id given to a put is never given again and was not in the log before, pruned or not |
| BrainLog.InterruptedUpgrade | python/signalos_lib/brain.py:331-361 | an upgrade stopped after n appended lines loses an entry exactly if n is odd and the last line is its tombstone, which it then is for one live entry |
| BrainLog.InterruptedUpgradeKeepsAll | python/signalos_lib/brain.py:331-361 | it loses no entry if and only if n is even |
| BrainSearch.SeparatorSplits | python/signalos_lib/brain.py:121-123 | a character outside the alphabet separates tokens |
| BrainSearch.RunIsOneToken | python/signalos_lib/brain.py:121-123 | a maximal run of alphanumerics is one token |
| BrainSearch.CountDocuments | python/signalos_lib/brain.py:140-144 | the dict holds exactly the tokens that occur, with the number of documents they occur in |
| BrainSearch.ScoredTermsOccur | python/signalos_lib/brain.py:154-161 | a scored term occurs somewhere, so the average length it is divided by is positive |
| BrainSearch.DenominatorPositive | python/signalos_lib/brain.py:160-161 | the denominator of every score is positive |
| BrainSearch.Bm25Scores | python/signalos_lib/brain.py:130-163 | the loops compute the score of every document, without dividing by zero; what the score depends on is said next |
| BrainSearch.ScoreAppend | python/signalos_lib/brain.py:153-162 | a score is the sum over the query's terms, repeated ones each time |
| BrainSearch.WeightIs | python/signalos_lib/brain.py:154-162 | each term adds log((n+1)/(df+0.5)) times 2.5 tf over tf + 0.375 + 1.125 dl/average |
| BrainSearch.DocFreqCounts | python/signalos_lib/brain.py:140-144 | df is the number of documents that have the term |
| BrainSearch.TermFreqCounts | python/signalos_lib/brain.py:149-151 | tf is its multiplicity in the document |
| BrainSearch.RarerTermWeighsMore | python/signalos_lib/brain.py:157 | the fewer documents have a term, the more it weighs |
| BrainSearch.FrequentTermWeighsMore | python/signalos_lib/brain.py:158-161 | the more often a document has it, the more it weighs there |
| BrainSearch.LongerDocumentWeighsLess | python/signalos_lib/brain.py:160-161 | the longer the document, the less |
| BrainSearch.ScorePositiveIffShares | python/signalos_lib/brain.py:153-162 | a score is positive if and only if document and query share a token |
| BrainSearch.RankingIsBest | python/signalos_lib/brain.py:213-214 | sorting, filtering and slicing give the best top_n of the positive scores, non-increasing, ties in list order |
| BrainSearch.FilterKeeps | python/signalos_lib/brain.py:217-231 | the listing keeps exactly the entries that pass all given filters |
| BrainSearch.FilterSingle | python/signalos_lib/brain.py:217-231 | each of them once |
| BrainSearch.FilterAppend | python/signalos_lib/brain.py:217-231 | and keeps their order |
| BrainSearch.BrainSearch | python/signalos_lib/brain.py:197-214 | the best top_n of the filtered entries by score, ties in list order; for a blank query the first top_n |
| BrainSearch.FoundShare | python/signalos_lib/brain.py:209-214 | the result is exactly the best top_n of the entries that share a token with the query: their number, their order, and all others rank below |
| BrainSearch.RarerMatchFirst | python/signalos_lib/brain.py:153-214 | of two equally long entries that share one token each with the query, equally often, the one with the rarer token is found first |
| PanelSync.FileSystem.StageBytes | scripts/sync_consult_panel.py:50-66 | a temporary with exactly the payload, or no trace of one and some operation failed |
| PanelSync.StageAll | scripts/sync_consult_panel.py:99-104 | staging changes no existing file and captures every original before anything is replaced; it succeeds if and only if no file operation fails |
| PanelSync.RollBack | scripts/sync_consult_panel.py:112-131 | every replaced target gets its original or its absence back, except those listed as rollback errors |
| PanelSync.Install | scripts/sync_consult_panel.py:94-134 | it succeeds, and installs every target, if and only if none of its seven operations for each target fails; failure changes none but the listed targets, and none at all unless a second operation fails; no temporary remains either way |
| PanelSync.CheckTargets | scripts/sync_consult_panel.py:81-92 | a list is accepted if and only if it has no duplicate and not the canonical file, up to case normalisation, and no irregular file; a duplicate or the canonical file is reported only if it is there |
| PanelSync.Synchronize | scripts/sync_consult_panel.py:69-156 | the whole call: which of its operations fail decides whether it reports, raises with the originals restored but for those listed, or raises in the report with every target installed; the canonical file is never touched |
| PanelSync.RaisesInstalled | scripts/sync_consult_panel.py:69-156 | a call that raises and leaves the target installed |
| Substitution.SubstituteContains | python/signalos_lib/data_privacy.py:90-93 | when the tag contains the subject, or cannot complete a new occurrence of it, the result mentions the subject exactly when the original and the tag both do |
| Substitution.TagDecidesIff | python/signalos_lib/data_privacy.py:90-93 | and this is so for every text only for those subjects |
| Substitution.AlwaysErased | python/signalos_lib/data_privacy.py:90-93 | no text mentions the subject after substitution if and only if the tag neither contains it nor can complete it, as decided by laying one over the other |
| Substitution.NoBracketsNoReform | python/signalos_lib/data_privacy.py:30 | a tag in brackets completes no subject without them |
| Substitution.Untouched | python/signalos_lib/data_privacy.py:90-95 | text that does not mention the subject is unchanged |
| Substitution.MatchIgnoresCase | python/signalos_lib/data_privacy.py:90-91 | whether text mentions a subject does not depend on case, and on everything else |
| Redaction.BracketsCanReform | python/signalos_lib/data_privacy.py:91 | a subject with a bracket, not in the tag, that is still there after substitution |
| Redaction.SomeBracketsErased | python/signalos_lib/data_privacy.py:91 | a subject in brackets that is always erased |
| Redaction.EntryMatches | python/signalos_lib/data_privacy.py:66-71 | the scan finds a mention exactly when some string value has one |
| Redaction.RedactEntry | python/signalos_lib/data_privacy.py:74-96 | every field in its place; source markers and fields without a mention as they were, the others with the subject replaced by the tag; and the flag says whether there was one |
| Redaction.CleanedEntryMatches | python/signalos_lib/data_privacy.py:217-220 | a rewritten record mentions the subject exactly when something was redacted and the tag mentions it |
| Redaction.PurgeLines | python/signalos_lib/data_privacy.py:203-225 | the inner loop keeps unmatched lines, rewrites matched ones, and counts those where something was redacted; what that leaves is said next |
| Redaction.PurgedFileKeeps | python/signalos_lib/data_privacy.py:197-229 | a rewritten file has every line in its place; a rewritten record keeps, in order, every field that is no source marker, as it was unless it mentions the subject |
| Redaction.DropAppend | python/signalos_lib/data_privacy.py:217-220 | the source markers are taken out field by field |
| Redaction.CountOneFile | python/signalos_lib/data_privacy.py:203-229 | a readable file with a mention beyond source markers counts once, and each such line |
| Redaction.CountAppend | python/signalos_lib/data_privacy.py:197-229 | and the counts add up over the files |
| Redaction.UnmatchedLinesKept | python/signalos_lib/data_privacy.py:207-225 | lines that do not mention the subject keep their text and position |
| Redaction.MentionsAfterPurge | python/signalos_lib/data_privacy.py:197-229 | exactly which readable files still mention the subject after a purge |
| Redaction.MentionsAfterPurgeIff | python/signalos_lib/data_privacy.py:197-229 | and this account is right for every file only when the tag contains the subject or cannot complete it |
| Redaction.PurgedFileIsClean | python/signalos_lib/data_privacy.py:197-229 | without source markers no file mentions a subject that the tag neither contains nor can complete |
| Redaction.PurgeIsSure | python/signalos_lib/data_privacy.py:197-229 | and for every other subject some such file still does |
| Redaction.BracketFreeIsErased | python/signalos_lib/data_privacy.py:90-229 | a subject without brackets that the tag does not contain is erased from every text, and from every file without source markers |
| Redaction.ChangedAfterPurge | python/signalos_lib/data_privacy.py:197-229 | a second pass changes a file exactly when the first did and the tag mentions the subject |
| Redaction.PrivacyTool.PurgeSubject | python/signalos_lib/data_privacy.py:184-253 | blank arguments are refused without effect; otherwise every listed file is redacted, the counts are returned and the audit record appended |
| Redaction.AfterPurgeIs | python/signalos_lib/data_privacy.py:197-253 | after it every file is the purged one, and the audit trail has one record more |
| Redaction.PurgeRecordSays | python/signalos_lib/data_privacy.py:232-250 | which tells the counts, the reason and the tag |
| Redaction.PrivacyTool.ExportSubject | python/signalos_lib/data_privacy.py:131-154 | the marked copies of the matching records of every readable file, in listing order |
| Redaction.ExportedExactly | python/signalos_lib/data_privacy.py:138-154 | an export holds a copy of every matching record of every readable file, and nothing else |
| Redaction.WithSourceMarks | python/signalos_lib/data_privacy.py:152 | the copy names the file it is from and is otherwise the record |
| Redaction.ExportEmpty | python/signalos_lib/data_privacy.py:138-154 | the export is empty exactly when no listed readable file mentions the subject |
| Redaction.ExportAfterPurge | python/signalos_lib/data_privacy.py:111-253 | after a purge the export is empty exactly when no file with nothing to redact mentions the subject in a source marker |
| Redaction.SecondPurgeOnlyAudits | python/signalos_lib/data_privacy.py:197-253 | a second purge changes nothing but to append an audit record with both counts zero |
| Scrubber.StripTripleQuoted | python/signalos_lib/artifacts.py:455-490 | the index loop blanks exactly the characters in the bodies of blocks, newlines excepted, and computes the scrubbed text |
| Scrubber.BlockBody | python/signalos_lib/artifacts.py:471-489 | outside blocks the first three quotes of a kind open one, whose body goes up to the next three of that kind or the end of the text; delimiters are in no body |
| Scrubber.NoMoreBodies | python/signalos_lib/artifacts.py:471-480 | and without such quotes there is no body |
| Scrubber.KeptUntilOpening | python/signalos_lib/artifacts.py:471-480 | outside blocks, text up to and including the next opening delimiter is unchanged |
| Scrubber.KeptWithoutOpening | python/signalos_lib/artifacts.py:471-480 | text without an opening delimiter is unchanged |
| Scrubber.BlankedUntilClosing | python/signalos_lib/artifacts.py:481-489 | inside a block everything but newlines becomes a space up to the matching delimiter, which is kept, other quotes or not |
| Scrubber.BlankedUnterminated | python/signalos_lib/artifacts.py:481-490 | an unterminated block is blanked to the end of the text |
| Scrubber.NewlinesKept | python/signalos_lib/artifacts.py:460-462 | length and every newline position are preserved |
| Scrubber.ScrubIdempotent | python/signalos_lib/artifacts.py:455-490 | scrubbing twice is scrubbing once |

## Left out

- DeliveryCancel.ReaderRespectsWorker: covers deliver, verdict and cancel; a resume that re-runs an active gate (python/signalos_ipc_server.py:1976-1990), launch and reopen run without registering a worker and are not steps of the model.
- DeliveryCancel.StepInv: requests refused before any effect (bad arguments, another workspace or project, a stale gate) change no state and are not steps; plain agent runs without a gate walk are not modelled.
- DeliveryCancel.DroppedOnlyByEnd: `start` is left free to report another active run although nothing in the repository makes it do so, since the handler has a branch for it.
- WaveRuns.DispatchedIffAncestorsClear: for tasks that have a `task` or `branch` key, as all that the program makes have; a limit on concurrency below one, which makes the pool constructor raise, is not modelled.
- PlanValidation.ValidateTasks: joined to the leveller on the same graph; the graph that `run_wave` levels is parsed from the plan by `_parse_dag`, which is not part of this model. Python's recursion limit is ignored.
- SqlTaskStore.RunSimulated: serial statements only; `FOR UPDATE SKIP LOCKED` and concurrent transactions are not modelled.
- BrainLog.LoadEntries: records whose id is not a string, and lines that are JSON but not an object, make SignalOS raise; they are not among the modelled lines. Timestamps of tombstones and provider calls are left out.
- BrainSearch.Bm25Scores: rounding is left out.
- PanelSync.Synchronize: file modes, directories that get created, a canonical file that exists but cannot be read, symbolic links swapped in by others, and interrupts that are not `Exception`s are left out.
- Redaction.PrivacyTool.PurgeSubject: text that is not UTF-8, and writes that fail halfway, make SignalOS raise; an audit trail without a final newline is not modelled. Full Unicode case folding is left out.
- The orchestrator of a delivery, the agent loop, signing, projects and release finalisation appear only as nondeterministic results.
- Command routing, argument parsing, gate listings, secret-redaction patterns, intent scoring, import scanning, browser, network and provider code, design generation, front end and packaging are not modelled.
- Audit replay, the context compressor, pause markers, workspace clean-up and the other record lists would only add easier members.
