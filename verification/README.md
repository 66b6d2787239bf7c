# tab-conductor: a verified model

tab-conductor runs a plan of dependent tasks as parallel worker processes, retries the ones
that fail, watches what they cost and keeps its progress in a versioned `state.json`. This
project models its core in Dafny and proves what the design promises about it.

| file | what it models |
|---|---|
| `dependency_graph.dfy`, `cycle_check.dfy` | dependency graphs; the gray/black depth-first cycle check, in both of its variants |
| `scheduler.dfy`, `run_history.dfy`, `schedule_independence.dfy` | the supervisor as a state machine over spawns, failed spawns and worker exits, and what holds over all its runs |
| `supervisor_runs.dfy` | iterations of the supervisor loop: what one does, when the loop finishes and what it then reports |
| `ready_queue.dfy`, `orchestrator.dfy` | the supervisor as an object updated in place; every method is a run of the state machine |
| `task_table.dfy`, `construction.dfy` | the table of task dicts, and the orchestrator's constructor |
| `ulid.dfy` | monotone worker ids and their printed form |
| `state_document.dfy`, `persistence.dfy`, `final_document.dfy` | the persisted document, the orchestrator's updates of it, and what it holds along and at the end of a run |
| `store_protocol.dfy`, `store_safety.dfy`, `state_store.dfy` | the locked, versioned, atomically replaced store: all interleavings with crashes, and the calls of one process |
| `cost_guard.dfy`, `worker_stream.dfy` | cost accounts, line framing, the window of recent lines, the signal ladder |
| `text.dfy`, `query.dfy` | path queries: tokeniser, evaluator, filter shorthand |
| `yaml.dfy`, `plan_parser.dfy` | loaded YAML values; plan validation and normalisation |
| `plan_meaning.dfy`, `plan_to_run.dfy` | from a document to its plan and orchestrator, its runs and the contents of its store |

A run is a sequence of events, each holding the outcome and the clock readings that the
surroundings supplied. Statements about runs are for all such sequences, so they hold for
every schedule, outcome and clock unless a lemma says otherwise. An object that the source
updates in place is a class; a ghost `history` field records its steps, and its invariant
says that its fields are a function of that history.

## Where the code and its documentation differ

The model follows the code.

- The supervisor loop does not always end: a task that depends on a terminal one stays pending
  for ever, and the exit test waits for it. `LoopEndsExactly` gives the exact condition, on the
  plan and the outcomes of the attempts, and `LoopCanRunForever` the smallest plan for which it
  fails; there the supervisor can do nothing but poll (`AtRestExactly`).
- An accepted plan does not always start all its tasks as pending, or at all: the parser passes
  the keys `status`, `retries`, `assigned_to` and `last_error` of a task through unchecked, and
  the orchestrator reads them (`AcceptedPlanBuildsExactly`, `StatusIsUnchecked`,
  `RetriesIsUnchecked`, `AcceptedButNotBuilt`).
- `docs/ARCHITECTURE.md` describes a 10s/60s backoff and a hard halt at 110% of the global cap.
  The code has a configurable exponential backoff and no such halt.
- `StateStore.update` can raise after its state is in place, when only the directory sync fails
  (`RaisesYetWritesExactly`, `RaisedUpdateExactly`, `RaisedYetCommitted`).
- A failed spawn is not written to `state.json`, so a record there can lag
  (`PersistedAgreesExactly`); a terminal task can read pending (`TerminalTaskReadsPending`).
- Incrementing an id can carry into its timestamp; section "Monotonicity" of the ULID
  specification would fail instead (`CarriesIntoTimestampExactly`).
- The reported cycle is a suffix of the printed path, not all of it (`Checker.Check`).
- A malformed second half of a dotted path hides a type error of the first half
  (`ResolveComposesExactly`, `CompositionFails`).
- A filter value may hold any character but quotes, yet one that holds `[?` makes the query fail
  (`MarkerInValueIsRejected`).

## Model

| member | source | states |
|---|---|---|
| DependencyGraph.AcyclicIffOrdered | src/tab_conductor/orchestrator.py:549-554 | a graph has no cycle if and only if it has a topological order |
| CycleCheck.Checker.Dfs | src/tab_conductor/plan_parser.py:321-337 | from a white node: on return the node is black, the stack is as before, the black nodes so far are kept in topological order and fewer nodes are white; or the verdict is justified |
| CycleCheck.Checker.Scan | src/tab_conductor/orchestrator.py:562-569 | after the loop over a node's dependencies, all of them are black (and known, in the orchestrator's variant) |
| CycleCheck.Checker.Check | src/tab_conductor/orchestrator.py:549-575 | accepts exactly the acyclic graphs (and, in the orchestrator's variant, only closed ones); the blackening order is topological; a reported path is a walk whose part from the repeated node is a cycle |
| Scheduler.RunInv | src/tab_conductor/orchestrator.py:235-428 | at every point of every run: handles and task map are inverse bijections onto the running tasks, the parallel limit holds, every tried task has its dependencies done, retries are within bounds, the exit code is 1 iff some task is terminal |
| Scheduler.SpawnedInv | src/tab_conductor/orchestrator.py:330-335 | a successful spawn keeps that invariant |
| Scheduler.SpawnFailedInv | src/tab_conductor/orchestrator.py:318-328 | a failed spawn keeps it |
| Scheduler.ExitedInv | src/tab_conductor/orchestrator.py:353-385 | a worker exit keeps it |
| Scheduler.StepFrame | src/tab_conductor/orchestrator.py:318-385 | a step changes one task and its worker only |
| RunHistory.RunAccounts | src/tab_conductor/orchestrator.py:398-428 | a task's retries and retry time are those of its failures in the history; attempts are retries plus one if it is running, done or terminal |
| RunHistory.WaitsGrow | src/tab_conductor/orchestrator.py:406-410 | with base at least 0 and factor at least 1 the waits do not decrease and never exceed the cap |
| RunHistory.WaitsAre | src/tab_conductor/orchestrator.py:406-410 | the first wait is the smaller of base and cap, and each further one the smaller of factor times the last and the cap |
| RunHistory.BackoffSpacing | src/tab_conductor/orchestrator.py:398-443 | attempt k+1 of a task is made no earlier than its k-th failure plus the k-th wait; the first retry no earlier than the first failure plus the smaller of base and cap |
| RunHistory.StepLowersMeasure | src/tab_conductor/orchestrator.py:318-428 | every step lowers the sum of twice the retries left plus 2 for pending and 1 for running, and every attempt uses one unit of the attempt budget |
| RunHistory.RunsAreBounded | src/tab_conductor/orchestrator.py:235-280 | a run has at most twice the sum of (max_retries + 1) steps, and makes at most that sum of spawn attempts |
| RunHistory.TransitiveDepsDone | src/tab_conductor/orchestrator.py:430-445 | a task that is running, done, terminal or has retries has every transitive dependency done |
| RunHistory.FinishedIsFinal | src/tab_conductor/orchestrator.py:371-428 | done and terminal tasks never change again |
| RunHistory.DependentsOfTerminalNeverAttempted | src/tab_conductor/orchestrator.py:430-445 | no transitive dependent of a terminal task is attempted, before or after |
| RunHistory.DoneInDependencyOrder | src/tab_conductor/orchestrator.py:371-373 | the order in which tasks become done lists exactly the done tasks, each once and after its dependencies |
| RunHistory.ActiveWereSpawned | src/tab_conductor/orchestrator.py:330-335 | every active worker was spawned in this run |
| ScheduleIndependence.RestStateIsFinal | src/tab_conductor/orchestrator.py:235-445 | with a fixed outcome per task and attempt number, a state with no worker and no eligible task gives every task the status of one recursive function over the graph |
| ScheduleIndependence.SchedulesAgree | src/tab_conductor/orchestrator.py:282-428 | two runs with the same outcomes that come to rest agree on all statuses, whatever their interleaving, limits and backoff |
| ScheduleIndependence.NotAtRestCanStep | src/tab_conductor/orchestrator.py:282-335 | with max_parallel at least 1, a run that is not at rest can take a step that follows the outcomes |
| ScheduleIndependence.ComesToRest | src/tab_conductor/orchestrator.py:235-280 | with max_parallel at least 1, every run can be continued, following the outcomes, to a state at rest |
| ScheduleIndependence.BlockedExactly | src/tab_conductor/orchestrator.py:430-449 | at rest a task is pending if and only if it reaches a terminal task through depends_on |
| ScheduleIndependence.LoopEndsExactly | src/tab_conductor/orchestrator.py:242-245 | with a fixed outcome per task and attempt, at rest the exit test holds if and only if every task that another depends on has an attempt within its retries that succeeds |
| ScheduleIndependence.AtRestExactly | src/tab_conductor/orchestrator.py:282-449 | a run is at rest if and only if no step at all is enabled, for every plan and every max_parallel of at least 1 |
| ScheduleIndependence.RunFollowsAnOracle | src/tab_conductor/orchestrator.py:318-428 | every run follows the outcome function read off its own history, so the statements about such functions apply to every run |
| ScheduleIndependence.LoopCanRunForever | src/tab_conductor/orchestrator.py:447-449 | after the failed spawn of the first task of a two-task plan the exit test fails and no step is enabled |
| ScheduleIndependence.ExitCodeExactly | src/tab_conductor/orchestrator.py:419-421 | a finished, signal-free run has exit code 0 if every task is done and 1 otherwise |
| ScheduleIndependence.CompletedExactly | src/tab_conductor/orchestrator.py:451-455 | a finished run is completed if and only if every task has an attempt within its retries that succeeds |
| ScheduleIndependence.FinallyDoneExactly | src/tab_conductor/orchestrator.py:430-445 | the recursive status function is done everywhere if and only if every task has an attempt that succeeds |
| SupervisorRuns.OutcomeReported | src/tab_conductor/orchestrator.py:451-455 | run status completed, exit code 0 and an attempt that succeeds for every task are the same condition on a finished run |
| SupervisorRuns.LoopComesToRest | src/tab_conductor/orchestrator.py:235-280 | iterations whose clock is past every retry time and that find every worker exited bring the loop to rest within twice the attempt limit of them |
| SupervisorRuns.LoopFinishesExactly | src/tab_conductor/orchestrator.py:235-280 | given that many, the exit test is met if and only if every task that another depends on succeeds |
| ReadyQueue.ReadyAmongIs | src/tab_conductor/orchestrator.py:430-445 | the ready list holds exactly the ready tasks, in plan order |
| ReadyQueue.SortIsStable | src/tab_conductor/orchestrator.py:287-289 | sorting orders by the plan's priorities, the highest first, with ties in plan order, and keeps the elements |
| ReadyQueue.QueueIsUnique | src/tab_conductor/orchestrator.py:287-289 | there is only one such order |
| ReadyQueue.QueueIs | src/tab_conductor/orchestrator.py:287-289 | the queue of a spawn pass holds exactly the ready tasks, once each, in that order |
| ReadyQueue.PrefixGoesFirst | src/tab_conductor/orchestrator.py:287-335 | whatever prefix of the queue is attempted, each of its tasks has a higher priority in the plan than every ready task left, or the same and an earlier place |
| Orchestration.Orchestrator.constructor | src/tab_conductor/orchestrator.py:186-193 | a new object holds the given records, with empty maps, exit code 0 and an empty history; it is at the initial state if all records are fresh |
| Orchestration.Orchestrator.MaybeRetryTask | src/tab_conductor/orchestrator.py:398-428 | below the limit the record is pending with one more retry, assigned to no one, and after a first failure ready again after the smaller of base and cap; at the limit it is terminal, which sets the exit code |
| Orchestration.Orchestrator.GetReadyTasks | src/tab_conductor/orchestrator.py:430-445 | the loop over the table yields the ready tasks in plan order |
| Orchestration.Orchestrator.NewWorkerId | src/tab_conductor/orchestrator.py:297 | a new worker id is larger than every id ever spawned; none is left only when the id space is exhausted |
| Orchestration.Orchestrator.AssignWorker | src/tab_conductor/orchestrator.py:330-335 | the record is running and assigned to the worker, both maps gain the pair, and the fields hold the state after a successful spawn |
| Orchestration.Orchestrator.FailSpawn | src/tab_conductor/orchestrator.py:320-328 | the fields hold the state after a failed spawn |
| Orchestration.Orchestrator.ReleaseWorker | src/tab_conductor/orchestrator.py:355-385 | the fields hold the state after an exit |
| Orchestration.Orchestrator.TrySpawn | src/tab_conductor/orchestrator.py:295-335 | one attempt adds one spawn or failed spawn of that task to the history; it raises, with the history unchanged, when no id is left or for an exception that is not caught |
| Orchestration.Orchestrator.AttemptInTurn | src/tab_conductor/orchestrator.py:291-335 | the tasks attempted are a prefix of the queue, one event each with the outcome and clock readings that the surroundings gave; the pass stops early only at the parallel limit or on an exception |
| Orchestration.Orchestrator.SpawnReadyWorkers | src/tab_conductor/orchestrator.py:282-335 | a spawn pass attempts a prefix of the ready tasks; no task left has a higher priority in the plan than an attempted one, or the same and an earlier place; afterwards the limit is reached or all were attempted, even when spawns fail |
| Orchestration.Orchestrator.ProcessWorkerExit | src/tab_conductor/orchestrator.py:353-385 | the exit of an active worker is one step; an unknown worker changes nothing |
| Orchestration.Orchestrator.AllTasksTerminal | src/tab_conductor/orchestrator.py:447-449 | true iff every task is done or terminal |
| Orchestration.Orchestrator.Finalize | src/tab_conductor/orchestrator.py:451-455 | the run status is completed iff every task is done; at the end of a run that is what the outcomes of the attempts determine, and it agrees with the exit code |
| Orchestration.Orchestrator.ProcessExits | src/tab_conductor/orchestrator.py:276-278 | every worker found to have exited is released, each by one step with its exit code, in the order in which the workers were spawned, and no other step is taken |
| Orchestration.Orchestrator.RunIteration | src/tab_conductor/orchestrator.py:247-278 | an iteration is a spawn pass over a prefix of the queue, all of it unless the limit is met, followed by exactly the exits that were found, in spawn order |
| Orchestration.Orchestrator.SupervisorLoop | src/tab_conductor/orchestrator.py:235-280 | the history is one such iteration per input, until the exit test is met; when the loop finishes, run status and exit code are what the outcomes of the attempts alone determine; given enough prompt iterations it finishes iff every task that another depends on succeeds |
| TaskTable.TableIs | src/tab_conductor/orchestrator.py:145-160 | the table lists every id of the input once |
| TaskTable.TableInOrder | src/tab_conductor/orchestrator.py:145-160 | with unique ids it lists them in input order with their own values |
| TaskTable.StateKeysOkExactly | src/tab_conductor/orchestrator.py:150-160 | a task dict is fit to start a record iff each of `status`, `retries`, `assigned_to` and `last_error` is absent or has a value of its kind |
| TaskTable.StartIs | src/tab_conductor/orchestrator.py:150-160 | the record then starts with exactly these values, or pending, without retries and assigned to no one |
| TaskTable.LastRowWins | src/tab_conductor/orchestrator.py:147-160 | of the task dicts with one id the last one is in the table |
| Construction.Build | src/tab_conductor/orchestrator.py:123-193 | construction succeeds iff every `retries` value becomes an integer, the graph is acyclic and closed, the caps are positive and all values, also those of the state keys, are in the schema's ranges; the plan then has the priority, the dependencies and the retry limit of each dict, with unique ids in input order; the records start as their dicts say, and fresh ones are the initial state; every error is justified by the input |
| Ulid.EncodeKeepsOrder | src/tab_conductor/ulid.py:46 | the fixed-width form is injective and sorts as the values do |
| Ulid.LargerPrintsLater | src/tab_conductor/ulid.py:38-46 | a larger 128-bit value prints as a later 26-character string |
| Ulid.CarriesIntoTimestampExactly | src/tab_conductor/ulid.py:40-44 | incrementing moves to the next millisecond exactly when the random part is exhausted |
| Ulid.Generator.New | src/tab_conductor/ulid.py:37-46 | the candidate is issued if it is larger than the last value, and otherwise the last value plus one; issued values strictly increase; it raises, changing nothing, iff that does not fit into 128 bits |
| StateDocument.UpsertTask | src/tab_conductor/orchestrator.py:617-626 | the loop replaces the first record with the id, or appends the record if there is none |
| StateDocument.UpsertWorker | src/tab_conductor/orchestrator.py:657-666 | the loop changes the status, and nothing else, of the first record with the worker id, or appends the record if there is none |
| StateDocument.PutTaskReplaces | src/tab_conductor/orchestrator.py:617-626 | under an existing id, ids and order stay and only the first record with it changes |
| StateDocument.PutTaskAppends | src/tab_conductor/orchestrator.py:617-626 | a record with a new id is appended |
| StateDocument.PutWorkerUpdates | src/tab_conductor/orchestrator.py:657-666 | under an existing worker id only the status of the first record with it changes |
| StateDocument.PutWorkerAppends | src/tab_conductor/orchestrator.py:657-666 | a new worker id is appended |
| StateDocument.UpdateKeepsSchema | src/tab_conductor/orchestrator.py:599-683 | every orchestrator update with a valid record or total keeps the schema |
| FinalDocument.RunKeepsSchema | src/tab_conductor/orchestrator.py:337-396 | along every run with non-negative costs, with or without the final status update, the document is schema-valid and its version counts the updates |
| Persistence.PersistedTasks | src/tab_conductor/orchestrator.py:581-631 | the persisted task list keeps exactly the plan's ids in plan order, each with its last written record |
| Persistence.PersistedAgreesExactly | src/tab_conductor/orchestrator.py:318-343 | the i-th record has the id and the plan values of the i-th task; its status, retries and assignee are the supervisor's iff the last step of the task was not a failed spawn; a lagging one reads pending |
| FinalDocument.TerminalTaskReadsPending | src/tab_conductor/orchestrator.py:318-343 | after the failed spawn of the only attempt of a task the task is terminal and its persisted record reads pending |
| Persistence.PersistedWorkers | src/tab_conductor/orchestrator.py:633-671 | with fresh ids the worker list has one entry per successful spawn, in order, and marks as running exactly the active ones |
| Persistence.PersistedExits | src/tab_conductor/orchestrator.py:379-392 | every worker that is not marked as running has an exit in the history, from the task it names, and is marked done iff its code was 0 and failed otherwise |
| FinalDocument.PersistedStatus | src/tab_conductor/orchestrator.py:451-455 | the persisted status is running until the run is finalised, then completed iff every task has an attempt that succeeds, and otherwise failed |
| Persistence.PersistedCost | src/tab_conductor/orchestrator.py:387-396 | the persisted cost is the total read when the last worker exited |
| StoreProtocol.ReachableInv | src/tab_conductor/state.py:193-267 | over all interleavings of updates, reads, timeouts, failures and crashes, the protocol's invariants hold |
| StoreProtocol.StepInv | src/tab_conductor/state.py:216-267 | every single step of any client keeps them |
| StoreSafety.FileIsFold | src/tab_conductor/state.py:245-267 | the file is the initial document folded through the committed mutators in commit order; its version is the initial one plus the number of commits |
| StoreSafety.CommitsKeepVersions | src/tab_conductor/state.py:245-261 | in every reachable state each logged mutator, applied to the document before it, kept the version, and its result, valid and one version later, became the next document |
| StoreSafety.WritersExclude | src/tab_conductor/state.py:245-261 | a client inside an update is alone: no other is inside an update or a locked read |
| StoreSafety.RaisedUpdateExactly | src/tab_conductor/state.py:333-363 | in every execution, an update that raised is in the commit order iff its own directory sync failed |
| StoreSafety.ReadsSeeCommits | src/tab_conductor/state.py:193-214 | every read returns a schema-valid document that was current at some point within the read |
| StoreSafety.VersionsRespectTime | src/tab_conductor/state.py:193-267 | an operation that starts after another returned sees at least its version, strictly more if it is an update |
| StoreSafety.ClientVersionsNeverGoDown | src/tab_conductor/state.py:193-214 | the versions one client sees never go down |
| StateStorage.FlockWithTimeout | src/tab_conductor/state.py:83-105 | the lock is won iff some attempt succeeds before one fails at or after the deadline |
| StateStorage.StateStore.AtomicWrite | src/tab_conductor/state.py:333-363 | the file holds the old contents after a failure up to the rename and the new ones otherwise; a failing directory sync raises all the same; a temporary file stays behind only if filling or renaming it fails and so does its removal |
| StateStorage.StateStore.Init | src/tab_conductor/state.py:170-191 | creates the file iff there is none, the document is valid and the write succeeds; each error is told apart |
| StateStorage.StateStore.Read | src/tab_conductor/state.py:193-214 | returns the stored document iff there is one, it is JSON and it is valid; each error is told apart; the shared lock is released in all cases |
| StateStorage.StateStore.Update | src/tab_conductor/state.py:216-267 | under the lock: a raising mutator, a changed version and an invalid result raise their own errors and leave everything as it was; any other result is written one version later and returned iff there was no fault; missing and unreadable files are told apart; the lock is released in all cases |
| StateStorage.RaisesYetWritesExactly | src/tab_conductor/state.py:333-363 | an update raises and yet changes the file iff its mutator's result is accepted and the fault is in the directory sync |
| StateStorage.UpdateIsProtocolRun | src/tab_conductor/state.py:216-267 | an update that no client overlaps is a run of the protocol with the same reply and file, which logs the mutator iff the file was replaced and leaves the store idle |
| StateStorage.RaisedYetCommitted | src/tab_conductor/state.py:356-363 | a reachable state in which the only update raised and is nevertheless in the file |
| StateStorage.UpdateAcceptedExactly | src/tab_conductor/orchestrator.py:599-683 | the store accepts an orchestrator update of a valid document iff its own record or total is valid, and then commits exactly that update |
| StateStorage.FoldIsAfterUpdates | src/tab_conductor/state.py:245-261 | when the commit order consists of valid orchestrator updates, the document is the initial one with those updates made in order |
| StateStorage.StoreFor | src/tab_conductor/state.py:216-267 | for every list of valid updates there is a reachable, idle store whose commit order it is |
| CostAccounting.TotalIsSum | src/tab_conductor/cost_guard.py:188-190 | the running total over the history is the sum of the workers' accounts |
| CostAccounting.TotalIgnoresInterleaving | src/tab_conductor/cost_guard.py:152-156 | two interleavings of the same per-worker reports give the same accounts and total |
| CostAccounting.TotalNonNegative | src/tab_conductor/cost_guard.py:188-190 | with non-negative costs the total is not negative, whatever is reset |
| CostAccounting.StatusNeverSoftens | src/tab_conductor/cost_guard.py:171-213 | with non-negative costs and no reset a status never becomes less severe |
| CostAccounting.OverSinceExactly | src/tab_conductor/cost_guard.py:158-160 | over_since is set iff the cap was exceeded at some point since the last reset |
| CostAccounting.OverSinceWhenGrowing | src/tab_conductor/cost_guard.py:158-160 | with non-negative costs it is set iff the account exceeds the cap |
| CostAccounting.CostGuard.Create | src/tab_conductor/cost_guard.py:92-112 | a guard exists iff both caps are positive |
| CostAccounting.CostGuard.AddUsage | src/tab_conductor/cost_guard.py:118-160 | a report adds its tokens and its cost, or 3 dollars per million input and 15 per million output tokens; the worker is over budget since the first report beyond the cap; negative token counts raise and add nothing; the accounts are those of the history of reports |
| CostAccounting.CostGuard.ResetWorker | src/tab_conductor/cost_guard.py:280-291 | a reset zeroes that worker's account only |
| CostAccounting.CostGuard.AddUp | src/tab_conductor/cost_guard.py:269-271 | summing the accounts in any order gives the total of the history |
| CostAccounting.CostGuard.Check | src/tab_conductor/cost_guard.py:171-213 | over the global cap, over the worker's cap, a warning from 80% of either, each in the absence of the former, for known and unknown workers |
| CostAccounting.CostGuard.Summarize | src/tab_conductor/cost_guard.py:249-278 | totals and per-worker amounts are those of the history |
| WorkerStream.FramingIsUnique | src/tab_conductor/runner.py:237-239 | any way of cutting newline-free lines off a stream that leaves a newline-free rest is the one-shot split |
| WorkerStream.ChunksDoNotMatter | src/tab_conductor/runner.py:231-242 | however the bytes were divided into chunks, buffer, handled lines and window depend on the bytes alone |
| WorkerStream.WindowShowsLast | src/tab_conductor/runner.py:373-377 | the window has at most 100 lines and its last 50 are the last 50 lines handled |
| WorkerStream.SpentIsSum | src/tab_conductor/cost_guard.py:143-156 | without resets an account is the sum over the worker's reports |
| WorkerStream.AccountIsReported | src/tab_conductor/runner.py:394-404 | a worker's account is the sum, over its handled result lines, of the reported non-zero cost or else the estimate |
| WorkerStream.WorkerHandle.constructor | src/tab_conductor/runner.py:145-175 | a new handle has read and sent nothing, and meets the invariant on a guard that has no usage under its id |
| WorkerStream.WorkerHandle.PushLine | src/tab_conductor/runner.py:375-377 | the line is appended; at 100 lines only the last 49 before it are kept; the window is the tail of all handled lines |
| WorkerStream.WorkerHandle.HandleStdoutLine | src/tab_conductor/runner.py:373-428 | a line enters the window first; a result line then reports its tokens with its cost, which counts as missing if it is zero; malformed lines and negative counts raise, and other lines report nothing |
| WorkerStream.WorkerHandle.HandleLines | src/tab_conductor/runner.py:238-242 | the loop handles every complete line up to the first that raises, and the guard gains exactly their usage |
| WorkerStream.WorkerHandle.ReadChunk | src/tab_conductor/runner.py:235-242 | all bytes read are the lines cut off plus the buffer; without an exception the buffer holds no newline |
| WorkerStream.RecordedUsage | src/tab_conductor/runner.py:394-404 | handled lines add their reports to this worker's usage, in order |
| WorkerStream.RecordedKeepsOthers | src/tab_conductor/runner.py:394-404 | they leave the usage of every other worker as it was |
| WorkerStream.WorkerHandle.KillEscalation | src/tab_conductor/runner.py:287-314 | a signal is sent iff the worker is over a cap or a kill candidate: an interrupt in the first 5 seconds since escalation began, a termination in the next 5, and then a kill, which alone sets the kill flag |
| WorkerStream.WorkerHandle.MaybeEscalate | src/tab_conductor/runner.py:430-454 | a poll sends that signal iff the worker is over budget or its stuck status is seen twice |
| WorkerStream.WorkerHandle.PollOnce | src/tab_conductor/runner.py:194-268 | a poll with a heartbeat due records it and reads and sends nothing; otherwise the chunk is taken in up to the first line that raises, the usage of exactly the new lines is recorded, the detector is shown the last 50 lines, and the signal due by that ladder, if any, is sent |
| WorkerStream.SignalsNeverSoften | src/tab_conductor/runner.py:307-314 | along any polls with a non-decreasing clock the signals to one worker never soften |
| Query.Tokenise | src/tab_conductor/query.py:128-165 | the loop yields the tokens; it accepts a path iff its brackets are balanced |
| Query.TokensOfDotted | src/tab_conductor/query.py:142-165 | for balanced p and any q, the tokens of p.q are those of p followed by those of q, or the error of q |
| Query.UnbalancedPartsCanJoin | src/tab_conductor/query.py:142-165 | a path whose two halves are both rejected while the whole is accepted |
| Query.TokensOfJoined | src/tab_conductor/query.py:142-165 | joining non-empty balanced segments without top-level dots and tokenising gives them back |
| Query.TokensAreSegments | src/tab_conductor/query.py:142-165 | every token is such a segment, so joining the tokens is a normal form of a path |
| Query.ResolvePrefix | src/tab_conductor/query.py:101-125 | the loop computes the meaning of the segment list |
| Query.ResolveComposesExactly | src/tab_conductor/query.py:101-125 | for balanced p, resolving p.q is resolving p and then q, with the same absence and error, iff q is balanced or p raises no type error |
| Query.CompositionFails | src/tab_conductor/query.py:101-125 | data, a balanced path and a rest for which composition fails: resolving in turn gives a type error, the whole path a value error |
| Query.MalformedRestComesFirst | src/tab_conductor/query.py:101-125 | so for every path of two fields into a number and every malformed rest |
| Query.FieldThenPath | src/tab_conductor/query.py:119-125 | after a field, the rest of a path is resolved in its value; a missing field or null absorbs it, any other value is a type error, and malformed brackets in the rest come first |
| Query.FieldThenIndex | src/tab_conductor/query.py:168-214 | a field followed by any printed integer reads that list element, counted from the end if negative, or null; a missing or null field gives null, and any other value a type error |
| Query.IndexAlone | src/tab_conductor/query.py:168-214 | a bare index reads an element of a list in the same way |
| Query.BadIndex | src/tab_conductor/query.py:192-199 | brackets that hold no integer are a value error |
| Query.BadField | src/tab_conductor/query.py:217-240 | a name that does not begin with a letter or underscore, or holds any other character, is a value error |
| Query.ParsePrintedIndex | src/tab_conductor/query.py:26 | every integer is the index of its printed form |
| Query.ParseFilterExactly | src/tab_conductor/query.py:25 | the filter pattern matches exactly the well-formed suffixes and finds their parts |
| Query.FilterLaw | src/tab_conductor/query.py:70-90 | a filter after a path, with any dots between, gives the number of mappings in the list there whose field has the value; null gives 0 and any other value a type error |
| Query.MarkerInValueIsRejected | src/tab_conductor/query.py:70-80 | a filter whose value holds the marker of a filter is a value error, whatever the data |
| Query.QueryWithoutFilter | src/tab_conductor/query.py:66-93 | blank queries and markers without a well-formed filter are value errors; without a marker the stripped path is resolved |
| Query.RunQuery | src/tab_conductor/query.py:30-93 | a query is a filter with its prefix, or a plain path, after stripping; an empty one is an error |
| PlanParser.TaskErrorExactly | src/tab_conductor/plan_parser.py:220-286 | no check of a task fails iff the task is acceptable by itself and its id is new |
| PlanParser.AcceptableExactly | src/tab_conductor/plan_parser.py:220-286 | key by key what a task dict must satisfy: text that is not blank, integers within their ranges, a list of texts that are not blank |
| PlanParser.TaskErrorIsFirst | src/tab_conductor/plan_parser.py:220-286 | the error raised is that of the first of the ten checks that the dict fails |
| PlanParser.ValidateTask | src/tab_conductor/plan_parser.py:200-303 | accepts exactly those tasks; the result has the stripped texts, the converted integers or their defaults and every other key; the error is that of the first failing check |
| PlanParser.DependsOnField | src/tab_conductor/plan_parser.py:275-286 | the loop strips every entry or stops at the first bad one |
| PlanParser.TasksOfExactly | src/tab_conductor/plan_parser.py:153-165 | a task list is accepted iff every task is acceptable and no two ids are equal after stripping; the result is in order |
| PlanParser.ValidateTasks | src/tab_conductor/plan_parser.py:153-165 | the loop over the tasks computes that result or the first failure |
| PlanParser.FindUnknown | src/tab_conductor/plan_parser.py:170-176 | finds an unknown dependency iff there is one |
| PlanParser.CheckDependencies | src/tab_conductor/plan_parser.py:170-181 | passes iff the graph is closed and acyclic, and otherwise names a witness |
| PlanParser.ParsePlanDict | src/tab_conductor/plan_parser.py:117-192 | accepts exactly the plans with acceptable tasks, distinct ids and a closed acyclic graph, and returns what they say; every error is justified by the plan, and an error of a task is the first failure of the first task that fails |
| PlanParser.ParsedSays | src/tab_conductor/plan_parser.py:117-192 | an accepted plan has one task per dict, in order, with what the dict says, and every other key of the plan as metadata with three defaults |
| PlanParser.ReparseIsIdentity | src/tab_conductor/plan_parser.py:117-192 | a parsed plan is accepted again and returned unchanged |
| PlanParser.AcceptedIds | src/tab_conductor/plan_parser.py:156-165 | an accepted plan has the stripped ids, all different, in input order |
| YamlData.UnsignedRead | src/tab_conductor/plan_parser.py:238-272 | a printed integer is read back |
| YamlData.SignedRead | src/tab_conductor/plan_parser.py:238-272 | also with a sign before it |
| YamlData.BlanksDoNotMatter | src/tab_conductor/plan_parser.py:238-272 | white space around a numeral does not matter |
| YamlData.IntOfIs | src/tab_conductor/plan_parser.py:238-272 | integers and truth values convert to themselves, floats toward zero, an infinity overflows, and nothing else but strings converts |
| Text.StripIs | src/tab_conductor/plan_parser.py:221-233 | a text is white space, its stripped form and white space |
| Text.StripExactly | src/tab_conductor/plan_parser.py:221-233 | and no other part of it is so placed and has no white space at its ends |
| PlanParser.SameGraph | src/tab_conductor/plan_parser.py:317-318 | with unique ids, parser and orchestrator check the same graph over the same order |
| PlanParser.ParserAgreesWithBuild | src/tab_conductor/plan_parser.py:170-181 | for tasks the parser has normalised, the orchestrator's conditions hold iff the parser's do and the state keys of the raw task dicts are fit to start records |
| PlanMeaning.AcceptedPlanBuildsExactly | src/tab_conductor/orchestrator.py:145-160 | an accepted plan builds an orchestrator iff the state keys of its raw task dicts are fit to start records |
| PlanMeaning.AcceptedPlanIsWellFormed | src/tab_conductor/orchestrator.py:145-163 | such a plan is well-formed, with the stripped ids in input order and all values in the schema's ranges |
| PlanMeaning.PlanMeansDocument | src/tab_conductor/orchestrator.py:145-160 | the scheduler's plan has, under each stripped id in order, the converted priority and retry limit or their defaults and the stripped dependencies of the raw task dict; its graph is the one the parser checked |
| PlanToRun.Launch | src/tab_conductor/cli.py:136-169 | parsing and building succeed iff the plan is accepted, its state keys are fit and the caps are positive; the plan is the one that the raw task dicts describe, and the orchestrator is at the initial state if every task dict starts fresh |
| PlanMeaning.StatusIsUnchecked | src/tab_conductor/plan_parser.py:289-296 | whatever the `status` of a task dict, the parser accepts it; it builds iff it is one of the schema's seven and starts fresh iff it is pending |
| PlanMeaning.RetriesIsUnchecked | src/tab_conductor/plan_parser.py:289-296 | whatever its `retries`, the parser accepts it; it builds iff it is not negative and starts fresh iff it is 0 |
| PlanMeaning.AcceptedButNotBuilt | src/tab_conductor/orchestrator.py:581-597 | a document that the parser accepts and the orchestrator rejects |
| PlanToRun.AcceptedPlanPersists | src/tab_conductor/orchestrator.py:451-683 | along every run of an accepted plan whose task dicts start fresh, with non-negative costs, the document is schema-valid, counts its updates, lists the plan's tasks in order and reads running until the run is finalised, and then what the outcomes determine |
| PlanToRun.PersistedCostIsGuards | src/tab_conductor/orchestrator.py:387-396 | the persisted cost is the sum of the cost guard's accounts when the last worker exited |
| PlanToRun.StoreHoldsRun | src/tab_conductor/orchestrator.py:451-683 | in any reachable state of the store whose commit order is a run's updates, the final one included, whatever readers, failures and crashes there were, state.json is the document of that run |
| PlanToRun.RunHasStore | src/tab_conductor/orchestrator.py:451-683 | such a store exists for every run, finalised or not |

## Left out

- Signals and halting (`_do_halt`, `_handle_signal`): runs are signal-free; a task that becomes terminal in the same iteration as a SIGINT overwrites its exit code.
- Process spawning, selectors, process groups and output draining: whether a spawn succeeds, what a read returns and which workers have exited are inputs.
- Orchestrator.SupervisorLoop: runs over a finite script of inputs, because the loop need not end, and has no halt branch.
- Orchestrator.RunIteration: polling is an input that may raise; the kill escalation around it is not part of the iteration, since it acts on a worker only through its exit, which is an input too.
- Construction.Build: creating the run's directories and its own id is not modelled; `init` of the new store is taken to succeed on a valid document.
- AcceptedPlanPersists: runs start with fresh records only; a record that starts otherwise is built (`Construction.Build`), but its runs are not modelled.
- Orchestrator: holds no store; `RunUpdates` derives the updates of a run from its events, on the condition that all of them commit (store errors are logged and swallowed).
- Stuck events, which are appended to the event list of the document, and their version increments.
- Timestamps, pids, prompts and messages in the document, and JSON, UTF-8 and schema-library internals: decoding and message parsing are parameters, the schema is a predicate on the fields that the updates change.
- StateStore.Init: takes no lock, as in the source, and is not a step of the protocol; there is one initialiser.
- The thread lock and the `lockf` variant of the lock: each open description holds its own lock, as with `flock`.
- I/O errors on opening the lock file or reading `state.json`; JSON that is no object.
- `read_summary` and the rewriting of `state.json` by the `kill` command, which takes no lock.
- WorkerHandle.PollOnce: leaves out stderr framing, the event file and the stuck detector's own ladder, whose verdict is an input; the result lines of one chunk are stamped with one clock reading.
- ParsePlanDict: mappings have string keys; reading and loading the file is not modelled.
- ValidateTask: digits are ASCII, so a numeral in other digits, which `int()` takes, is rejected; a numeral may have any length.
- ParseFilterExactly: word characters are ASCII.
- Rounding: costs, waits and clock readings are real numbers.
- Dashboards, logging, the command line, secret filtering and HMAC signing: little to prove beyond reading a branch.
