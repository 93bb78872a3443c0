# AiDN: verified models of its schedulers, brokers and operator protocols

This project models, in Dafny, the parts of AiDN where the outcome depends on more than
one function, and proves what they promise over every input, every run and every
placement of faults.

| files | what they model |
|---|---|
| `SchedulerModel`, `SchedulerPlan`, `SchedulerFairness`, `SchedulerReadModel`, `SchedulerEviction` | the fair-share admission planner: queues, aged priorities, the greedy dispatch loop, the read models, eviction |
| `BrokerArgv`, `BrokerJobs`, `BrokerProtocol`, `BrokerSafety`, `BrokerTheorems`, `BrokerOutcomes`, `BrokerStore` | the privileged provider-runtime broker: command gate, durable job store, and the race between control thread, workers and restarts |
| `MissingPackages`, `ImportCycles` | two graph searches of the release and dashboard checks |
| `Rollout`, `RolloutExact`, `RolloutOutcomes`, `RolloutTool` | rolling an image out over hosts with a rollback container: the commands and their faults, their closed form, what each outcome means, the imperative tool |
| `MaturityPayment` | the crash-safe single-payment executor |
| `Genesis` | the canonical genesis document |
| `Sorting`, `Options` | strictly sorted enumerations of a set, and an optional value |

`dafny verify dfyconfig.toml` checks everything.

## How the hard parts are stated

**Scheduler.** `pending_task_plan` pops from a dictionary of lists under a dictionary of
counters. `SchedulerPlan.PendingTaskPlan` keeps that loop and is proved against a closed
form that mentions neither: `IsPlan` says that the plan lists every queued task once, in
the order (number of own-queue tasks ahead, aged priority, arrival), with round, rank and
selection reason read off the tasks still unplanned. `SchedulerFairness` derives the
quantitative fairness bounds from the closed form alone.

**Broker.** `update` writes any status it is given. `BrokerSafety.Inv` couples each job's
status to its future and to the control thread's program point; every one of the seventeen
steps keeps it. `System.history` and `System.runs` record all events ever appended and all
launches ever made, across restarts, independently of the truncated log that the code keeps,
so the theorems compare the code's bounded state with the full past. `BrokerOutcomes` ties
statuses to the actions of an execution in both directions: what a status says happened, and
what a returned command, a cancellation or a submission leads to.

**Rollout.** The placement of faults is an input: a host carries a script that says for each
command whether it works, fails before taking effect or fails after it; a failing probe
answers no. The rollout is a function of that script, and the imperative tool is proved to
compute it. `RolloutExact` gives its closed form: for every script the outcome, the names and
the running containers are formulas over the faults, through health probes, consensus
recovery and an interrupted rollback.

**Payment.** A process's input is its source file, the ledger's answers poll by poll, and the
number of effects after which it is interrupted, by a kill or by an error. What it does is
exactly the beginning of an effect list read off that input, up to the interruption
(`Execute`), and that list is known in closed form (`ProcessExactly`). The log of effects is
kept across processes.

## Properties that do not hold as one would expect

- `scheduler_explain_decision` looks at 500 candidates only. A queue head ranked past 500 is
  told that it waits behind itself. `SelfWaitExactly` proves that such a head exists if and
  only if more than 500 queues have work, `UnprojectedHeadWaitsForItself` gives its decision,
  and `TooManyQueuesExample` names such a head among 501 tasks.
- The eviction loop does not always stop the bundles its read model lists first. A run that
  stops `n` bundles stops a prefix of the list if and only if the first `n` listed bundles are
  different (`StopsPrefixExactly`, and `EvictIdleRuntimes` for the run itself). Every run stops
  a prefix if and only if the list repeats no bundle before it has named them all
  (`AlwaysPrefixExactly`), so a, b, a is harmless; `RepeatedCandidateExample` shows a, a, b,
  for which a and b are stopped.
- The ten-minutes-beat-a-hundred-points rule of aging is tight: `AgingDefeatsPriority` is an
  equivalence, so a later task 101 points higher is still ahead.
- An aborted rollout need not leave the host as it was: the source begins its rollback region
  only after the rename has succeeded. `AbortedExactly` gives the exact conditions. A
  rollout aborts if and only if connection, inspection, mount check, backup check, stop or
  rename goes wrong. The original has then moved to the backup name if and only if the stop
  worked and the rename took effect and still failed (`AbortSetsAsideExample`). It has been
  stopped if and only if the stop was reached and took effect, which includes a stop that
  fails after its effect, a rename that fails, and a backup probe that wrongly answers no
  (`AbortStopsExample`).
- A failed rollout need not end with the original running. `OriginalRunsExactly`: once set
  aside, it runs again if and only if a rollback got as far as its start and that command took
  effect; `RollExactly` says when this is, and `RollbackStrandsExample` is a run that leaves
  it stopped under the backup name.

## Modelling assumptions

- One clock reading and one routing table per call; the source reads the clock again for
  every priority. Task IDs and arrival numbers are unique.
- State and pending files are replaced atomically, state writes succeed, and nobody else
  edits the files. A process restarts only after the previous one is gone.
- Fresh broker job IDs do not collide, and the request digest is collision-free, so the
  request stands for its digest.
- A container's name, image ID, mounts and started flag are all that rollout commands depend
  on; an image reference resolves to the same image ID throughout a run. A probe that raises
  instead of answering no is covered by a fault of the command before or after it.
- Stopping a runtime affects that bundle only; whether a request fits is an arbitrary
  function of the bundles still resident.
- Endpoint IDs and task IDs arrive trimmed; canonical package names and marker results are
  given; the import graph is given.

## Model

| member | source | states |
|---|---|---|
| SchedulerModel.GroupQueuedTasks | src/aidn_hypervisor/admission_planning_service.py:356-382 | the queues are exactly the key classes of the tasks, each strictly in its own order (arrival for Endpoint queues, aged priority then arrival otherwise) |
| SchedulerModel.GroupedUnique | src/aidn_hypervisor/admission_planning_service.py:356-382 | that description leaves no freedom: two groupings of the same tasks are equal |
| SchedulerModel.BonusByMinute | src/aidn_hypervisor/admission_planning_service.py:662-672 | ten points per full minute up to 100 after ten minutes; nothing for future or unparsable timestamps |
| SchedulerModel.BonusMonotone | src/aidn_hypervisor/admission_planning_service.py:662-672 | a task created no later has at least the bonus, at any clock reading |
| SchedulerModel.EqualPriorityKeepsArrivalOrder | src/aidn_hypervisor/admission_planning_service.py:372-381 | an earlier task stays ahead of a later one of equal base priority at every clock reading |
| SchedulerModel.AgingDefeatsPriority | src/aidn_hypervisor/admission_planning_service.py:659-672 | after 600 s against under 60 s, the earlier task is ahead if and only if the later one is at most 100 points higher |
| SchedulerModel.EffectiveByMinutes | src/aidn_hypervisor/admission_planning_service.py:659-672 | the aged priority is the base priority plus ten points per full minute waited, at most ten of them, none for future or unparsable timestamps |
| SchedulerModel.AheadByMinutes | src/aidn_hypervisor/admission_planning_service.py:372-381 | the order inside a queue, spelled out in minutes: arrival on an endpoint, aged priority and then arrival elsewhere |
| SchedulerPlan.PendingTaskPlan | src/aidn_hypervisor/admission_planning_service.py:606-657 | the greedy loop terminates and yields every queued task once, strictly sorted by position in its own queue, then aged priority, then arrival, with round = position, rank = 1..n and a truthful selection reason |
| SchedulerPlan.PlanUnique | src/aidn_hypervisor/admission_planning_service.py:606-657 | a set of queued tasks has only one plan, annotations and reasons included |
| SchedulerPlan.PlanExists | src/aidn_hypervisor/admission_planning_service.py:606-657 | every set of queued tasks has a plan |
| SchedulerPlan.PositionIsIndex | src/aidn_hypervisor/admission_planning_service.py:372-382 | the number of own-queue tasks ahead of a task is its index in the sorted queue |
| SchedulerPlan.LeastServed | src/aidn_hypervisor/admission_planning_service.py:620-627 | the least dispatch count among live queues and exactly the queues that have it |
| SchedulerPlan.BestHead | src/aidn_hypervisor/admission_planning_service.py:628-634 | the chosen head outranks every other candidate head |
| SchedulerPlan.SelectionReason | src/aidn_hypervisor/admission_planning_service.py:674-699 | which reason is given when, and that the last branch is never taken |
| SchedulerPlan.ChosenIsLeast | src/aidn_hypervisor/admission_planning_service.py:619-640 | the greedy choice is the least unplanned task in the global plan order |
| SchedulerPlan.ChoiceIsSound | src/aidn_hypervisor/admission_planning_service.py:635-653 | the recorded entry is right, the reason being restated over the unplanned tasks instead of the queues |
| SchedulerFairness.RoundCountsDispatches | src/aidn_hypervisor/admission_planning_service.py:649-654 | the round of an entry is the number of earlier entries from the same queue |
| SchedulerFairness.PrefixIsInitial | src/aidn_hypervisor/admission_planning_service.py:640-654 | every plan prefix holds an initial segment of every queue |
| SchedulerFairness.EndpointOrder | src/aidn_hypervisor/admission_planning_service.py:60-64 | in the plan, requests on one endpoint keep arrival order whatever their priorities |
| SchedulerFairness.BundleOrder | src/aidn_hypervisor/admission_planning_service.py:372-381 | in the plan, one bundle's tasks of equal base priority keep arrival order, and the 600 s against 60 s rule decides exactly up to 100 points |
| SchedulerFairness.PlanShows | src/aidn_hypervisor/admission_planning_service.py:642-653 | each entry shows the routed bundle, the base priority, ten points per counted minute, their sum, and its place |
| SchedulerFairness.PlanByMinutes | src/aidn_hypervisor/admission_planning_service.py:617-657 | which of two entries is planned first, in minutes: by round, inside one round and inside one bundle by priority plus ten points per counted minute, then by arrival |
| SchedulerFairness.PrefixFairness | src/aidn_hypervisor/admission_planning_service.py:617-657 | in every prefix a queue has been served at most once more than any queue that still has work |
| SchedulerFairness.Isolation | src/aidn_hypervisor/admission_planning_service.py:617-657 | before a task at position p, every queue of whatever length is served between min(size, p) and min(size, p + 1) times |
| SchedulerFairness.RankBounds | src/aidn_hypervisor/admission_planning_service.py:617-657 | the rank of a task at position p lies above the sum over queues of min(size, p) and at most at the sum of min(size, p + 1) |
| SchedulerReadModel.HeadsComeFirst | src/aidn_hypervisor/admission_planning_service.py:58-71 | the queue heads are exactly the first plan entries, as many as there are queues |
| SchedulerReadModel.SortedHeads | src/aidn_hypervisor/admission_planning_service.py:66-71 | sorting the heads by admission rank gives the beginning of the plan |
| SchedulerReadModel.SchedulerCandidates | src/aidn_hypervisor/admission_planning_service.py:43-83 | the candidates are, in order, the first min(queues, clipped limit) plan entries with their key, depth and rank |
| SchedulerReadModel.ExplainDecision | src/aidn_hypervisor/admission_planning_service.py:135-231 | invalid and unknown IDs are told apart, a task that is not queued is reported so, a queued one gets its candidate exactly when it heads its queue with rank at most 500, and otherwise its position, its queue head and that head's candidate if projected |
| SchedulerReadModel.WaitingBehindAnother | src/aidn_hypervisor/admission_planning_service.py:166-206 | a waiting task has another task as head exactly when its position is at least 2 |
| SchedulerReadModel.SelfWaitExactly | src/aidn_hypervisor/admission_planning_service.py:158-167 | some queue head is missing from the projection if and only if more than 500 queues have work |
| SchedulerReadModel.UnprojectedHeadWaitsForItself | src/aidn_hypervisor/admission_planning_service.py:166-206 | a head is told to wait behind itself exactly when it is not projected |
| SchedulerReadModel.TooManyQueuesExample | src/aidn_hypervisor/admission_planning_service.py:158-206 | 501 tasks without endpoint or bundle, one of which heads its queue and is told to wait behind itself |
| SchedulerEviction.EvictIdleRuntimes | src/aidn_hypervisor/admission_planning_service.py:701-720 | what is stopped are candidates other than the requested bundle without active tasks, each once, and nothing else; they are the shortest non-empty prefix of the victims after which the request fits, and an idle candidate stays only if it fits; the stopped bundles are a prefix of the listed ones exactly when as many listed bundles are different |
| SchedulerEviction.Stoppable | src/aidn_hypervisor/admission_planning_service.py:710-718 | the victims are distinct, resident, idle and never the requested bundle, and all such candidates are victims |
| SchedulerEviction.ReadableCandidates | src/aidn_hypervisor/admission_planning_service.py:543-584 | the read model lists, in order, exactly the resident candidates other than the requested bundle without active tasks |
| SchedulerEviction.ListedIsStoppable | src/aidn_hypervisor/admission_planning_service.py:550-555 | the loop can stop all that is listed, in that order, if and only if no bundle is listed twice |
| SchedulerEviction.StopsPrefixExactly | src/aidn_hypervisor/admission_planning_service.py:710-718 | stopping n bundles is stopping a prefix of the list if and only if its first n bundles are different |
| SchedulerEviction.AlwaysPrefixExactly | src/aidn_hypervisor/admission_planning_service.py:550-555 | every run stops a prefix of the list if and only if it repeats no bundle before it has named them all |
| SchedulerEviction.RepeatedCandidateExample | src/aidn_hypervisor/admission_planning_service.py:710-718 | a concrete list for which the stopped bundles are not a prefix |
| SchedulerEviction.StoppableIsFirsts | src/aidn_hypervisor/admission_planning_service.py:710-718 | the victims are the first occurrences in the read model's list |
| BrokerArgv.ValidateArgv | tools/aidn-provider-runtime-broker.py:111-141 | the index loop accepts exactly the printed forms of well-formed commands, returns them unchanged, and otherwise gives the first reason |
| BrokerArgv.ParsePrint | tools/aidn-provider-runtime-broker.py:123-141 | parsing a printed well-formed command gives the command back, even when a value looks like an option |
| BrokerArgv.PrintParse | tools/aidn-provider-runtime-broker.py:123-141 | printing what was parsed gives the argv back, and it is well-formed |
| BrokerArgv.AcceptedLanguage | tools/aidn-provider-runtime-broker.py:111-141 | an argv passes if and only if it prints a well-formed command, which is unique |
| BrokerArgv.ReviewedCommand | tools/aidn-provider-runtime-broker.py:111-141 | a command of the reviewed tables, spelled out: its options are different ones of its provider, with bounded control-free values, and only the consensus provider's --no-abci stands alone |
| BrokerArgv.ReviewedLanguage | tools/aidn-provider-runtime-broker.py:35-51 | with the reviewed tables an argv passes if and only if it prints a well-formed command, and the only option without a value is the consensus provider's --no-abci |
| BrokerArgv.ParseArgsSound | tools/aidn-provider-runtime-broker.py:126-140 | success returns what was printed; failure names the token right after a well-formed prefix that cannot be continued |
| BrokerArgv.LongestPrefix | tools/aidn-provider-runtime-broker.py:126-140 | the prefix read before a rejection is the longest one: all well-formed arguments the same tokens begin with were read |
| BrokerArgv.StuckUnique | tools/aidn-provider-runtime-broker.py:126-140 | a rejected token sequence is stuck at one place for one reason |
| BrokerJobs.AppendKeepsLog | tools/aidn-provider-runtime-broker.py:309-335 | after any append the record holds exactly the last 64 of the n events, contiguous offsets ending at n, and a truncation mark of 0 up to 64 events and n - 63 after |
| BrokerJobs.UpdateExactly | tools/aidn-provider-runtime-broker.py:391-434 | an update and a cancel request add one event with the progress cut to 0 to 100, and which fields each of them changes and keeps |
| BrokerJobs.PollIsComplete | tools/aidn-provider-runtime-broker.py:378-389 | a poll returns all events after the offset if and only if the truncation mark is at most offset + 1 |
| BrokerJobs.SessionReceivesHistory | tools/aidn-provider-runtime-broker.py:378-389 | a client polling with the last offset it saw collects the whole history once and in order while no reply signals a loss |
| BrokerJobs.NextOffsetIsNext | tools/aidn-provider-runtime-broker.py:476-482 | next_offset is the offset the next appended event will get |
| BrokerJobs.StatusReplyExactly | tools/aidn-provider-runtime-broker.py:570-586 | a poll is rejected exactly for an offset below 0 or above 1000000000, misses exactly for an unknown ID, and otherwise returns the record, its later events and the next offset |
| BrokerSafety.StepKeepsInv | tools/aidn-provider-runtime-broker.py:484-608 | every step of control thread, workers, shutdown and restart keeps the coupling of job status, future and control point, the log windows, the client IDs and the launch record |
| BrokerSafety.ExecutionKeepsInv | tools/aidn-provider-runtime-broker.py:484-608 | the invariant holds in every state of every execution |
| BrokerSafety.MoveKeepsCore | tools/aidn-provider-runtime-broker.py:511-607 | when one job's status and future may move together without breaking the coupling of any other job |
| BrokerTheorems.ExecutionGrows | tools/aidn-provider-runtime-broker.py:309-434 | along an execution no job disappears or changes identity, histories and launches only grow, and a finished job never changes again |
| BrokerTheorems.JobAt | tools/aidn-provider-runtime-broker.py:309-335 | in every state of every execution, reloads included, a job's record is the 64-event window on its whole history, which is a well-formed life |
| BrokerTheorems.ExecutedAtMostOnce | tools/aidn-provider-runtime-broker.py:337-376 | each client ID has at most one job and at most one launch ever, of the request submitted under it, which is an allow-listed command with a timeout of 1 to 3600 s |
| BrokerTheorems.CancelledNeverExecuted | tools/aidn-provider-runtime-broker.py:587-607 | a job that is CANCELLED at some point was not launched before and is not launched after |
| BrokerTheorems.ReusedClientId | tools/aidn-provider-runtime-broker.py:344-350 | reusing a client ID changes nothing; it conflicts for a different request and names the job for the same one |
| BrokerTheorems.HistoryShape | tools/aidn-provider-runtime-broker.py:391-434 | a job's events read QUEUED+ RUNNING* and at most one terminal status, after which nothing is appended, progress never decreases, and the result agrees with the status; CANCELLED only after a cancel request |
| BrokerTheorems.LookupsNeverFail | tools/aidn-provider-runtime-broker.py:511-607 | no worker or cancellation in progress ever misses its job or future |
| BrokerTheorems.RestartPreserves | tools/aidn-provider-runtime-broker.py:223-293 | a restart drops no job, leaves finished jobs unchanged, and gives each unfinished job exactly one further FAILED event |
| BrokerTheorems.RestartIdempotent | tools/aidn-provider-runtime-broker.py:223-293 | reconciling any state file a second time changes nothing |
| BrokerTheorems.ReloadExactly | tools/aidn-provider-runtime-broker.py:223-293 | for any state file, which records are kept and what each becomes |
| BrokerTheorems.PollingClientSeesHistory | tools/aidn-provider-runtime-broker.py:574-586 | polls at any moments of any execution, restarts included, add up to the job's history unless a reply signals a loss |
| BrokerOutcomes.StatusHasCause | tools/aidn-provider-runtime-broker.py:511-607 | in every state of every execution a status has its cause: SUCCEEDED a launch that returned zero, FAILED a launch that returned something else, an exception or a restart, told apart by the code, CANCELLED a cancel request |
| BrokerOutcomes.ReturnDecides | tools/aidn-provider-runtime-broker.py:526-550 | once a command has returned, and until a restart, its job waits for the report or is SUCCEEDED exactly for zero and FAILED otherwise, with the matching result |
| BrokerOutcomes.RaiseDecides | tools/aidn-provider-runtime-broker.py:551-566 | once a worker has raised, and until a restart, its job waits for the report or is FAILED as an internal error |
| BrokerOutcomes.FinishedOnce | tools/aidn-provider-runtime-broker.py:391-434 | a finished job was finished by one step, of its worker, of its cancellation or of a restart, and has not changed since |
| BrokerOutcomes.FinishedForever | tools/aidn-provider-runtime-broker.py:391-434 | a SUCCEEDED, FAILED or CANCELLED job never changes again |
| BrokerOutcomes.RunsAreLaunches | tools/aidn-provider-runtime-broker.py:519-525 | the recorded runs are the launches of the execution, one by one and in order |
| BrokerOutcomes.SubmitExactly | tools/aidn-provider-runtime-broker.py:484-509 | which submissions create a job, and exactly what they create; all others change nothing |
| BrokerOutcomes.SubmissionRuns | tools/aidn-provider-runtime-broker.py:501-508 | a new job is handed over with its request and registered |
| BrokerOutcomes.WorkerRuns | tools/aidn-provider-runtime-broker.py:511-525 | a pending job is taken, announced as RUNNING and launched with its request |
| BrokerOutcomes.WorkerReports | tools/aidn-provider-runtime-broker.py:526-568 | a returned command ends as SUCCEEDED or FAILED by its return code, persisted, and is forgotten |
| BrokerOutcomes.CancelRuns | tools/aidn-provider-runtime-broker.py:587-593 | cancelling a queued job whose future is pending withdraws it |
| BrokerOutcomes.CancelEnds | tools/aidn-provider-runtime-broker.py:594-607 | a withdrawn job is recorded as CANCELLED, persisted, forgotten and not launched |
| BrokerOutcomes.CancelWins | tools/aidn-provider-runtime-broker.py:587-607 | whatever other threads do, a withdrawn job stays so until it is CANCELLED or the process restarts |
| BrokerOutcomes.StoppedStartsNothing | tools/aidn-provider-runtime-broker.py:688 | a broker that is shutting down takes no further job |
| BrokerStore.BrokerJobStore.constructor | tools/aidn-provider-runtime-broker.py:217-293 | loading any file yields its reconciliation in memory and on disk |
| BrokerStore.KeepLoadable | tools/aidn-provider-runtime-broker.py:229-256 | exactly the records with matching ID, known status and non-negative offset are kept |
| BrokerStore.FailUnfinished | tools/aidn-provider-runtime-broker.py:272-293 | exactly the unfinished jobs are closed as FAILED |
| BrokerStore.BrokerJobStore.CreateOrGet | tools/aidn-provider-runtime-broker.py:337-376 | idempotent creation: found, conflict, or one new queued job, persisted, with client IDs staying unique |
| BrokerStore.BrokerJobStore.Get | tools/aidn-provider-runtime-broker.py:378-389 | a copy of the record with only the later events, or a miss |
| BrokerStore.BrokerJobStore.Update | tools/aidn-provider-runtime-broker.py:391-417 | the record gets one event and the given status whatever it was before, persisted |
| BrokerStore.BrokerJobStore.RequestCancel | tools/aidn-provider-runtime-broker.py:419-434 | a finished job is returned untouched; otherwise the request is recorded under the current status |
| MissingPackages.SelectedRootNames | tools/build-release-integrity-report.py:99-121 | exactly the applicable direct and optional dependencies of the root package |
| MissingPackages.RequiredMissingPackages | tools/build-release-integrity-report.py:124-146 | the worklist terminates with exactly the names reachable from the roots through locked and installed packages that are unlocked or uninstalled, whatever the order of roots and pops |
| MissingPackages.ChainStaysInside | tools/build-release-integrity-report.py:129-146 | a set containing the roots and closed under edges contains everything required |
| MissingPackages.RequiredIsLeast | tools/build-release-integrity-report.py:124-146 | the required names are the least set with the applicable dependencies of the root and of its locked and installed members |
| ImportCycles.AssertNoCycles | tools/verify-dashboard-seams.py:48-73 | the check passes if and only if the import graph has no cycle |
| ImportCycles.Checker.Visit | tools/verify-dashboard-seams.py:61-70 | the recursion terminates; failure exhibits a cycle, success leaves the open visits as they were and the file visited |
| ImportCycles.Checker.VisitGraph | tools/verify-dashboard-seams.py:72-73 | on success every file is visited and no visit is open |
| ImportCycles.FinishedIsAcyclic | tools/verify-dashboard-seams.py:66-70 | a completion order in which imports come first rules out every cycle |
| ImportCycles.StackCloses | tools/verify-dashboard-seams.py:62-63 | meeting a file that is still being visited yields a cycle |
| RolloutTool.RemoteHost.RolloutHost | tools/rollout_abci_image.py:191-285 | the tool computes the pure rollout for every fault script, so that its outcome means what is stated below and no original container is lost |
| Rollout.AbortedExactly | tools/rollout_abci_image.py:193-208 | a rollout aborts exactly when the original is not set aside cleanly, and then its names and running containers are given fault by fault |
| RolloutExact.RollExactly | tools/rollout_abci_image.py:209-283 | once the original is set aside, which outcome a script leads to and exactly which containers then exist and run, interrupted rollbacks included |
| RolloutExact.DeployExactly | tools/rollout_abci_image.py:210-280 | a deployment succeeds exactly for the stated faults and image, and leaves exactly the stated names and running containers after the stated number of commands |
| RolloutExact.RecoverExactly | tools/rollout_abci_image.py:238-273 | when the consensus runtime recovers, whether its container gets started, and how many commands that takes |
| RolloutExact.TryExactly | tools/rollout_abci_image.py:215-229 | a polling loop succeeds exactly if one of its tries works, and changes no container |
| RolloutExact.AskedIsFirst | tools/rollout_abci_image.py:215-229 | a polling loop ends with the first answer, or after all tries |
| RolloutExact.RollbackExactly | tools/rollout_abci_image.py:165-172 | exactly which faults let a rollback complete, and which names and running containers it leaves when they do not |
| RolloutOutcomes.RollOutcome | tools/rollout_abci_image.py:191-285 | success: the new container, of the expected image and with the mounts of the original, has the name and the original the backup name; rolled back: the names are restored and the original is started; rollback failed: the names are the old ones, the moved ones or the rolled-out ones, and names and running containers are the exact formula; aborted: the exact formula |
| RolloutOutcomes.UndoneNames | tools/rollout_abci_image.py:165-172 | the names after a rollback: restored if the rename back took effect, cleared if only the removal did, and unchanged otherwise |
| RolloutOutcomes.RollSurvives | tools/rollout_abci_image.py:191-285 | no original container is ever removed, whatever fails and wherever |
| RolloutOutcomes.SucceedsExactly | tools/rollout_abci_image.py:191-285 | a rollout succeeds if and only if the original is set aside and the faults let every stage pass |
| RolloutOutcomes.ReadyExactly | tools/rollout_abci_image.py:191-285 | a rollout succeeds only on a host with the container, the expected mount and image, a free backup name and time for at least one probe, and without faults on every such host |
| RolloutOutcomes.OriginalRunsExactly | tools/rollout_abci_image.py:165-283 | once set aside, the original runs again if and only if the start of a rollback takes effect, unless its backup name is configured as the consensus container; so it is stopped after a success |
| RolloutOutcomes.RepeatAborts | tools/rollout_abci_image.py:200-201 | rolling out a second time with the same backup name aborts and moves nothing |
| RolloutOutcomes.AbortSetsAsideExample | tools/rollout_abci_image.py:204-208 | a concrete schedule in which an abort leaves the original stopped under the backup name |
| RolloutOutcomes.AbortStopsExample | tools/rollout_abci_image.py:200-208 | a concrete schedule in which an abort leaves the original stopped under its own name |
| RolloutOutcomes.RollbackStrandsExample | tools/rollout_abci_image.py:165-172 | a concrete schedule in which a failed rollback leaves the original stopped under the backup name |
| Rollout.RollSteps | tools/rollout_abci_image.py:204-280 | success means that stop, rename, create, start, health, image and consensus recovery succeeded in that order; a completed rollback ends by renaming back and starting |
| RolloutTool.RemoteHost.DeployNew | tools/rollout_abci_image.py:210-280 | the guarded part computes the pure deployment for every fault script |
| RolloutTool.RemoteHost.RollBack | tools/rollout_abci_image.py:165-172 | the imperative rollback computes the pure one for every fault script |
| RolloutTool.RolloutFleet | tools/rollout_abci_image.py:322-345 | after a success every host runs the released image, of the expected ID, under the container name with its former mounts, keeps the original under the name with -prev- and the suffix, and is otherwise as before; on an early end this holds for the hosts before it, hosts after it are untouched, and the last one had its turn before, was not ready or had a fault, and still has its original; different, ready, faultless hosts all succeed |
| MaturityPayment.Workspace.LoadOrStage | tools/execute-development-reward-maturity-payment.py:49-68 | an envelope is returned exactly when it is payable and nothing different is pending, is then the pending one, and is staged exactly if nothing was |
| MaturityPayment.Workspace.Execute | tools/execute-development-reward-maturity-payment.py:71-154 | a process takes exactly the effects its input calls for up to its interruption, with the exit, pending file and result that follow; it removes a pending file only as its last steps after recording that envelope's finality, and does nothing for a conflicting source |
| MaturityPayment.Workspace.ExecuteAll | tools/execute-development-reward-maturity-payment.py:71-154 | over any number of processes a pending envelope goes away only if its finality was recorded meanwhile, every reported payment has its record, and retries of one source never leave another one pending |
| MaturityPayment.Workspace.Settle | tools/execute-development-reward-maturity-payment.py:112-133 | the result is on file exactly if the process lives to write it, the pending file goes only after it, and the exit is reported only after both |
| MaturityPayment.ProcessExactly | tools/execute-development-reward-maturity-payment.py:71-146 | the effects and exit of an uninterrupted process: none for an unacceptable source; otherwise staging if needed, one submission per poll up to the first answer or the deadline, then FINALIZED and unlinking, REJECTED, or AWAITING |
| MaturityPayment.PaidExactly | tools/execute-development-reward-maturity-payment.py:94-133 | a process reports payment by itself if and only if its source is acceptable and finality comes in time before any rejection, and only then unlinks |
| MaturityPayment.RetryPays | tools/execute-development-reward-maturity-payment.py:62-133 | after any interrupted attempts with the same source, one that is left alone and sees finality in time pays |
| MaturityPayment.OnlyPayable | tools/execute-development-reward-maturity-payment.py:49-68 | whatever the processes, only payable envelopes are staged, submitted or reported on |
| MaturityPayment.PayableExactly | tools/execute-development-reward-maturity-payment.py:51-61 | a payable envelope has the one type, one of two stages, a positive amount and a source digest of 64 lower-case hexadecimal characters |
| MaturityPayment.SubmissionsCarryStaged | tools/execute-development-reward-maturity-payment.py:94-146 | in a lawful log, from staging to unlinking every submission and result is for the staged envelope, every result directly follows a submission of it, and the step before unlinking wrote its finality |
| MaturityPayment.StagedFirst | tools/execute-development-reward-maturity-payment.py:62-68 | nothing is submitted, written or unlinked without an open staged envelope |
| Genesis.BuildSpec | tools/public-testnet-genesis.py:117-157 | a document exists exactly for four or more manifests with unique IDs and keys, the rejections being told apart; it carries the given chain ID and time, height 1, and one power-1 validator per manifest with strictly increasing names |
| Genesis.BuildIsOrderIndependent | tools/public-testnet-genesis.py:122-157 | every ordering of the same manifests gives the same document or the same rejection |
| Genesis.UniquenessTests | tools/public-testnet-genesis.py:123-126 | comparing set sizes with the list length is pairwise distinctness |
| Genesis.StringLessExactly | tools/public-testnet-genesis.py:137 | names are compared by code points at the first difference, a proper prefix coming first |
| Sorting.SortSorts | tools/public-testnet-genesis.py:137 | sorting distinct items lists exactly them, strictly in order |
| Sorting.SortedUnique | tools/public-testnet-genesis.py:137 | a set has at most one strictly sorted enumeration |

## Left out

- Candidate fit: `_candidate_for_task` beyond its queue facts (bundle policy, cooldown, resource report) reads host services one after the other.
- `_resource_requirements`, `scheduler_status`, `queue_diagnostics`, event recording: single-branch arithmetic and projections.
- Event texts and timestamps, the 512-character cut of messages, and result details other than status and code.
- The synchronous broker path without an operation, the socket loop, peer checks and output truncation.
- The pool size of four workers and the executor's queue order: the model allows any pending job to start, which includes every real schedule.
- Corrupt or foreign state files that are not job records at all, and failing state writes.
- Construction of the container command line beyond image and mounts, SSH, restart policies of containers, and a tool that is itself killed during a rollout.
- RolloutTool.RemoteHost.Poll: the clock is a bound on the number of tries.
- MaturityPayment.Workspace.Execute: the consensus service behind the ledger's answers, clocks, and the content of result files beyond their envelope are not modelled.
- Genesis.BuildSpec: manifests are given as accepted; base64 decoding, address derivation, identifier and time syntax, and the fixed consensus parameters are not modelled. The installing command is left out.
- License evidence, lockfile parsing and signing in the release report; file resolution and required-symbol checks in the dashboard verifier.
- The prepare, sign, combine and submit tools and the ledger, faucet and reward modules.
