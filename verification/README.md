# A verified model of the cluster simulator

The simulator is a control node (`internal/cluster`) that owns worker nodes, processes, an event log
and a calendar of scheduled submissions and failures; three scheduling policies
(`internal/scheduler`); a real-time engine that steps the controller from a background loop
(`internal/engine`); and a report computed from the state (`internal/metrics`). This project models
all four in Dafny and proves what they keep over every run.

## How it is layered

1. **Values and functions.** `Domain`, `Schedulers`, `Cluster` and `Scenarios` give every public
   command and every phase of a tick as a function from state to state, with the error branches the
   code has, also those that turn out never to be taken. `Ordering`, `Sums` and `Arithmetic` hold the
   mathematics: enumeration under a total order, finite sums over maps, division.
2. **Theorems about all runs.** `Placement`, `EventLog` and `Invariants` state the invariant:
   node lists, node counters and `nodeId` agree, the log replays to the live state, and each record's
   own history is in order. `Failures`, `Commands`, `Scheduling`, `Tick` and `Loading` prove the exact
   effect of each operation on a valid state and that the invariant survives it; `Runs` closes the
   induction over all commands. `CommandResults`, `LoadResults`, `TickResults`, `TickLogs`, `CheckResults`,
   `ReportResults`, `Verdicts`, `LoadOrder` and `QueueOrder` say the same without the functions of layer 1: error by error,
   field by field and event by event. On top of it stand `Atomicity` (ticks are all or nothing, batches
   compose), `Progress` (the stop for lack of progress is exact and final; every simulation ends),
   `Conservation` (CPU-ticks and memory-ticks), `WaitingTime`, `Histories`, `AppendOnly`, `Clocks`, `Fairness`
   (Round Robin), `Aging`, `Overtaking`, `OvertakingRuns`, `Starvation` and
   `Patience` (Priority-Aware), `StableSorting`, `Validation`, `TickErrors` (what makes a tick
   fail, read off the state before it), `ScenarioRuns` and `ReportBounds`.
3. **Objects.** `Objects`, `LiveSchedulers` and `Controllers` are the code's own form: node, process,
   cluster, scheduler and controller objects whose methods overwrite fields in place, loop over maps
   in an arbitrary order, sort slices, and roll back from a deep copy. Each public method of
   `Controllers.Controller` is proved to take the object from one settled state to exactly the state its
   specification function gives, so every theorem of layer 2 is a theorem about the object. `Checks`,
   `Sampling`, `Collecting`, `ScenarioLoops`, `ScenarioEngine` and `Reports` hold the loops that only
   read. Since a map is ranged over in an order the proofs know nothing about, a method that meets a
   functional specification is deterministic.
4. **The engine protocol.** `EngineProtocol` models callers and loop goroutines as threads that take
   atomic steps over two mutexes, a cancel handle and a done channel; a run is any interleaving.
   `EngineOperations` says what each operation does to the loop, and `EngineLiveness` takes infinite
   interleavings and proves that nobody blocks forever.

## Where the code and its documentation differ

The model follows the code.

- `docs/experiments.md:47` says that aging prevents permanent starvation. The pass skips a process that
  does not fit and goes on with the next one (`internal/cluster/lifecycle.go:247-250`), so
  `Starvation.LargeJobStarves` exhibits, for every k, a run from a new controller in which a job that ranks
  first is passed over in each of k ticks by a smaller one that came later. `Overtaking.NeverOvertakenIsExact`
  is the exact condition under which aging does protect a process from another one: it has waited long enough
  to make up for the other's priority, and it asks for no more. `Patience.SmallJobIsServed` is what remains of the
  promise: a process that asks for no more than any other is placed, whatever is submitted.
- Rollback gives back nodes, processes, log, counters and calendar but not the scheduler object
  (`internal/cluster/lifecycle.go:175-181`). `Tick.StepExact` proves this harmless: from a valid state a
  tick can only fail before any process is scheduled.
- `Reset` keeps the scheduler object, and with it the Round Robin cursor
  (`internal/cluster/controller.go:179-188`). A scenario load installs a fresh one, which is why
  `ScenarioRuns.SameScenarioSameResult` holds whatever the controller did before.
- Observed waiting can go down: a READY process that restarts has its ready time reset without credit
  for the wait (`internal/cluster/recovery.go:143`). `WaitingTime.RestartDropsWaiting` is such a run from a new controller;
  `WaitingTime.TickWaiting` and `WaitingTime.PlainCommandWaiting` say exactly when it happens, in a tick
  and by any other command.
- The transition table allows FAILED to READY (`internal/domain/process.go:119-121`), yet
  `Histories.TerminalIsFinal` proves that a resting FAILED record never changes.
- The `Finish` after the loop of `RunScenario` (`internal/engine/engine.go:149`) is never reached:
  `ScenarioRuns.RunsEndByLimit`.

## How some things are represented

- Identifiers are natural numbers, 0 standing for the empty string and `<` for the order of strings.
- Times are mathematical integers. Loads and utilizations are reals; a sample adds the *variance* of the
  node loads to a list, and the square root appears in the report's bound as any nonnegative number whose
  square is that variance.
- `processes`, `nodes`, `pending` and `failures` are maps. Ranging over one is a loop that picks any key not yet
  visited.
- An action scheduled for a tick sits in the calendar as in the code: a map from ticks to lists.

## Model

| member | source | states |
|---|---|---|
| Runs.ReachableIsSettled | internal/cluster/controller.go:43-71 | In every state that any sequence of commands can reach, failed commands included: node lists, node counters and `nodeId` agree and nodes that may not host are empty, so the runtime check accepts; replaying the log gives the live state; every record's history is in order; scheduled actions lie ahead; no ONLINE node is stale |
| Runs.PlainKeepsValid | internal/cluster/controller.go:85-137 | Every command other than a tick, a load or a reset keeps the invariant, and changes nothing at all when it reports an error |
| Histories.LogTellsState | internal/cluster/controller.go:201-212 | In every reachable state the log, replayed, gives each process's state, node and restart count; deferrals, node failures and reschedulings equal their event counts; events are numbered without gaps and never go back in time |
| EventLog.ReplayCounts | internal/cluster/controller.go:201-212 | The counters of a replay are the numbers of events of each kind |
| EventLog.ReplayInterrupted | internal/cluster/recovery.go:131-135 | A replay knows exactly the processes with a failure, pause or wait in the log |
| Clocks.LogTellsTimes | internal/cluster/lifecycle.go:17-162 | In every reachable state, whatever was done and whatever failed, the log alone gives every process the ticks in its record: its submission, its first start, its end, since when it is queued, and how long it has waited |
| AppendOnly.LogOnlyGrows | internal/cluster/controller.go:201-212 | No command but a reset or a load drops or rewrites an event, a failing and rolled-back tick included |
| Histories.LifecycleInOrder | internal/domain/process.go:92-151 | In every reachable state restarts stay within the limit, a resting FAILED process cannot restart, a finish time is set exactly in terminal states, no work remains exactly in TERMINATED, and a node is recorded exactly while RUNNING |
| Histories.TerminalIsFinal | internal/domain/process.go:119-121 | No command but a reset or a load changes any field of a TERMINATED, KILLED or resting FAILED record, although the transition table has FAILED to READY |
| Runs.TickIsFresh | internal/cluster/recovery.go:152-168 | After heartbeat detection, and after the whole tick, no ONLINE node has missed its heartbeat for longer than the timeout |
| Runs.NothingPlacedOnStale | internal/cluster/recovery.go:152-168 | A process that a tick's pass starts runs on an ONLINE node with a heartbeat within the timeout |
| Tick.StepExact | internal/cluster/lifecycle.go:164-207 | A tick of a valid state fails only when the simulation is over or a scheduled action fails; it then changes nothing, the Round Robin cursor included; the runtime check at its end never fails; otherwise it leaves a valid state |
| Atomicity.StepFailsExactly | internal/cluster/scenario.go:119-156 | A tick fails if and only if the simulation is over or some submission or failure scheduled for the new tick does not apply at its turn |
| Verdicts.TickVerdict | internal/cluster/lifecycle.go:167-190 | A failing tick gives the error of the first scheduled action that does not apply at its turn, submissions before failures, or says that the simulation is over |
| TickErrors.TickSucceedsExactly | internal/cluster/scenario.go:119-156 | The same read off the state before the tick: it succeeds if and only if the simulation is not over, the due submissions fit under the limit and are well-formed with new and different names, and each due failure finds its node up or its process with a life left after those before it |
| TickErrors.ApplyFailuresExact | internal/cluster/recovery.go:95-150 | A list of failures applies if and only if each lands, a process dying after as many hits as it has restarts and one more, and a hit being a failure by name or that of the node it still runs on |
| TickErrors.SubmitAllExact | internal/cluster/lifecycle.go:20-41 | A list of submissions applies if and only if all of them can enter together |
| Atomicity.BatchesCompose | internal/cluster/lifecycle.go:209-226 | `Steps(a)` and then `Steps(b)` ends in the state of `Steps(a + b)` with the same error, whatever fails on the way |
| Verdicts.StepsResult | internal/cluster/lifecycle.go:209-226 | A batch without a positive count is refused, one on a completed simulation does nothing, one whose tick fails or completes stops right there, and any other goes on with one tick less |
| Tick.ApplyFailureExact | internal/cluster/scenario.go:130-152 | A scheduled failure applies exactly when its target exists and is not already down or terminal, and otherwise changes nothing |
| Tick.DetectExact | internal/cluster/recovery.go:152-168 | Heartbeat detection downs exactly the stale ONLINE nodes and fails exactly the processes that ran on them, each once; no error it ignores can occur (TickResults.DetectionResult says which nodes are stale) |
| TickResults.DetectionResult | internal/cluster/recovery.go:152-168 | A node that detection looks at goes down, empty, if and only if it is ONLINE and was last heard from more than the timeout ago, a timeout that is not positive meaning none; every other node stays as it is |
| TickResults.DetectionLosses | internal/cluster/recovery.go:152-168 | A process fails once if it is listed on such a node, and otherwise stays as it is |
| TickResults.TickTimeout | internal/cluster/recovery.go:152-168 | Over a whole successful tick: an ONLINE node that no due failure names is FAILED afterwards if it has timed out, and otherwise still ONLINE |
| Tick.ExecuteExact | internal/cluster/lifecycle.go:282-306 | Execution works on exactly the RUNNING processes, one tick each, and releases and finishes those that end; no error it ignores can occur |
| Tick.TrailEffects | internal/cluster/lifecycle.go:186-201 | What each phase of a tick does to nodes and processes |
| TickLogs.TickLog | internal/cluster/lifecycle.go:164-207 | The log of a tick, entry by entry: submissions, failures, timeouts, decisions, completions, and perhaps the end, each phase in its fixed order |
| TickLogs.SubmissionsLog | internal/cluster/scenario.go:119-129 | Due submissions are noted in the order in which they are taken |
| TickLogs.FailuresLog | internal/cluster/scenario.go:130-152 | Due failures are noted in the order in which they are listed, each with what it takes down |
| TickLogs.DetectionLog | internal/cluster/recovery.go:152-168 | Stale nodes go down in the order of names, and the processes of each in the order of names |
| TickLogs.ScheduleLog | internal/cluster/lifecycle.go:245-280 | One decision for each waiting process, in the order of the queue: deferred, or started if it never was, scheduled and given its node |
| TickLogs.ExecutionLog | internal/cluster/lifecycle.go:282-306 | The processes that end are released and completed in the order of names |
| Scheduling.SelectionIsExact | internal/cluster/lifecycle.go:246-252 | A policy picks a node that exists and fits, and reports an error exactly when no node fits |
| Scheduling.ScheduleOneExact | internal/cluster/lifecycle.go:245-280 | One turn of the scheduling loop defers exactly when nothing fits and otherwise places the process on a fitting node; allocation and transition never fail |
| Scheduling.PassIsDecisive | internal/cluster/lifecycle.go:245-280 | After the loop each queued process is untouched and fits nowhere, or was placed on an ONLINE node; nothing else moved |
| Scheduling.PassIsMaximal | internal/cluster/lifecycle.go:228-280 | After a pass no READY process fits any ONLINE node |
| Scheduling.RefusedStaysRefused | internal/cluster/lifecycle.go:247-250 | Once a process was refused, a later one in the queue that asks for at least as much is refused too |
| Scheduling.NoLargerJobOvertakes | internal/cluster/lifecycle.go:228-280 | Under all three policies: if p precedes q, asks for no more, and q is placed, then p is placed |
| Scheduling.FirstThatFitsIsPlaced | internal/cluster/lifecycle.go:245-252 | A READY process that fits is placed unless one that precedes it fits too: the refused ones never hold it up |
| Overtaking.OvertakingIsExact | internal/cluster/lifecycle.go:228-280 | Under every policy, for records p and q: no pass at this tick, of any valid state that holds both, places q and leaves p waiting if and only if p precedes q and asks for no more |
| Failures.FailProcessExact | internal/cluster/recovery.go:117-150 | A process failure is refused exactly for terminal processes; otherwise the record restarts from the beginning or ends FAILED, a node it ran on has its request back, and nothing else changes but for what the log gains |
| Failures.FailNodeExact | internal/cluster/recovery.go:95-115 | A node failure is refused exactly if the node is already down; otherwise the node ends empty, each process it listed failed once, one node failure more is counted, and nothing else changes but for what the log gains |
| Failures.FailHostedExact | internal/cluster/recovery.go:107-113 | The loop over a failed node's processes never meets an error |
| Invariants.ReleaseExact | internal/cluster/lifecycle.go:308-320 | Releasing a hosted process never fails |
| Placement.PlacedRelease | internal/domain/node.go:107-122 | A hosted process can be released, and lists, counters and records agree afterwards |
| Placement.PlacedAllocate | internal/domain/node.go:94-105 | A process that is not RUNNING and fits a node can be allocated there, and lists, counters and records agree afterwards |
| Placement.AllocateThenRelease | internal/domain/node.go:94-122 | An ONLINE node with room takes a process it does not list yet, any other call is refused with its error and changes nothing, and releasing what was allocated gives back the node as it was |
| Placement.ReleaseResult | internal/domain/node.go:107-122 | A release gives back the request and drops the first mention of the process, unless it is not listed or the counters are too low |
| Placement.PlacedNodeDown | internal/cluster/recovery.go:101-104 | A node that goes down strands exactly the processes it listed |
| Placement.PlacedPassesCheck | internal/cluster/invariants.go:15-54 | Consistent placement, with idle nodes empty, implies everything the runtime check looks at |
| Commands.RegisterNodeExact | internal/cluster/controller.go:85-101 | Registration succeeds exactly under the limit, for a well-formed definition with a new name |
| Commands.RemoveNodeExact | internal/cluster/controller.go:124-137 | Exactly the nodes without processes can be removed |
| Commands.ChangeNodeStatusExact | internal/cluster/recovery.go:10-35 | A status change succeeds exactly as the transition table, the emptiness rule for OFFLINE and the failure path allow; then only the status of that node changes, going ONLINE counts as a heartbeat, and going FAILED empties the node and fails what it listed |
| Commands.FailNodeCommand | internal/cluster/recovery.go:37-48 | A node can be failed exactly once; it ends empty, each process it listed has failed once, and no other record changes |
| Commands.RecoverNodeExact | internal/cluster/recovery.go:50-66 | Exactly FAILED and OFFLINE nodes recover, to ONLINE with a fresh heartbeat |
| Commands.HeartbeatExact | internal/cluster/recovery.go:68-80 | Exactly ONLINE and DRAINING nodes are marked as heard from at this tick; nothing else changes, not even the log |
| Commands.SubmitExact | internal/cluster/lifecycle.go:20-41 | Submission succeeds exactly under the limit, for a well-formed definition with a new name; then there is one READY record more, with all its work ahead, and a completed simulation is idle again |
| Commands.FailProcessCommand | internal/cluster/recovery.go:82-93 | Exactly the processes that are not terminal can be failed; the record restarts or ends FAILED, a node it ran on has its request back, and nothing else changes but for what the log gains |
| Commands.ControlKeeps | internal/cluster/controller.go:139-199 | Scheduler choice, start, pause and finish keep the invariant |
| Commands.ResetKeeps | internal/cluster/controller.go:179-188 | A reset leaves a valid state whatever was there before |
| Invariants.SuspendExact | internal/cluster/lifecycle.go:64-82 | Pause and wait succeed exactly on RUNNING processes; the record leaves its node, the node has its request back, and nothing else changes but for what the log gains |
| Invariants.RequeueExact | internal/cluster/lifecycle.go:84-100 | Resume and wake succeed exactly on PAUSED and WAITING processes; the record is READY as of now, and nothing else changes |
| Invariants.KillExact | internal/cluster/lifecycle.go:140-162 | Kill succeeds exactly on processes that are not terminal; the record ends KILLED at this tick, a node it ran on has its request back, and nothing else changes |
| CommandResults.PauseResult | internal/cluster/lifecycle.go:64-82 | A pause of a valid state in full: its error, ProcessNotFound or InvalidStateTransition unless the process is RUNNING; and else the record PAUSED and off its node, the node with its request back, and two events |
| CommandResults.WaitResult | internal/cluster/lifecycle.go:102-120 | The same for a wait, which leaves the process WAITING |
| CommandResults.ResumeResult | internal/cluster/lifecycle.go:84-100 | A resume in full: refused unless the process is PAUSED, and else READY as of now, and one event |
| CommandResults.WakeResult | internal/cluster/lifecycle.go:122-138 | The same for a wake, refused unless the process is WAITING |
| CommandResults.PauseAndResume | internal/cluster/lifecycle.go:64-100 | After a successful pause waking is refused, and resuming succeeds and puts the process back into the queue, off its node and READY as of now |
| CommandResults.WaitAndWake | internal/cluster/lifecycle.go:102-138 | After a successful wait resuming is refused, and waking succeeds and puts the process back into the queue |
| CommandResults.KillResult | internal/cluster/lifecycle.go:140-162 | A kill in full: its error, the record KILLED at this tick, the node with its request back, and its events |
| CommandResults.FailProcessResult | internal/cluster/recovery.go:82-150 | A process failure in full: its error, the new attempt or the final failure, the node with its request back, and its events |
| CommandResults.SubmitResult | internal/cluster/lifecycle.go:20-41 | A submission in full: its error, the new record, and its event |
| CommandResults.FailNodeResult | internal/cluster/recovery.go:37-48 | A node failure in full: its error, the node down and empty, each process it listed failed once, in the order of names, and the events of all of it |
| CommandResults.ChangeNodeStatusResult | internal/cluster/recovery.go:10-35 | A status change in full: its error, and else the new status and its event, or the whole node failure |
| CommandResults.StatusMoves | internal/cluster/recovery.go:170-192 | The changes of status an operator may make are these seven, and staying as it is |
| CommandResults.RecoverNodeResult | internal/cluster/recovery.go:50-66 | A recovery in full: its error, the node ONLINE with a fresh heartbeat, and two events |
| CommandResults.HeartbeatResult | internal/cluster/recovery.go:68-80 | A heartbeat in full: its error, or the new heartbeat tick and nothing else |
| CommandResults.RegisterNodeResult | internal/cluster/controller.go:85-101 | A registration in full: its error, the new node as defined, and its event |
| CommandResults.RemoveNodeResult | internal/cluster/controller.go:124-137 | A removal in full: its error, the node gone, and its event |
| CommandResults.SetSchedulerResult | internal/cluster/controller.go:139-150 | Each known name gives its own policy, fresh, with aging interval 5 and cursor 0, and the empty one Round Robin; an unknown one is refused |
| CommandResults.StartResult | internal/cluster/controller.go:158-167 | Any simulation that is not RUNNING starts to run and forgets why it had stopped, and this is noted; else nothing changes |
| CommandResults.PauseSimulationResult | internal/cluster/controller.go:169-177 | Only a RUNNING simulation is paused, and this is noted; else nothing changes |
| CommandResults.FinishResult | internal/cluster/controller.go:190-199 | A simulation finishes once, with the reason given, and this is noted; a second finish changes nothing |
| CommandResults.ResetResult | internal/cluster/controller.go:179-188 | A reset leaves no nodes, processes, calendar or statistics, tick 0 and one event, and keeps limits, timeout and scheduler |
| CommandResults.NewControllerResult | internal/cluster/controller.go:43-71 | Which configurations make a controller, with 0 meaning 100 nodes and 10000 processes and no name Least Loaded, and that it starts with nothing |
| CommandResults.ProcessMoves | internal/domain/process.go:92-122 | The transition table is these seventeen moves, and the terminal states are these three |
| Progress.StopIsForGood | internal/cluster/lifecycle.go:387-416 | Once a tick has stopped the simulation for lack of progress, no sequence of starts, ticks, heartbeats, pauses, finishes and scheduler changes ever changes a process record |
| Progress.BlockedTickIsStuck | internal/cluster/lifecycle.go:387-416 | Such a stop leaves nothing scheduled, nothing RUNNING, and no READY process that fits an ONLINE node |
| TickResults.TickEnds | internal/cluster/lifecycle.go:195-201 | A successful tick ends the simulation if and only if all processes are over, the ticks are used up, or nothing can happen any more; the reason is the first of these that holds, and where nothing can happen it is NO_ONLINE_CAPACITY if a process is READY, and otherwise EXTERNALLY_BLOCKED with a process WAITING or PAUSED |
| TickResults.BlockedExactly | internal/cluster/lifecycle.go:387-416 | There is a reason to stop for lack of progress if and only if nothing is to come, nothing runs, nothing READY fits, and something is not over; the reason is missing capacity if a process is READY, and otherwise that those left are WAITING or PAUSED |
| TickResults.StopExactly | internal/cluster/lifecycle.go:195-201 | After the work of a tick the simulation stops exactly for one of these causes, with its reason and one event, and else nothing changes |
| Progress.UnfinishedTickCanMove | internal/cluster/lifecycle.go:387-416 | A tick that leaves a non-empty simulation uncompleted leaves a scheduled action, a RUNNING process, or a READY process that fits |
| Progress.TickMakesProgress | internal/cluster/lifecycle.go:195-201 | Every successful tick that leaves a non-empty simulation running decreases the triple of calendar horizon, ONLINE nodes and remaining work |
| Progress.SimulationStops | internal/cluster/lifecycle.go:195-201 | Left alone, every non-empty simulation completes or meets a failing action after finitely many ticks, with no tick limit |
| Progress.CalendarTick | internal/cluster/scenario.go:119-156 | A successful tick takes exactly its own actions off the calendar, and the rest lie ahead |
| Conservation.AllocationIsDemand | internal/domain/node.go:94-122 | What all nodes have allocated is the demand of exactly the RUNNING processes |
| Conservation.UtilizationTimesCapacity | internal/cluster/lifecycle.go:353-358 | Sampled utilization times capacity is allocation, also on an empty cluster, and utilization lies in [0, 1] |
| Conservation.TickConserves | internal/cluster/lifecycle.go:282-358 | In one tick, utilization gained times capacity is the demand of exactly the processes that lose a remaining tick in it |
| Conservation.TickWorks | internal/cluster/lifecycle.go:290-303 | A tick takes one remaining tick from each process it works on and from no other; one it restarts, or a new one, counts from its full length |
| Conservation.RunConserves | internal/cluster/lifecycle.go:282-358 | Over any run of ticks, summed utilization times capacity is the sum over all processes of request times ticks worked, for CPU and for memory |
| Conservation.WorkIsProgress | internal/cluster/lifecycle.go:292 | For a process that was not restarted, ticks worked are the ticks that no longer remain |
| Conservation.FreshRunConserves | internal/cluster/lifecycle.go:282-358 | From a fresh start and without restarts, summed utilization times capacity is the sum of request times (total - remaining) |
| ScenarioRuns.ScenarioConserves | internal/engine/engine.go:131-151 | The same for a whole scenario run, however it ends |
| WaitingTime.WaitingIsBounded | internal/metrics/report.go:122-140 | In every reachable state observed waiting is at most the time since submission, and for a finished process at most its turnaround |
| WaitingTime.TurnaroundIsWaitingPlusWork | internal/cluster/lifecycle.go:263-303 | A process that ended TERMINATED without ever failing, pausing or waiting: finish - submission = waiting + total ticks - 1 |
| WaitingTime.RunningIsAccountedFor | internal/cluster/lifecycle.go:263-303 | While such a process runs, waiting and work done account for every tick since submission |
| WaitingTime.FailProcessWaiting | internal/cluster/recovery.go:136-146 | A process failure lowers observed waiting exactly for a READY process that has waited and either restarts or had started before |
| WaitingTime.KillProcessWaiting | internal/cluster/lifecycle.go:140-162 | A kill lowers observed waiting exactly for a READY process that has waited since and had started before |
| WaitingTime.TickWaiting | internal/cluster/recovery.go:117-150 | A successful tick lowers the observed waiting of a process if and only if it is READY, has waited since its last ready tick, is hit by a failure due in the tick, and has started before or has a life left after the hits |
| WaitingTime.PlainCommandWaiting | internal/metrics/report.go:122-140 | Of all commands but ticks, resets and loads, exactly the failure and the kill of a process can lower its observed waiting, and exactly when it loses a wait by them; every other one leaves it as it is |
| WaitingTime.RestartDropsWaiting | internal/cluster/recovery.go:143 | Observed waiting is not monotone: a run from a new controller in which a job waits a tick, fails and restarts, and has then waited less |
| WaitingTime.TickKeepsWaits | internal/cluster/recovery.go:117-150 | A tick keeps everybody's observed waiting if and only if it fails or nobody loses a wait by it; timeouts, submissions, placement and work never lower it |
| Schedulers.SelectIsExact | internal/scheduler/scheduler.go:16-19 | For every policy: an error exactly when nothing fits, and a chosen node is a fitting candidate |
| Schedulers.LightestFitExists | internal/scheduler/least_loaded.go:20-37 | Among fitting nodes with distinct names there is a least one by score and then name |
| LoadOrder.LeastLoadedResult | internal/scheduler/least_loaded.go:20-43 | Least Loaded and Priority-Aware fail exactly if no node fits, and else choose a fitting node than which no fitting one is less loaded, compared over a common denominator with CPU and memory counting the same, and names deciding a tie |
| Fairness.RoundRobinResult | internal/scheduler/round_robin.go:24-50 | Round Robin chooses the fitting node that comes first in the order of names, cyclically from the cursor, and moves the cursor behind it; with none fitting it stays |
| QueueOrder.QueueOrderIs | internal/scheduler/priority.go:31-63 | The queue order: as submitted under Round Robin and Least Loaded; by priority raised by one for each whole interval waited, and then as submitted, under Priority-Aware |
| QueueOrder.FirstComeFirstServed | internal/cluster/lifecycle.go:228-280 | Under Round Robin and Least Loaded, of two waiting processes the one submitted earlier is placed if the other is, unless it asks for more |
| QueueOrder.HigherPriorityFirst | internal/cluster/lifecycle.go:228-280 | Under Priority-Aware, of two that became ready together the one of higher priority is placed if the other is, unless it asks for more |
| Fairness.FittingNodeIsChosen | internal/scheduler/round_robin.go:24-50 | Over a fixed set of n nodes, a node that fits in each of n consecutive rounds is chosen in one of them, wherever the cursor starts |
| Fairness.RoundApproaches | internal/scheduler/round_robin.go:41-48 | In a round in which a node fits, it is chosen or the cursor comes closer to it |
| Fairness.EqualShares | internal/scheduler/round_robin.go:41-48 | If all n nodes always fit, k rounds give each node k/n rounds, rounded down or up |
| Fairness.TurnsExact | internal/scheduler/round_robin.go:41-48 | n times the turns of a node, plus the way still to go to it, counts the rounds |
| Aging.AgingIsExact | internal/scheduler/priority.go:31-63 | p comes before q at every tick while both wait if and only if p has waited long enough to make up for q's priority: by a whole interval more, or exactly if p arrived first |
| Aging.AgedIsNotOvertaken | internal/scheduler/priority.go:31-63 | Such a p that asks for no more than q is not left waiting by a pass that places q |
| Aging.TickDoesNotOvertake | internal/cluster/lifecycle.go:241-251 | The same over a whole tick |
| Overtaking.NeverOvertakenIsExact | internal/scheduler/priority.go:31-63 | Under aging: at no tick and in no valid state is p overtaken by q if and only if p has waited long enough to make up for q's priority and asks for no more |
| OvertakingRuns.NeverOvertakenInAnyRun | internal/scheduler/priority.go:31-63 | The same over runs: let p and q wait in a reachable state under aging with nothing scheduled; no run that goes on from it comes to a tick in which q overtakes p if and only if p has waited long enough and asks for no more |
| Starvation.LargeJobStarves | internal/cluster/lifecycle.go:247-250 | Aging does not prevent starvation: for every k there is a run from a new controller under Priority-Aware in which a job that fits the empty node, and ranks first, is passed over in each of k ticks by a small job submitted after it, while its effective priority grows with k |
| Starvation.OnlyFitTick | internal/cluster/lifecycle.go:228-306 | A tick in which one waiting job fits starts that job, works on it and on those that ran, and moves nobody else |
| Patience.SmallJobIsServed | internal/scheduler/priority.go:31-63 | What aging does give: with priorities bounded and a node with room that stays ONLINE, a process that asks for no more than any other, and is neither killed nor failed, is placed once more ticks have succeeded after its deadline than there was work ahead of it, whatever is submitted |
| Patience.WaitIsPaidFor | internal/scheduler/priority.go:31-63 | In such a run the ticks that leave it waiting and the work still ahead of it never exceed the work that was ahead of it at first |
| Patience.TickWanes | internal/cluster/lifecycle.go:228-306 | After its deadline a tick that leaves it waiting does some of the work ahead of it, and adds none |
| Ordering.ArrangeIsUnique | internal/cluster/lifecycle.go:228-243 | A sorted enumeration under a total order is unique, so the order in which a map was ranged over does not matter |
| Ordering.Sort | internal/cluster/lifecycle.go:289 | Sorting distinct keys gives that enumeration |
| LiveSchedulers.RoundRobin.SelectNode | internal/scheduler/round_robin.go:24-50 | The scan from the cursor chooses the first fitting node cyclically and moves the cursor past it; on an error the cursor stays |
| LiveSchedulers.LeastLoaded.SelectNode | internal/scheduler/least_loaded.go:20-37 | The loop returns the fitting node that is least by (score, name), for candidates in any order, or none exactly if none fits; no fitting node is less loaded |
| LiveSchedulers.PriorityAware.SelectNode | internal/scheduler/priority.go:27-29 | Delegates to Least Loaded, so no fitting node is less loaded than the chosen one |
| LiveSchedulers.PriorityAware.OrderReady | internal/scheduler/priority.go:31-55 | Sorts the queue in place into the one order by effective priority, arrival and name |
| LiveSchedulers.OrderQueue | internal/cluster/lifecycle.go:235-243 | Arrival order, then the policy's own order if it has one, is the order of the policy |
| LiveSchedulers.MakeScheduler | internal/scheduler/scheduler.go:25-36 | Known names give a fresh scheduler, others none |
| Loading.LoadExact | internal/cluster/scenario.go:23-55 | A scenario loads into a valid state with a future calendar, or is refused without effect |
| Loading.LoadForgets | internal/cluster/scenario.go:29-36 | What a scenario loads into depends on the configured limits only |
| LoadResults.LoadResult | internal/cluster/scenario.go:23-117 | A load in full: its error, and else nodes and processes as defined, the calendar tick by tick in the order of the scenario, the named scheduler, fresh statistics, and the log of nodes and processes in the order of names |
| ScenarioRuns.PrepareAcceptsExactly | internal/cluster/scenario.go:57-117 | A scenario is accepted exactly when it validates, its scheduler is known and it is within the limits; the checks repeated while it is prepared never fail |
| Validation.ValidatesExactly | internal/domain/scenario.go:34-109 | A scenario is valid if and only if its header is complete, nodes and processes are well-formed with distinct names, no submission is after the last tick, and failures are distinct, within the ticks, of a known target and not before its submission |
| Verdicts.ValidationVerdict | internal/domain/scenario.go:34-109 | A refused scenario gets the error of its first fault, header first, then nodes, processes and failures in their order: malformed, duplicate, or a failure of a node or process that is not defined |
| ScenarioRuns.EveryDefinitionEntersOnce | internal/cluster/scenario.go:83-102 | Over any number of ticks every definition enters exactly once, at the later of its tick and 0; live and pending processes together stay as many as there are definitions; scheduled actions lie ahead |
| ScenarioRuns.RunsEndByLimit | internal/engine/engine.go:131-151 | Every scenario run without an error completes at a tick by its limit, so the `Finish` after the loop is never reached |
| ScenarioRuns.PlannedScenarioCompletes | internal/engine/engine.go:131-151 | A valid scenario with a known scheduler and within the limits, run without heartbeats and with only node failures, on distinct nodes, never errors and completes by its limit |
| ScenarioRuns.SameScenarioSameResult | internal/engine/engine.go:131-151 | Under the same configuration a scenario gives the same outcome, log included, whatever the controller did before |
| ScenarioLoops.ValidateScenario | internal/domain/scenario.go:34-109 | The loops with early returns compute the specified verdict (see Left out for names with a colon) |
| ScenarioLoops.PrepareScenario | internal/cluster/scenario.go:57-117 | The loops that fill the node, process, pending and failure maps compute the specified result |
| ScenarioEngine.RunToEnd | internal/engine/engine.go:131-151 | Validation, load, ticks and the final `Finish` change the controller object as `RunScenario` specifies |
| ReportBounds.ReportIsConsistent | internal/metrics/report.go:40-120 | In every reachable state: submitted = started + never started = the sum of the seven state counts; utilization averages lie in [0, 1]; the averaged load standard deviation is at most 1/2; longest waits are ordered and at most the current tick |
| ReportBounds.VarianceAtMostQuarter | internal/cluster/lifecycle.go:359-371 | The variance of values between 0 and 1 is at most 1/4 |
| ReportResults.VarianceIs | internal/cluster/lifecycle.go:359-371 | Number times variance is the sum of the squares less number times the squared mean |
| ReportResults.SampleResult | internal/cluster/lifecycle.go:339-373 | What one sample adds: one to the number of samples, allocation over capacity for each resource, and the spread of the loads of the nodes, if there are any |
| ReportResults.AveragesAre | internal/metrics/report.go:60-140 | In the report of a reachable state each average times the number of those it is over is their total, and 0 if there are none, and each maximum is the largest wait: waiting over all processes and over those that ever started, turnaround over those that are finished |
| ReportResults.WaitingIs | internal/metrics/report.go:122-140 | In every reachable state a READY process has waited what it collected and since it became ready, one that never started since its submission and until its end if it has one, and any other what it collected |
| ReportResults.ReportTellsLog | internal/metrics/report.go:44-96 | In every reachable state the counters of a report can be read off the log: the processes in each of the seven states, restarts, deferrals, node failures and reschedulings |
| Reports.Build | internal/metrics/report.go:40-120 | Every field of the report, as counts, sums, maxima and ratios over the state; the summed load deviation is given (see Left out) |
| Reports.SummariseProcesses | internal/metrics/report.go:61-97 | The loop over the processes, in any order, counts states, starts, restarts, waits and turnarounds |
| Reports.ObservedWaitingTicks | internal/metrics/report.go:122-140 | The observed waiting of one process |
| Sampling.CurrentUtilization | internal/metrics/report.go:142-159 | Utilization of both resources from totals accumulated in any order |
| Sampling.Sample | internal/cluster/lifecycle.go:339-373 | The statistics after a sample, from totals and loads accumulated in any order, the load variance standing for its square root (see Left out) |
| Sampling.VarianceOf | internal/cluster/lifecycle.go:360-370 | Two passes over the slice of loads give the variance of the table, whatever order it was listed in |
| Checks.ValidateInvariants | internal/cluster/invariants.go:15-54 | The nested loops accept exactly the states in which lists, counters and records of placement agree |
| CheckResults.CheckIsExact | internal/cluster/invariants.go:15-54 | The runtime check accepts exactly the tables that agree: every node lists the processes whose records place them there, each once, and has given away what they ask for, within its capacity; and a process has a place, one there is, exactly if it runs |
| Checks.CheckNode | internal/cluster/invariants.go:17-43 | One node's list has no repetition, names RUNNING processes of this node, and matches its counters |
| Checks.AllProcessesDone | internal/cluster/lifecycle.go:375-385 | Nothing pending and every process terminal |
| Checks.ProgressBlockReason | internal/cluster/lifecycle.go:387-416 | The loop over processes and nodes, in any order, gives the reason that TickResults.BlockedExactly describes |
| Collecting.NodeSnapshots | internal/cluster/lifecycle.go:330-337 | One snapshot per node, whatever order the table was ranged over |
| Collecting.ReadyProcesses | internal/cluster/lifecycle.go:229-234 | Exactly the READY processes |
| Collecting.RefreshTracks | internal/cluster/lifecycle.go:273-278 | Replacing one cached snapshot after a placement keeps the cache equal to a fresh look at the nodes |
| Collecting.StableSort | internal/cluster/scenario.go:121 | The result is stably sorted by name: ascending, the same definitions as often, and equal names in their old order |
| StableSorting.SortedExactly | internal/cluster/scenario.go:119-129 | A sequence is the order in which due submissions are taken if and only if it is ascending by name, holds the same definitions as often, and keeps the order among equal names |
| StableSorting.SortIsStable | internal/cluster/scenario.go:121 | The order in which due submissions are taken has these three properties |
| StableSorting.StableOrderIsUnique | internal/cluster/scenario.go:121 | No two different sequences have them |
| Objects.LiveNode.Allocate | internal/domain/node.go:94-105 | Counters and list grow together, or the node is unchanged and an error is returned |
| Objects.LiveNode.Release | internal/domain/node.go:107-122 | Counters and list shrink together, the first occurrence being cut out, or the node is unchanged and an error is returned |
| Objects.LiveProcess.Transition | internal/domain/process.go:124-134 | The state changes exactly as the table allows |
| Objects.LiveCluster.Clone | internal/domain/cluster.go:36-47 | A deep copy: the same values, and every object in it new |
| Controllers.NewLiveController | internal/cluster/controller.go:43-71 | A valid empty controller, or the specified error |
| Controllers.Controller.constructor | internal/cluster/controller.go:61-70 | An empty cluster with the given limits |
| Controllers.Controller.EmitLocked | internal/cluster/controller.go:201-212 | One event, numbered and stamped with the tick |
| Controllers.Controller.Snapshot | internal/cluster/controller.go:73-77 | A copy that shares no object with the controller |
| Controllers.Controller.GetProcess | internal/cluster/lifecycle.go:43-51 | A copy of the record, or not found |
| Controllers.Controller.RegisterNode | internal/cluster/controller.go:85-101 | The live object ends in exactly the specified state, invariant included, so it accepts exactly what `Commands.RegisterNodeExact` says, adds one ONLINE node in an object of its own, and touches no other |
| Controllers.Controller.RemoveNode | internal/cluster/controller.go:124-137 | The live object ends in exactly the specified state, invariant included, so exactly a node without processes goes, and a refused call leaves every object as it was |
| Controllers.Controller.SetScheduler | internal/cluster/controller.go:139-150 | The live object ends in exactly the specified state, invariant included, so a known name installs a fresh scheduler object with its cursor at 0, and an unknown one changes nothing |
| Controllers.Controller.Start | internal/cluster/controller.go:158-167 | The live object ends in exactly the specified state, invariant included, so a simulation that is not RUNNING becomes RUNNING and loses its finish reason, a completed one too |
| Controllers.Controller.PauseSimulation | internal/cluster/controller.go:169-177 | The live object ends in exactly the specified state, invariant included, so only a RUNNING simulation is paused |
| Controllers.Controller.Reset | internal/cluster/controller.go:179-188 | A new empty cluster under the same scheduler object, cursor included |
| Controllers.Controller.Finish | internal/cluster/controller.go:190-199 | The live object ends in exactly the specified state, invariant included, so the simulation ends once, and a second finish does not overwrite the reason |
| Controllers.Controller.SubmitProcess | internal/cluster/lifecycle.go:14-18 | The live object ends in exactly the specified state, invariant included, so it accepts exactly what `Commands.SubmitExact` says, for any record count and tick |
| Controllers.Controller.SubmitProcessLocked | internal/cluster/lifecycle.go:20-41 | A new READY record in an object of its own; a completed simulation is idle again |
| Controllers.Controller.PauseProcess | internal/cluster/lifecycle.go:64-82 | The live object ends in exactly the specified state, invariant included, so by `CommandResults.PauseResult` exactly a RUNNING process gives its node back and is PAUSED |
| Controllers.Controller.ResumeProcess | internal/cluster/lifecycle.go:84-100 | The live object ends in exactly the specified state, invariant included, so by `CommandResults.ResumeResult` exactly a PAUSED process is READY again, its ready time set to now |
| Controllers.Controller.WaitProcess | internal/cluster/lifecycle.go:102-120 | The live object ends in exactly the specified state, invariant included, so by `CommandResults.WaitResult` exactly a RUNNING process gives its node back and is WAITING |
| Controllers.Controller.WakeProcess | internal/cluster/lifecycle.go:122-138 | The live object ends in exactly the specified state, invariant included, so by `CommandResults.WakeResult` exactly a WAITING process is READY again, its ready time set to now |
| Controllers.Controller.KillProcess | internal/cluster/lifecycle.go:140-162 | The live object ends in exactly the specified state, invariant included, so by `Invariants.KillExact` exactly a process that is not terminal ends KILLED, releasing its node if it ran |
| Controllers.Controller.ReleaseLocked | internal/cluster/lifecycle.go:308-320 | Node, record and log after a release, or unchanged with an error |
| Controllers.Controller.FailProcess | internal/cluster/recovery.go:82-93 | The live object ends in exactly the specified state, invariant included, so by `Failures.FailProcessExact` a process that is not terminal restarts or ends FAILED and its node is released |
| Controllers.Controller.FailProcessLocked | internal/cluster/recovery.go:117-150 | The whole effect of a process failure on node, record and log |
| Controllers.Controller.FailNode | internal/cluster/recovery.go:37-48 | The live object ends in exactly the specified state, invariant included, so by `Failures.FailNodeExact` the node ends empty and each process it listed has failed once |
| Controllers.Controller.FailNodeLocked | internal/cluster/recovery.go:95-115 | The whole effect of a node failure; every listed process is found |
| Controllers.Controller.ChangeNodeStatus | internal/cluster/recovery.go:10-35 | The live object ends in exactly the specified state, invariant included, so the status changes exactly when `Commands.ChangeNodeStatusExact` allows it, by way of the failure path for FAILED |
| Controllers.Controller.RecoverNode | internal/cluster/recovery.go:50-66 | The live object ends in exactly the specified state, invariant included, so exactly a FAILED or OFFLINE node comes back ONLINE, with a fresh heartbeat |
| Controllers.Controller.Heartbeat | internal/cluster/recovery.go:68-80 | The live object ends in exactly the specified state, invariant included, so exactly an ONLINE or DRAINING node is marked as heard from now |
| Controllers.Controller.DetectMissedHeartbeatsLocked | internal/cluster/recovery.go:152-168 | The collected stale nodes, those TickResults.DetectionResult describes, fail in the order of names, whatever order they were collected in |
| Controllers.Controller.ApplyScheduledLocked | internal/cluster/scenario.go:119-156 | Due submissions in stable order of names, then due failures, then both off the calendar; or the state reached at the first error |
| Controllers.Controller.ScheduleReadyLocked | internal/cluster/lifecycle.go:228-280 | The pass over cached snapshots places and defers exactly as a pass over the live nodes would |
| Controllers.Controller.ScheduleOneLocked | internal/cluster/lifecycle.go:245-280 | One turn of the loop; the cache still equals the live nodes after it |
| Controllers.Controller.SampleUtilizationLocked | internal/cluster/lifecycle.go:339-373 | The statistics after a sample, the load variance standing for its square root, and nothing else |
| Controllers.Controller.ExecuteRunningLocked | internal/cluster/lifecycle.go:282-306 | The RUNNING processes work in the order of names, whatever order they were collected in |
| Controllers.Controller.StopIfDoneLocked | internal/cluster/lifecycle.go:195-201 | Completion for the first reason that holds, as TickResults.StopExactly describes it, or no change |
| Controllers.Controller.ValidateInvariantsLocked | internal/cluster/invariants.go:15-54 | The verdict of the runtime check on the live objects |
| Controllers.Controller.AttemptLocked | internal/cluster/lifecycle.go:182-205 | The work of a tick before any rollback; the log only grows |
| Controllers.Controller.AttemptBesideLocked | internal/cluster/lifecycle.go:170-181 | A tick's work cannot reach a deep copy taken before it |
| Controllers.Controller.Restore | internal/cluster/lifecycle.go:175-181 | The rollback gives back everything saved, and leaves the scheduler as it is |
| Controllers.Controller.Step | internal/cluster/lifecycle.go:164-207 | The whole tick, rollback included, is the one specified for every order of ranging over maps; the invariant holds again |
| Controllers.Controller.Steps | internal/cluster/lifecycle.go:209-226 | The live object ends in exactly the specified state, invariant included, so by `Atomicity.BatchesCompose` splitting a batch makes no difference |
| Controllers.Controller.ValidateScenario | internal/cluster/scenario.go:18-21 | The verdict on a scenario, without effect |
| Controllers.Controller.LoadScenario | internal/cluster/scenario.go:23-55 | The live object ends in exactly the specified state, invariant included, so by `Loading.LoadExact` a scenario is installed whole or refused without effect |
| EngineProtocol.RunKeepsInv | internal/engine/engine.go:13-21 | The protocol's invariant holds after every interleaving of callers, loops and cancellations |
| EngineProtocol.OneLiveLoop | internal/engine/engine.go:33-80 | In every interleaving at most one loop has not given up its handle, and only the loop the handle names can ever step the controller |
| EngineProtocol.LoopClearsItsOwn | internal/engine/engine.go:58-66 | The comparison before clearing always succeeds: a loop clears its own handle |
| EngineProtocol.NoStepAfterStop | internal/engine/engine.go:95-105 | After `stopRealtime` has returned, no loop can step the controller while its caller goes on, and no other caller acts |
| EngineProtocol.StoppedForGood | internal/engine/engine.go:95-105 | No loop that existed when `stopRealtime` returned steps the controller in any later state, whatever happens |
| EngineProtocol.ClearedForGood | internal/engine/engine.go:55-80 | A loop that has given up its handle never gets it back, in any continuation |
| EngineOperations.OperationBegins | internal/engine/engine.go:33-139 | With control in hand `Start` goes for the handle, loading or running a scenario validates it, and every other operation begins to stop the loop |
| EngineOperations.OperationActs | internal/engine/engine.go:82-151 | Once the loop is stopped an operation makes one call after the other into the controller and leaves after the last, or after one that failed |
| EngineOperations.ValidationComesFirst | internal/engine/engine.go:114-137 | In every interleaving a caller that is stopping the loop for a scenario, or acting on it, has had that scenario accepted in this very call |
| EngineOperations.RefusedCallIsHarmless | internal/engine/engine.go:114-137 | In every interleaving a call whose scenario is refused changes no loop and neither handle with any step it makes, from the call until its next one |
| EngineOperations.LoopEndsExactly | internal/engine/engine.go:67-79 | In every interleaving a loop goes on stepping the controller until, and only until, it takes its cancellation, a tick of its fails or the simulation is over, and then never steps it again |
| EngineOperations.SecondStartIsRefused | internal/engine/engine.go:39-43 | Starting a loop where there is one is refused and leaves it alone |
| EngineOperations.CallsToController | internal/engine/engine.go:82-151 | How often each operation calls into the controller once the loop is stopped |
| EngineProtocol.MuIsBrief | internal/engine/engine.go:39-48 | Whoever holds `mu` can go on at once and gives it back with its next step |
| EngineProtocol.ControlIsHelped | internal/engine/engine.go:82-105 | No deadlock: while an operation is in control, some enabled step brings it closer to its end |
| EngineProtocol.NobodyHinders | internal/engine/engine.go:82-105 | No step of anyone takes an operation in control further from its end |
| EngineProtocol.ControlIsReleased | internal/engine/engine.go:82-105 | No deadlock, with no assumption on the scheduler: from every state some continuation brings the operation in control to its end |
| EngineLiveness.ControlComesBack | internal/engine/engine.go:82-105 | In every infinite interleaving that is weakly fair to each thread, every operation in control returns and gives `controlMu` back |
| EngineLiveness.WaitingEnds | internal/engine/engine.go:95-105 | So no caller in an operation blocks forever on `mu` or on `done` |
| EngineLiveness.FreeMu | internal/engine/engine.go:39-48 | Under weak fairness `mu` becomes free again and again |
| EngineLiveness.EveryCallReturns | internal/engine/engine.go:33-139 | If the mutexes are fair too, every call returns, those queued for `controlMu` included |
| EngineLiveness.CancelledLoopEnds | internal/engine/engine.go:55-80 | If the mutexes are fair too, every loop whose context is cancelled, by an operation or by its parent, gets `mu`, clears its handle and closes `done` |
| EngineLiveness.OthersLeaveTheWait | internal/engine/engine.go:82-105 | A step of any thread but the one an operation waits for brings the operation closer to its end or leaves the wait, and that thread, as they are |
| EngineLiveness.FairRunsExist | internal/engine/engine.go:33-105 | There are such interleavings: in one a caller starts a loop, the loop steps the controller, and the caller closes the engine and waits for the cancelled loop to end |

## Left out

- The HTTP server, `clusterctl`, configuration, logging, container files: input, output and wrappers.
- JSON and CSV encoding, scenario files and `internal/store`: library calls and plain copies.
- Floating point: load scores and utilization are reals, so nothing is claimed about rounding; `LoadBalanceStdDevSum` adds floats in map order and need not be bit-for-bit reproducible.
- Machine-integer overflow: counters, ticks and requests are mathematical integers.
- String handling: trimming is not modelled, names are only ever compared with the empty one, and the `Seed`, a scenario's name, the display name of a scheduler, `LastError` and `TickDurationMS` drive nothing and are absent.
- Event severity and message: an event is its number, tick, kind, process and node.
- Copies that changing commands return besides the error (the record submitted, the node registered) and the listings `Nodes`, `Processes` and `Events`: `Controllers.Controller.GetProcess` and `Controllers.Controller.Snapshot` show how such copies are made and that they share no object.
- Locking inside the controller: each public method is one atomic step.
- Time and contexts in the engine: a tick of the ticker and the cancellation of the parent context are events that can come at any moment.
- EngineLiveness.ControlComesBack: waiting for a loop to notice its cancellation assumes that a select between two ready channels does not take the tick forever; each cancellation comes with an arbitrary finite bound on that. A call into the controller is taken to return.
- Reports.Build: the sum of load standard deviations is a parameter. `Sampling.Sample` and `Controllers.Controller.SampleUtilizationLocked` record each variance instead of its square root, which no program over the reals can compute; `ReportBounds.ReportIsConsistent` takes the sum over the roots.
- Sampling.Sample: see `Reports.Build`.
- Controllers.Controller.SampleUtilizationLocked: see `Reports.Build`.
- ScenarioLoops.ValidateScenario: duplicate failures are told apart by kind, node, process and tick, while the code joins them with colons into one key (`internal/domain/scenario.go:80`), so for names that contain a colon it can take two different failures for duplicates.
- Library sorts: `sort.Slice` and `sort.SliceStable` are modelled by insertion sorts; `Ordering.ArrangeIsUnique` and `StableSorting.SortedExactly` prove that any correct sort, or stable sort, gives the same result.
- Aliasing in a scheduling pass: the ready queue holds records as they were when the pass began, and each turn looks its process up again by name; the code holds references.
- When a scenario is installed: the code allocates node and process objects while it prepares the scenario, the model prepares records and allocates the objects when it installs them.
- Nil dereferences: where the code would dereference a missing map entry the model takes a defined branch, and the exactness theorems show that no valid state reaches it.
