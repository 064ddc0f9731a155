# Job lifecycle of a distributed training cluster

This project models the cluster manager (job queue, node and job tables, scheduler, offline monitor,
remote-call handlers), the node agents with their launcher, the node allocator, the checkpointed
training loop and the autoscaler, and proves what they keep over every run.

## How the model is laid out

The objects that the implementation updates in place are classes here, with the same fields and the
same order of updates: `NodeRegistry`, `JobQueue`, `ClusterManagerServicer`, `Scheduler`, `JobLauncher`,
`NodeAgent`, `DDPTrainer`, `Autoscaler`. Each method is proved equal to a function on the whole state
(`ManagerModel`, `Agents`, `Training`, `Autoscaling`), and the theorems are about runs of these functions.

The job lifecycle is modelled twice.

* `Interleaving` lets every thread run between any two accesses to shared state: a failure handler reads a
  row, later writes it (by then possibly outdated), later still appends to the queue; the scheduler pops,
  puts back or dispatches; a restart may come anywhere and forgets every thread.
* `ManagerModel` has one step per uninterrupted handler, scheduler half-iteration and monitor tick, with
  nodes, command queues, gauges, a clock and a history. `ManagerRuns.Simulate` proves that each of its
  steps is a sequence of fine steps that never acts on an outdated row, so every result about the fine
  model carries over.

`ClusterModel` adds the agents, the command streams and the reports under way. Timestamps and scores are
reals; listings from the database come in any order; clock readings and listings are inputs.

| file | content |
|---|---|
| ClusterTypes, StableSorting, TopSelection | rows, entries, commands; the stable sort; prefixes and multisets |
| MemoryText, Allocation | RAM text, its parser, scoring, allocation |
| Registry, JobQueue, ManagerModel, ClusterManager | tables, queue and its order, manager steps, the classes that perform them |
| Interleaving, QueueOrder, ManagerRuns, ManagerTheorems, FirstDispatch, HeadOfLine | lifecycle under interleaving, dispatch order, simulation, theorems over runs |
| Requests, NodeLiveness, JobOutcomes | what is filed and kept of a request, what is known of a node, what becomes of a job, column by column |
| Agent, ClusterModel, ClusterTheorems, LaunchAccounts, SingleAttempt, StrandedJobs | agents, whole-system runs, conservation, single attempts, refused launches |
| Trainer, Autoscaler, Gauges | checkpoint and resume; scaling decisions; what the gauges count |

## Where the code does less than one would expect

Each of these is proved, with the condition under which the expected behaviour does hold.

* Two failure handlers that read the same row before either writes requeue the job twice for one counted
  retry, so the dispatch bound fails (`StaleRowsOverspend`); it holds over all runs in which no retry acts on
  an outdated row (`DispatchBound`), and between restarts copies and counted retries balance exactly over
  those runs (`ExactThroughoutIff`).
* The monitor looks for nodes that nobody has marked offline yet, but every listing of nodes marks them,
  with a timeout of 15 seconds that ignores the configured one. After a listing a tick takes a job back exactly
  when a node of it is past the configured timeout but not past the 15 seconds (`ListingHidesCrash`), so never
  with a configured timeout of 15 seconds or more; a job hidden like this stays RUNNING for good
  (`ListingLosesJob`, `OrphanedForever`). In general a tick recovers a job exactly when one of its nodes is past
  the configured timeout and unmarked (`TickRecoversIff`).
* An agent sets its status to TRAINING on a launch, to OFFLINE when its stream breaks, and never back. A finished
  job makes the node IDLE at the manager, but the next heartbeat undoes that and the node is never reserved
  again (`HeartbeatRetires`; `HeartbeatRetiresIff` and `CallsItselfIdleIff` are the exact conditions). Since a
  restart of the manager breaks every stream, it takes even unused nodes out of service (`BrokenStreamRetires`).
* A heartbeat that an agent sends before its launch reaches it undoes the reservation (`HeartbeatUnreserves`), so
  the node can be booked twice. The agent refuses the second launch, and that job stays RUNNING with nobody working
  on it until the node itself falls silent (`DoubleBooking` reaches this state, `RefusalStrandsIff`,
  `StrandedUntilDetected`).
* The queue gauge is not raised for recovered and retried jobs, so a backlog of those never causes a scale-out
  (`QueueScaleOutIff` gives the exact threshold). The running gauge is never lowered for a failed attempt
  (`RunningGauge`).
* The allocator answers a request for zero nodes with the empty list, which the scheduler takes for "not
  enough nodes": such a job at the front blocks all others (`ZeroNodesBlockForever`; `DispatchedIff` is the
  exact condition for a dispatch).
* Single-node jobs do not always have one attempt at a time: a report from a node the monitor has given up on
  may be acted on (`LateReportUnfenced`). They do over a run exactly when every such report concerns a job that is
  not pending and has nothing under way elsewhere (`SingleThroughoutIff`).
* COMPLETED and FAILED are not final: the row of a finished job without waiting copies is kept over a run exactly
  when every later report says what it says already (`FinalKeptIff`). For single-node jobs refusing reports from
  nodes given up on is enough (`FinalStaysFinal`). For jobs on several nodes every failure report within the
  budget requeues (`EveryFailureReportRequeues`).
* After a restart the manager has no command queue for a node until the node listens again; a launch for it is
  dropped while the job is marked RUNNING (`GangLaunch`).
* The checkpoint interval is counted from the construction of the trainer, so the first epoch meets the bound on
  the age of the last save exactly when the loop starts within one interval of it (`CheckpointGaps`).
* Resuming a checkpoint from beyond the requested number of epochs files the final state under the wrong epoch
  (`FinalLabelIff`).
* A scale-in whose callback raises does not start the cooldown (`ScaleInAgainIff`).

## Model

| member | source | states |
|---|---|---|
| Interleaving.EveryInterleaving | dmlf/manager/queue.py:15-61 | over every interleaving of handlers, scheduler, monitor and restarts: each pending job has a copy queued, in hand or about to be appended; retry counters stay within the budget even when rows are outdated; the queue stays ordered by priority, then by creation time, absent keys read as 0 (behind the front when no job is in hand); the dictionaries of submissions are dispatched in the order in which they entered the queue |
| Interleaving.FineInvStep | dmlf/manager/cluster_manager.py:105-137 | each single access by any thread keeps the invariant behind that |
| Interleaving.CopiesMove | dmlf/manager/queue.py:22-61 | copies of a job are created by submissions and retries only and consumed by dispatches only, whoever moves them in between |
| Interleaving.RestartExactlyOnce | dmlf/manager/queue.py:15-20 | after a restart at any point of any run each pending job is queued exactly once and no other job is |
| QueueOrder.NoOvertaking | dmlf/manager/queue.py:22-61 | under every interleaving within a manager lifetime an entry that waits in front of another, and does not rank below it by priority and age, is dispatched before it |
| QueueOrder.OlderFirst | dmlf/manager/queue.py:18-61 | of two entries in the ordered queue, recovered, retried or new, the one of higher priority or the older one of equal priority is dispatched first |
| QueueOrder.RecoveredInOrder | dmlf/manager/queue.py:15-20 | after a restart, while nothing new is queued, pending jobs are dispatched exactly by priority and age |
| Interleaving.DispatchBound | dmlf/manager/cluster_manager.py:107-134 | dispatches plus copies in play are at most 1 + retries, at most 1 + max_retries, over every interleaving with restarts in which no retry acts on an outdated row |
| Interleaving.AccountsExact | dmlf/manager/queue.py:22-61 | without a restart since the submission that bound is an equality |
| Interleaving.ExactThroughoutIff | dmlf/manager/queue.py:49-61 | between restarts a job's account stays balanced over a run if and only if no retry of that job acts on an outdated row |
| Interleaving.RetryCountedIffCurrent | dmlf/manager/queue.py:49-61 | a retry is matched by the counter if and only if the row it acts on is current |
| Interleaving.StaleRowsOverspend | dmlf/manager/cluster_manager.py:108-121 | two handlers that read before either writes break the bound: two copies for one counted retry |
| ManagerRuns.Simulate | dmlf/manager/cluster_manager.py:105-195 | each uninterrupted handler, scheduler step, tick or restart is a sequence of fine steps that never acts on an outdated row |
| ManagerRuns.InvStep | dmlf/manager/cluster_manager.py:43-248 | each uninterrupted step keeps the invariant: fine invariant, dispatch accounts, gauge equation, issued commands covered by dispatches |
| ManagerTheorems.JobAccounts | dmlf/manager/cluster_manager.py:107-134 | over every run of uninterrupted steps and restarts: dispatches plus waiting copies at most 1 + retries, at most 1 + max_retries; pending jobs are waiting; unknown jobs have neither |
| ManagerTheorems.DispatchingTerminates | dmlf/manager/queue.py:49-56 | the total number of dispatches of a run is at most the sum of 1 + max_retries over the accepted jobs |
| ManagerTheorems.SubmissionsFifo | dmlf/manager/queue.py:27-47 | the dictionaries that submissions put into the queue in one manager lifetime are dispatched in that order, through failed selections, requeues and retries |
| FirstDispatch.FirstDispatchFifo | dmlf/manager/schedulers/base.py:45-55 | the jobs submitted in one manager lifetime are dispatched for the first time, from whatever copy, in submission order and without a gap |
| FirstDispatch.FifoInvStep | dmlf/manager/queue.py:22-61 | every step keeps what this rests on: the copy from the submission stands before all other copies of its job, and still waits exactly as long as the job has not been dispatched |
| TopSelection.SelectSorted | dmlf/manager/queue.py:30 | re-sorting the queue sorts any selection of its entries among themselves |
| ManagerTheorems.QueueScaleOutWarranted | dmlf/manager/cluster_manager.py:188-226 | queue gauge + jobs recovered at start + retries = queue length + job in hand; a gauge above a threshold means a backlog above it |
| Gauges.QueueScaleOutIff | dmlf/autoscaler/policy.py:76-102 | in every run the queue causes a scale-out if and only if the backlog exceeds the threshold plus the recovered jobs and the retries of this lifetime |
| Gauges.RunningGauge | dmlf/manager/cluster_manager.py:120-138 | between restarts the running gauge moves by dispatches minus completion reports, so failed attempts are never taken off it |
| ManagerTheorems.RetriesNeverDecrease | dmlf/manager/node_registry.py:182-212 | with uninterrupted handlers retry counters never decrease and a job that is FAILED has spent its budget |
| ManagerTheorems.TickOutcome | dmlf/manager/cluster_manager.py:309-343 | a monitor tick sends each running job with a detected node back with one more retry and one new copy, or fails it when its budget is spent; every other job is untouched; no job left running has a detected node |
| ManagerTheorems.TickRecoversIff | dmlf/manager/cluster_manager.py:310-341 | a tick takes a running job back if and only if one of its nodes has a last heartbeat older than the configured timeout and is neither DISCONNECTED nor in MAINTENANCE |
| ManagerTheorems.ListingMarks | dmlf/manager/node_registry.py:132-148 | a listing and a tick make a node DISCONNECTED if and only if it is so already or more than 15 seconds silent and not in maintenance, and change no other column |
| ManagerTheorems.ListingHidesCrash | dmlf/manager/node_registry.py:132-157 | after another caller's listing a tick takes a running job back if and only if one of its nodes is past the configured timeout but not past the 15 seconds |
| ManagerTheorems.ListingLosesJob | dmlf/manager/cluster_manager.py:309-344 | one listing after all nodes of a running job have been silent for 15 seconds leaves it RUNNING through all later ticks and restarts without news |
| ManagerTheorems.OrphanedForever | dmlf/manager/cluster_manager.py:309-344 | once all nodes of a running job are marked, no ticks and no restarts recover it without news about the job or from a node of it |
| ManagerTheorems.IdleOnlyByRelease | dmlf/manager/node_registry.py:117-163 | nothing but a final report, an IDLE heartbeat or a registration makes a node idle |
| ManagerTheorems.IdleIffReleased | dmlf/manager/cluster_manager.py:105-137 | a step makes a node idle if and only if it is a registration of it or one of the other releases naming a known node |
| ManagerTheorems.NodeReuse | dmlf/manager/schedulers/base.py:48-55 | between two reservations of a node there is a release of that node |
| ManagerTheorems.GangLaunch | dmlf/manager/cluster_manager.py:205-248 | a dispatch takes exactly the requested number of distinct nodes, appends exactly one launch to the queue of each that has one, with its rank and the address of rank 0, to no other queue, and records the nodes in rank order |
| ManagerTheorems.QueueStays | dmlf/manager/cluster_manager.py:82-90 | a node that registered or listened keeps its command queue until the manager restarts, so none of its launches is dropped before |
| ManagerTheorems.ChosenAreFresh | dmlf/manager/allocator.py:36-43 | every node of a dispatch was idle and heard from within 15 seconds, and rank 0 has the top score among all such nodes |
| HeadOfLine.ZeroNodesBlockForever | dmlf/manager/schedulers/base.py:45-55 | once a first submission for zero nodes is at the front, nothing is dispatched until the manager restarts |
| HeadOfLine.DispatchedIff | dmlf/manager/allocator.py:36-43 | the job in hand is dispatched if and only if enough idle nodes are listed and the slice is not empty |
| JobOutcomes.ReportedRow | dmlf/manager/cluster_manager.py:105-137 | a report changes the row of its own job only: success completes it whatever its status and retries, failure counts a retry or gives it up, other text does nothing |
| JobOutcomes.ReportedQueue | dmlf/manager/cluster_manager.py:107-121 | a failure within the budget queues one copy with the columns of the row and the new retry count; nothing else touches the queue |
| JobOutcomes.ReportedNode | dmlf/manager/cluster_manager.py:120-138 | the reporting node becomes idle unless the text is unknown or a failure names an unknown job; gauges and commands as stated |
| JobOutcomes.RowAfter | dmlf/manager/cluster_manager.py:105-341 | the whole life of a row: only success reports, setbacks (failure reports and ticks that find a node overdue) and dispatches change it, and exactly how |
| JobOutcomes.BecomesCompletedIff | dmlf/manager/cluster_manager.py:135-137 | in the whole system a job becomes COMPLETED in a step if and only if that step acts on a success report for it |
| JobOutcomes.CompletedWasRun | dmlf/agent/launcher.py:41-63 | over every run a job that has become COMPLETED was launched on some node, its process started there and ended with exit code 0, and its report was acted on |
| JobOutcomes.ExitReported | dmlf/agent/launcher.py:53-63 | an exit sends one report, "completed" exactly for exit code 0 |
| JobOutcomes.FailingNeverCompletes | dmlf/agent/launcher.py:53-63 | a job none of whose processes exits with code 0 is never COMPLETED |
| Requests.SubmissionFiled | dmlf/manager/cluster_manager.py:161-195 | an accepted submission files node count, retry budget and script as asked, pending, without retries, created now, and queues one entry with them |
| Requests.RequestHonoured | dmlf/manager/cluster_manager.py:176-248 | at any later time the row still says so, the job has been dispatched at most 1 + max_retries times with at most required_nodes × (1 + max_retries) launches, and every waiting launch carries the requested node count and script |
| Requests.RequestDispatched | dmlf/manager/cluster_manager.py:205-248 | each dispatch takes exactly the requested number of different nodes and gives each one launch with rank, node count, rank 0's registered address and script |
| NodeLiveness.RegistrationFiled | dmlf/manager/cluster_manager.py:43-58 | a registration files the columns given, idle and just heard from, with an empty command queue |
| NodeLiveness.HeartbeatFiled | dmlf/manager/node_registry.py:117-123 | a heartbeat sets status and time of a known node and nothing else |
| NodeLiveness.HeartbeatLasts | dmlf/manager/node_registry.py:132-139 | whatever else happens, until the node is heard from again a listing finds it gone exactly after more than 15 seconds and a tick after more than the configured timeout |
| NodeLiveness.RegularStaysConnected | dmlf/manager/node_registry.py:117-148 | a node never silent for more than 15 seconds is never marked, nor given up by a tick with at least that timeout |
| NodeLiveness.DispatchReserves | dmlf/manager/schedulers/base.py:48-55 | a dispatch makes exactly the chosen nodes RESERVED, after the marking of the listing |
| NodeLiveness.RestartForgets | dmlf/manager/cluster_manager.py:251-262 | a restart keeps both tables and forgets commands, gauges and the job in hand |
| NodeLiveness.ListeningOpens | dmlf/manager/cluster_manager.py:82-90 | opening the stream creates a queue when there is none and keeps what waits otherwise |
| NodeLiveness.ListenerIsReached | dmlf/manager/cluster_manager.py:197-203 | from then on, until a restart, every dispatch on the node puts one launch of the job behind what waits for it |
| ClusterTheorems.CommandConservation | dmlf/manager/cluster_manager.py:82-103 | every launch issued is queued, dropped with its queue, lost, refused, running or ended; each ended process is reported at most once; no agent has two live processes; per node and job the launches are at most 1 + retries |
| ClusterTheorems.WorldInvStep | dmlf/agent/agent.py:87-124 | each step of manager, agents and network keeps this |
| ClusterTheorems.LedgerStep | dmlf/manager/cluster_manager.py:197-248 | commands issued minus dropped minus queued changes only when an agent's stream takes one, and then by one |
| LaunchAccounts.LaunchBound | dmlf/manager/cluster_manager.py:230-248 | over a whole run the launches for a job, over all nodes, are at most required_nodes × (1 + max_retries) |
| LaunchAccounts.CallsItselfIdleIff | dmlf/agent/agent.py:87-124 | over any run an agent calls itself idle if and only if it did at the start and neither a launch has reached it nor its stream has broken since |
| LaunchAccounts.IdleSinceJoining | dmlf/agent/agent.py:16-35 | an agent that joins is idle exactly until a launch reaches it or its stream breaks |
| LaunchAccounts.NeverIdleAfterLaunch | dmlf/agent/agent.py:97-115 | from its first launch on, refused or not, an agent never calls itself idle again |
| LaunchAccounts.RetiredForever | dmlf/manager/node_registry.py:117-148 | a node with nothing under way whose agent and row are not idle is never reserved again |
| LaunchAccounts.HeartbeatRetiresIff | dmlf/manager/node_registry.py:117-123 | a heartbeat with nothing under way on the node takes it out of service if and only if its agent does not call itself idle |
| LaunchAccounts.HeartbeatRetires | dmlf/agent/agent.py:62-83 | and then for good, in any continuation of the run |
| LaunchAccounts.BrokenStreamRetires | dmlf/agent/agent.py:122-137 | a broken stream followed by a heartbeat retires a node that has nothing under way, though it may never have run anything |
| SingleAttempt.SingleNodeJobs | dmlf/manager/cluster_manager.py:105-144 | over runs without a harmful report, a single-node job is pending iff exactly one copy waits, and has at most one command, process or report on at most one live node, none unless it is running |
| SingleAttempt.SingleThroughoutIff | dmlf/manager/cluster_manager.py:107-137 | over every run single-node jobs have at most one attempt throughout if and only if every report acted on comes from a node not given up on, or concerns a job that is not pending and has nothing under way on a live node |
| SingleAttempt.ReportHarmlessIff | dmlf/manager/cluster_manager.py:107-137 | the same condition for a single report |
| SingleAttempt.FinalKeptIff | dmlf/manager/cluster_manager.py:107-137 | for jobs on any number of nodes: the row of a completed or failed job without waiting copies never changes over a run if and only if every report acted on is a success of a completed job or a failure of one given up with its budget spent |
| SingleAttempt.FinalStaysFinal | dmlf/manager/cluster_manager.py:133-137 | with reports from given-up nodes refused, the row of a completed or failed single-node job never changes again |
| SingleAttempt.LateReportUnfenced | dmlf/manager/cluster_manager.py:323-339 | the failing input: a success report under way while the monitor gives up on its node leaves a COMPLETED job with a copy in the queue |
| SingleAttempt.EveryFailureReportRequeues | dmlf/manager/cluster_manager.py:107-134 | a failure report adds a copy if and only if the retry budget is not spent, whatever the status of the job, and then reopens it |
| StrandedJobs.HeartbeatUnreserves | dmlf/manager/node_registry.py:117-123 | a heartbeat undoes a reservation if and only if the agent still calls itself idle |
| StrandedJobs.DoubleBooking | dmlf/manager/schedulers/base.py:48-55 | the failing input: heartbeat of a reserved node, second dispatch on it, both launches delivered; the second is refused and its single-node job stranded |
| StrandedJobs.ListedAgain | dmlf/manager/node_registry.py:141-148 | after such a heartbeat the node is in every listing of idle nodes, and a job for as many nodes as are listed reserves it |
| StrandedJobs.RefusalStrandsIff | dmlf/agent/launcher.py:12-15 | a launch that reaches its agent leaves its single-node job RUNNING with nothing queued, running or being reported if and only if the agent is busy |
| StrandedJobs.StrandedUntilDetected | dmlf/manager/cluster_manager.py:309-341 | such a job keeps exactly that row through any fenced run until a monitor tick finds its node silent |
| ClusterManager.ClusterManagerServicer.constructor | dmlf/manager/cluster_manager.py:251-262 | start-up is the model's restart on the surviving tables |
| ClusterManager.ClusterManagerServicer.RegisterNode | dmlf/manager/cluster_manager.py:43-66 | upserts the node row as idle and gives it an empty command queue, as the model step |
| ClusterManager.ClusterManagerServicer.SendHeartbeat | dmlf/manager/cluster_manager.py:68-80 | overwrites status and time of a known node, nothing else |
| ClusterManager.ClusterManagerServicer.ListenForCommands | dmlf/manager/cluster_manager.py:82-90 | creates a command queue only when there is none |
| ClusterManager.ClusterManagerServicer.NextCommand | dmlf/manager/cluster_manager.py:93-99 | hands out the oldest command of the node, or none |
| ClusterManager.ClusterManagerServicer.ReportJobStatus | dmlf/manager/cluster_manager.py:105-144 | the whole manager state changes as the report step says, for failure within and beyond the budget, completion, unknown job and unknown text |
| ClusterManager.ClusterManagerServicer.SubmitJob | dmlf/manager/cluster_manager.py:161-195 | row, queue and gauge change together, or nothing changes when the identifier is taken |
| ClusterManager.ClusterManagerServicer.SendCommand | dmlf/manager/cluster_manager.py:197-203 | appends to the queue of the node, or drops the command when there is none |
| ClusterManager.ClusterManagerServicer.DispatchAllocatedJob | dmlf/manager/cluster_manager.py:205-248 | row, gauges and all command queues change as the dispatch step says |
| ClusterManager.ClusterManagerServicer.FailOverJob | dmlf/manager/cluster_manager.py:326-341 | one affected running job is sent back or given up, any other left alone |
| ClusterManager.ClusterManagerServicer.MonitorTick | dmlf/manager/cluster_manager.py:309-343 | the loop over the running jobs performs the tick of the model |
| ClusterManager.Scheduler.ReserveAll | dmlf/manager/schedulers/base.py:53-54 | reserving node after node reserves exactly the chosen nodes |
| ClusterManager.Scheduler.PlaceJob | dmlf/manager/schedulers/builtin.py:14-16 | selection over the fresh idle listing, then requeue in front or reserve and dispatch |
| ClusterManager.Scheduler.Iterate | dmlf/manager/schedulers/base.py:40-55 | one loop iteration is a pop followed by the placement step, or nothing on an empty queue |
| Registry.NodeRegistry.RegisterNode | dmlf/manager/node_registry.py:98-115 | inserts or replaces the row, idle and just heard from |
| Registry.NodeRegistry.UpdateHeartbeat | dmlf/manager/node_registry.py:117-130 | time and status of a known node; no effect for an unknown one |
| Registry.NodeRegistry.MarkOfflineNodes | dmlf/manager/node_registry.py:132-139 | exactly the nodes silent for more than 15 seconds and not disconnected or in maintenance become disconnected |
| Registry.NodeRegistry.GetAvailableNodes | dmlf/manager/node_registry.py:141-148 | after marking, lists each idle node once and no other |
| Registry.NodeRegistry.UpdateNodeState | dmlf/manager/node_registry.py:159-163 | the status of one known node |
| Registry.NodeRegistry.InsertJob | dmlf/manager/node_registry.py:166-180 | defaults for absent keys; fails without effect on a taken identifier |
| Registry.NodeRegistry.UpdateJobStatus | dmlf/manager/node_registry.py:182-206 | status, and assigned nodes when given, of one known job |
| Registry.NodeRegistry.UpdateJobRetries | dmlf/manager/node_registry.py:208-212 | status and retry counter of one known job |
| Registry.NodeRegistry.GetJobs | dmlf/manager/node_registry.py:222-231 | each job of the status exactly once and no other |
| Queueing.JobQueue.constructor | dmlf/manager/queue.py:7-20 | the queue is the sorted listing of the pending rows |
| Queueing.JobQueue.SubmitJob | dmlf/manager/queue.py:22-30 | row first, then append and stable re-sort; nothing queued when the insert fails |
| Queueing.JobQueue.PopTopJob | dmlf/manager/queue.py:38-42 | takes the front entry and leaves the rest in order |
| Queueing.JobQueue.RequeueJob | dmlf/manager/queue.py:44-47 | puts the entry in front without sorting, undoing the pop |
| Queueing.JobQueue.RetryJob | dmlf/manager/queue.py:49-61 | counter and status in the table, then append and stable re-sort of the updated dictionary |
| Queueing.ArrangedIff | dmlf/manager/queue.py:18-61 | the sort by key is the one arrangement by higher priority, then earlier creation, then order of arrival, absent keys read as 0 |
| Queueing.RecoveredOnce | dmlf/manager/queue.py:15-20 | the recovered queue holds each pending job once and no other job |
| Queueing.FreshEnqueue | dmlf/manager/queue.py:27-30 | re-sorting keeps first submissions in order and puts a new one behind all of them |
| StableSorting.SortSorted | dmlf/manager/queue.py:18 | the sort yields descending key order |
| StableSorting.SortElements | dmlf/manager/queue.py:30 | ... of the same multiset |
| StableSorting.SortStable | dmlf/manager/queue.py:61 | ... with ties in input order |
| StableSorting.SortUnique | dmlf/manager/allocator.py:42 | and any result with these properties is that of the model, so the model's way of sorting is immaterial |
| Allocation.AllocateSize | dmlf/manager/allocator.py:36-43 | exactly the requested number of available nodes or none; a negative request drops that many from the end |
| Allocation.AllocateDistinct | dmlf/manager/allocator.py:36-43 | distinct nodes from a listing without repetition |
| Allocation.AllocateOptimal | dmlf/manager/allocator.py:41-43 | no other choice of as many nodes has a higher total score |
| Allocation.AllocateTies | dmlf/manager/allocator.py:42-43 | among equal scores the earliest listed are taken in listing order |
| Allocation.AllocateLeader | dmlf/manager/allocator.py:41-43 | descending scores, the first one the top score of all |
| Allocation.GpuNodesFirst | dmlf/manager/allocator.py:19-34 | when the GPU bonus exceeds every other node's score, min(k, GPU nodes) GPU nodes are taken |
| Allocation.BaseScoreNonNegative | dmlf/manager/allocator.py:25-30 | nonnegative weights and CPU counts give nonnegative CPU and RAM scores, which GpuNodesFirst asks for |
| Allocation.ScoreOfProcessors | dmlf/manager/allocator.py:25-26 | each further CPU adds the CPU weight to the score |
| Allocation.ScoreOfMemory | dmlf/manager/allocator.py:28-30 | a different memory text of an agent changes the score by the difference in printed gigabytes times the RAM weight |
| Allocation.ScoreOfGraphics | dmlf/manager/allocator.py:20-23 | any model other than none adds 1000 times the GPU weight |
| Allocation.ScoreOfNothing | dmlf/manager/allocator.py:19-34 | a node with none of the three scores 0 |
| Allocation.ScoreExactly | dmlf/manager/allocator.py:19-34 | so the exact score of an agent's node |
| Allocation.BetterIsTaken | dmlf/manager/allocator.py:41-43 | a node that scores more than an allocated one is allocated too |
| Allocation.MoreIsTaken | dmlf/manager/allocator.py:19-43 | hence one that has more CPUs, more memory or a GPU, else alike, is |
| MemoryText.OnlyGreedyMatches | dmlf/manager/allocator.py:13 | the regular expression can match in one way only at a position, so backtracking is immaterial |
| MemoryText.ReadAtMeaning | dmlf/manager/allocator.py:13 | the greedy reader succeeds iff the expression matches there, with the same value |
| MemoryText.ParsesLeftmostMatch | dmlf/manager/allocator.py:10-17 | parsing yields the value of the leftmost match |
| MemoryText.ParsesNothing | dmlf/manager/allocator.py:12-14 | and 0 without a match |
| MemoryText.WholeAmount | dmlf/manager/allocator.py:10-17 | a whole number, any blanks and GB or MB in any case read as they say |
| MemoryText.NotSeparated | dmlf/manager/allocator.py:13-14 | with any other character between number and unit the text is worth 0 |
| MemoryText.TenthsNearest | dmlf/agent/hardware.py:24-27 | the printed tenths are the nearest, the even one of two equally near |
| MemoryText.RoundTrip | dmlf/agent/hardware.py:24-27 | reading back the printed RAM text gives exactly the printed tenths of a gigabyte |
| MemoryText.RoundTripError | dmlf/agent/hardware.py:24-27 | within 51.2 MB of the true size, for every byte count |
| MemoryText.RamScoreError | dmlf/manager/allocator.py:28-30 | so the RAM score is off by at most 0.05 × the magnitude of its weight |
| Agents.OneProcessKept | dmlf/agent/launcher.py:12-15 | receiving a launch or ending a process keeps at most one live process |
| Agents.JobLauncher.LaunchTorchrun | dmlf/agent/launcher.py:12-74 | refuses while the current process is alive, otherwise starts one and makes it current |
| Agents.JobLauncher.StopCurrentJob | dmlf/agent/launcher.py:76-83 | ends and forgets the current process if it is alive |
| Agents.NodeAgent.HandleLaunch | dmlf/agent/agent.py:97-115 | the status becomes TRAINING whether or not the launcher accepts |
| Agents.NodeAgent.Disconnected | dmlf/agent/agent.py:122-124 | a broken stream makes the status OFFLINE and keeps the process |
| Training.DDPTrainer.LoadCheckpoint | dmlf/training/trainer.py:44-57 | state and next epoch from the file at any path; nothing changes without it |
| Training.DDPTrainer.SaveCheckpoint | dmlf/training/trainer.py:59-72 | rank 0 only: files the state under its label and restarts the interval |
| Training.DDPTrainer.TrainEpoch | dmlf/training/trainer.py:84-110 | the batch loop applies the batches in order and logs every tenth step |
| Training.DDPTrainer.Train | dmlf/training/trainer.py:74-129 | state, files, save time and log after the loop, and the failure on an empty loader |
| Training.SessionFold | dmlf/training/trainer.py:74-126 | one session over truthful files ends in the state of the uninterrupted run |
| Training.CrashResume | dmlf/training/trainer.py:44-126 | over any sequence of crashes and resumptions every file labelled e holds epochs 0..e, and a finished session equals the uninterrupted run |
| Training.VisitedInOrder | dmlf/training/trainer.py:75-97 | the run that all this compares with applies every batch of every epoch once, in order |
| Training.OthersWriteNothing | dmlf/training/trainer.py:59-62 | processes other than rank 0 go through the same states and write no file |
| Training.FiledIff | dmlf/training/trainer.py:121-123 | an epoch is filed, under its own number with the state after it, exactly when the interval has passed by its end |
| Training.FinalLabelTrue | dmlf/training/trainer.py:125-126 | the final file is labelled truthfully when the session did not resume beyond its epochs |
| Training.FinalLabelIff | dmlf/training/trainer.py:125-126 | and for a step that counts batches only then |
| Training.CheckpointGaps | dmlf/training/trainer.py:41-126 | over a whole session each save, the final one included, comes less than the interval plus its epoch's duration after the one before (the construction first), if and only if the loop began within one interval of the construction |
| Training.CheckpointAge | dmlf/training/trainer.py:121-126 | under that condition the same holds at any moment within any epoch |
| Training.LoopSaves | dmlf/training/trainer.py:59-72 | the time the loop remembers is that of the last of these saves |
| Training.LogSplit | dmlf/training/trainer.py:84-107 | steps logged before and after a resumption are those of the uninterrupted run |
| Training.LogIncreasing | dmlf/training/trainer.py:84-107 | logged step numbers strictly increase within and across epochs |
| Training.LoggedIff | dmlf/training/trainer.py:84-107 | exactly the steps e·len + b + 1 for every tenth batch b of each epoch e are logged |
| Autoscaling.Autoscaler.GaugeAvg | dmlf/autoscaler/policy.py:80-90 | the mean of the gauges that have a value, 0 without any |
| Autoscaling.Autoscaler.Evaluate | dmlf/autoscaler/policy.py:74-120 | the decision and the cooldown start, scale-out first |
| Autoscaling.Autoscaler.RunLoop | dmlf/autoscaler/policy.py:61-69 | the decisions of a whole run, exceptions swallowed |
| Autoscaling.AverageTimesNumber | dmlf/autoscaler/policy.py:80-90 | the average times the number of present values is their sum, and 0 without any |
| Autoscaling.EveryDecision | dmlf/autoscaler/policy.py:97-120 | over every run, without the internal state: out exactly when the queue or the idle nodes' readings are above their limits; in exactly when they are not, the low limits hold, and the cooldown has passed since every scale-in that took effect |
| Autoscaling.ScaleInSpacing | dmlf/autoscaler/policy.py:105-120 | n scale-ins span more than (n - 1) cooldowns, however anything else interleaves |
| Autoscaling.ScaleInAgainIff | dmlf/autoscaler/policy.py:117-120 | after a scale-in the next one on the same readings waits for the cooldown unless the callback raised |

## Left out

- gRPC transport, streams, threads and locks: atomic steps, one command queue per node, and the reads and writes of Interleaving.
- Authentication, node secrets, host names and metrics rows.
- SQLite, schema migrations and JSON text: maps, with assigned nodes as a sequence. Columns that are only passed through to the launch command (arguments, processes per node, backend, checkpoint interval) are folded into one script value; start, completion and exit-code columns are dropped.
- Training.DDPTrainer.Train: tensors, losses, throughput numbers and TensorBoard are left out; one batch is an uninterpreted deterministic function of epoch, batch and state, so random generator state that a checkpoint does not hold is assumed not to matter. Saving a file is atomic.
- Training.CrashResume: sessions resume from files of the checkpoint directory; what some other file holds is not known.
- Autoscaling.Autoscaler.Evaluate: gauge values are inputs; reading the gauges of the manager process is not modelled, the queue gauge apart.
- MemoryText.RoundTrip: division and the decimal format are exact here; floating point agrees for every byte count below 2^53. Letters, digits and blanks are those of ASCII.
- Allocation.AllocateOptimal: scores are reals, without rounding.
- Interleaving.FineInvStep: node rows and command queues are not interleaved finely, only the job table, the queue and the job in hand.
- FirstDispatch.FirstDispatchFifo: about jobs submitted since the last restart, by a machine whose clock is not negative; jobs recovered at start-up are ordered by priority and age instead. It is about uninterrupted handlers: a failure report could otherwise be handled between the two halves of the submission it belongs to.
- StrandedJobs.HeartbeatUnreserves: an agent composes a heartbeat and the manager processes it in one step, so a heartbeat composed before a launch arrives and processed after it is not modelled.
- LaunchAccounts.HeartbeatRetires: for the same reason, not about heartbeats still under way; STOP_JOB, which would make an agent idle again, is never sent.
- ClusterTheorems.CommandConservation: the model starts with no agents; an agent that joins gets an identifier not used before.
- Agents.JobLauncher.LaunchTorchrun: the process itself is only alive or ended; output streaming is left out.
- Agents.NodeAgent.HandleLaunch: STOP_JOB commands are left out because the manager never sends one, and so is the delay between reconnections.
- ClusterManager.ClusterManagerServicer.ReportJobStatus: log lines, retry counter metric and latency histogram are left out.
- ClusterManager.ClusterManagerServicer.MonitorTick: the node-count gauges set after the tick are left out.
- dmlf/manager/scheduler.py: an older copy of the scheduler loop.
- Command line, dashboard, health endpoint, settings, plugin loading and deployment files.
