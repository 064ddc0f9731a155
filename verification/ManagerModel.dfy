/** The manager's state and what each remote call, scheduler iteration and monitor tick does to
    it when it runs without interruption; and the runs made of such steps. */
module ManagerModel {
  import opened ClusterTypes
  import opened Registry
  import opened Queueing
  import opened Allocation

  /** Durable tables, in-memory queue and command queues, and the two job gauges. */
  datatype Manager = Manager(
    nodes: NodeTable,
    jobs: JobTable,
    queue: seq<Entry>,
    commands: CommandQueues,
    queued: int,
    running: int)

  // ---------- Remote calls ----------

  function Register(m: Manager, row: NodeRow, now: real): Manager {
    m.(nodes := m.nodes[row.id := row.(status := Idle, lastHeartbeat := now)], commands := m.commands[row.id := []])
  }

  function Listen(m: Manager, n: NodeId): Manager {
    if n in m.commands then m else m.(commands := m.commands[n := []])
  }

  function Submit(m: Manager, id: JobId, request: JobRequest, now: real): Manager {
    if id in m.jobs then m
    else m.(jobs := m.jobs[id := NewRow(FromRequest(id, request), now)],
            queue := Enqueue(m.queue, FromRequest(id, request)), queued := m.queued + 1)
  }

  /** `retry_job` on a dictionary just read from the table. */
  function Retry(m: Manager, row: JobRow): Manager {
    m.(jobs := SetJobRetries(m.jobs, row.id, Pending, row.retries + 1),
       queue := Enqueue(m.queue, Retried(FromRow(row))))
  }

  function Fail(m: Manager, j: JobId): Manager { m.(jobs := SetJobStatus(m.jobs, j, Failed, None)) }

  function Report(m: Manager, n: NodeId, j: JobId, outcome: Outcome): Manager {
    match outcome
    case Failure =>
      if j !in m.jobs then m
      else
        var m' := if m.jobs[j].retries < m.jobs[j].maxRetries then Retry(m, m.jobs[j]) else Fail(m, j);
        m'.(nodes := SetNodeState(m.nodes, n, Idle))
    case Success =>
      m.(jobs := SetJobStatus(m.jobs, j, Completed, None), nodes := SetNodeState(m.nodes, n, Idle),
         running := m.running - 1)
    case Unknown => m
  }

  // ---------- Scheduler ----------

  function Reserve(nodes: NodeTable, chosen: seq<NodeRow>): NodeTable {
    map n | n in nodes ::
      if exists i :: 0 <= i < |chosen| && chosen[i].id == n then nodes[n].(status := Reserved) else nodes[n]
  }

  function Launch(e: Entry, chosen: seq<NodeRow>, rank: nat): Command
    requires rank < |chosen|
  {
    Command(e.id, rank, e.requiredNodes, chosen[0].ip, e.script)
  }

  /** A command for a node without a queue is dropped. */
  function Send(commands: CommandQueues, n: NodeId, c: Command): CommandQueues {
    if n in commands then commands[n := commands[n] + [c]] else commands
  }

  function SendFrom(commands: CommandQueues, e: Entry, chosen: seq<NodeRow>, rank: nat): CommandQueues
    requires rank <= |chosen|
    decreases |chosen| - rank
  {
    if rank == |chosen| then commands
    else SendFrom(Send(commands, chosen[rank].id, Launch(e, chosen, rank)), e, chosen, rank + 1)
  }

  function NodeIds(chosen: seq<NodeRow>): (ids: seq<NodeId>)
    ensures |ids| == |chosen| && forall i :: 0 <= i < |chosen| ==> ids[i] == chosen[i].id
  {
    seq(|chosen|, i requires 0 <= i < |chosen| => chosen[i].id)
  }

  function Dispatch(m: Manager, e: Entry, chosen: seq<NodeRow>): Manager {
    m.(jobs := SetJobStatus(m.jobs, e.id, Running, Some(NodeIds(chosen))),
       commands := SendFrom(m.commands, e, chosen, 0), queued := m.queued - 1, running := m.running + 1)
  }

  function Refresh(m: Manager, now: real): Manager { m.(nodes := MarkOffline(m.nodes, now)) }

  /** What the scheduler does with the job it has popped, given the allocator's choice. */
  function PlaceOn(m: Manager, e: Entry, chosen: seq<NodeRow>, now: real): Manager {
    var m' := Refresh(m, now);
    if chosen == [] then m'.(queue := [e] + m'.queue)
    else Dispatch(m'.(nodes := Reserve(m'.nodes, chosen)), e, chosen)
  }

  // ---------- Monitor ----------

  ghost function Detected(nodes: NodeTable, cutoff: real): set<NodeId> {
    set n | n in nodes && Silent(nodes[n], cutoff)
  }

  predicate Affected(row: JobRow, offline: set<NodeId>) {
    exists i :: 0 <= i < |row.assignedNodes| && row.assignedNodes[i] in offline
  }

  function FailOver(m: Manager, row: JobRow, offline: set<NodeId>): Manager {
    if !Affected(row, offline) then m
    else if row.retries < row.maxRetries then Retry(m, row) else Fail(m, row.id)
  }

  function FailOverAll(m: Manager, rows: seq<JobRow>, offline: set<NodeId>): Manager
    decreases |rows|
  {
    if rows == [] then m else FailOverAll(FailOver(m, rows[0], offline), rows[1..], offline)
  }

  /** One monitor tick: `timeout` is the configured one, `rows` the listing of running jobs. */
  ghost function Monitor(m: Manager, rows: seq<JobRow>, timeout: real, now: real): Manager {
    Refresh(FailOverAll(m, rows, Detected(m.nodes, now - timeout)), now)
  }

  // ---------- Restart ----------

  /** The tables survive; the queue is rebuilt from the pending rows, all else starts empty. */
  function Restart(m: Manager, rows: seq<JobRow>): Manager {
    Manager(m.nodes, m.jobs, Recovered(rows), map[], 0, 0)
  }

  // ---------- Runs ----------

  /** What has happened so far, for stating properties of whole runs. */
  datatype History = History(
    dispatched: multiset<JobId>,  // dispatches, across restarts
    issued: multiset<Tag>,        // launch commands put into a node's queue
    dropped: multiset<Tag>,       // launch commands lost with their queue
    detected: set<NodeId>,        // nodes a monitor tick has found silent
    appended: seq<JobId>,         // since the last restart: first submissions, in queueing order
    firstOut: seq<JobId>,         //   first-submission dictionaries, in dispatch order
    firstRuns: seq<JobId>,        //   jobs submitted since, in the order of their first dispatch ever
    recovered: nat,               //   jobs loaded at start-up
    retried: nat)                 //   failures that sent a job back to the queue

  /** The manager, the job in the scheduler's hand, the clock and the history. */
  datatype System = System(m: Manager, hand: Option<Entry>, clock: real, h: History)

  datatype Step =
    | DoRegister(row: NodeRow)
    | DoListen(n: NodeId)
    | DoHeartbeat(n: NodeId, status: NodeStatus)
    | DoSubmit(id: JobId, request: JobRequest)
    | DoReport(n: NodeId, j: JobId, outcome: Outcome)
    | DoTake(n: NodeId)                                  // a command leaves its queue for the agent
    | DoPop
    | DoPlace(w: Weights, available: seq<NodeRow>)
    | DoRefresh                                          // another caller lists the nodes
    | DoMonitor(timeout: real, rows: seq<JobRow>)
    | DoRestart(rows: seq<JobRow>)
    | DoWait(seconds: real)

  ghost predicate Enabled(s: System, step: Step) {
    match step
    case DoTake(n) => n in s.m.commands && s.m.commands[n] != []
    case DoPop => s.hand.None? && s.m.queue != []
    case DoPlace(_, available) => s.hand.Some? && ListsNodes(available, MarkOffline(s.m.nodes, s.clock), Idle)
    case DoMonitor(_, rows) => ListsJobs(rows, s.m.jobs, Running)
    case DoRestart(rows) => ListsJobs(rows, s.m.jobs, Pending)
    case DoWait(seconds) => seconds >= 0.0
    case _ => true
  }

  function Tags(n: NodeId, q: seq<Command>): multiset<Tag> {
    if q == [] then multiset{} else multiset{Tag(n, q[0].job)} + Tags(n, q[1..])
  }

  /** Everything waiting in the command queues. */
  ghost function AllTags(commands: CommandQueues): multiset<Tag>
    decreases |commands.Keys|
  {
    if commands == map[] then multiset{}
    else
      var n :| n in commands;
      assert (commands - {n}).Keys == commands.Keys - {n};
      Tags(n, commands[n]) + AllTags(commands - {n})
  }

  /** The tags of the commands that do reach a queue. */
  function SentFrom(commands: CommandQueues, j: JobId, chosen: seq<NodeRow>, rank: nat): multiset<Tag>
    requires rank <= |chosen|
    decreases |chosen| - rank
  {
    if rank == |chosen| then multiset{}
    else (if chosen[rank].id in commands then multiset{Tag(chosen[rank].id, j)} else multiset{})
         + SentFrom(commands, j, chosen, rank + 1)
  }

  function RetriesIn(rows: seq<JobRow>, offline: set<NodeId>): nat {
    if rows == [] then 0
    else (if Affected(rows[0], offline) && rows[0].retries < rows[0].maxRetries then 1 else 0)
         + RetriesIn(rows[1..], offline)
  }

  function FreshTag(e: Entry): seq<JobId> { if IsFresh(e) then [e.id] else [] }

  /** The job, when it was submitted since the last restart and is dispatched for the first time. */
  ghost function FirstRun(h: History, j: JobId): seq<JobId> {
    if j in h.appended && h.dispatched[j] == 0 then [j] else []
  }

  ghost function PlaceStep(s: System, e: Entry, chosen: seq<NodeRow>): System {
    var s' := s.(m := PlaceOn(s.m, e, chosen, s.clock), hand := None);
    if chosen == [] then s'
    else s'.(h := s.h.(dispatched := s.h.dispatched + multiset{e.id},
                       issued := s.h.issued + SentFrom(s.m.commands, e.id, chosen, 0),
                       firstOut := s.h.firstOut + FreshTag(e),
                       firstRuns := s.h.firstRuns + FirstRun(s.h, e.id)))
  }

  /** A step that is not enabled changes nothing. */
  ghost function Next(s: System, step: Step): System {
    if !Enabled(s, step) then s
    else match step
      case DoRegister(row) =>
        s.(m := Register(s.m, row, s.clock),
           h := s.h.(dropped := s.h.dropped
               + (if row.id in s.m.commands then Tags(row.id, s.m.commands[row.id]) else multiset{})))
      case DoListen(n) => s.(m := Listen(s.m, n))
      case DoHeartbeat(n, status) => s.(m := s.m.(nodes := RecordHeartbeat(s.m.nodes, n, status, s.clock)))
      case DoSubmit(id, request) =>
        s.(m := Submit(s.m, id, request, s.clock),
           h := if id in s.m.jobs then s.h else s.h.(appended := s.h.appended + [id]))
      case DoReport(n, j, outcome) =>
        s.(m := Report(s.m, n, j, outcome),
           h := if outcome == Failure && j in s.m.jobs && s.m.jobs[j].retries < s.m.jobs[j].maxRetries
                then s.h.(retried := s.h.retried + 1) else s.h)
      case DoTake(n) => s.(m := s.m.(commands := s.m.commands[n := s.m.commands[n][1..]]))
      case DoPop => s.(m := s.m.(queue := s.m.queue[1..]), hand := Some(s.m.queue[0]))
      case DoPlace(w, available) => PlaceStep(s, s.hand.value, Allocate(w, available, s.hand.value.requiredNodes))
      case DoRefresh => s.(m := Refresh(s.m, s.clock))
      case DoMonitor(timeout, rows) =>
        var offline := Detected(s.m.nodes, s.clock - timeout);
        s.(m := Monitor(s.m, rows, timeout, s.clock),
           h := s.h.(detected := s.h.detected + offline, retried := s.h.retried + RetriesIn(rows, offline)))
      case DoRestart(rows) =>
        System(Restart(s.m, rows), None, s.clock,
               History(s.h.dispatched, s.h.issued, s.h.dropped + AllTags(s.m.commands), s.h.detected,
                       [], [], [], |rows|, 0))
      case DoWait(seconds) => s.(clock := s.clock + seconds)
  }

  ghost function Run(s: System, steps: seq<Step>): System
    decreases |steps|
  {
    if steps == [] then s else Run(Next(s, steps[0]), steps[1..])
  }

  /** The manager as it comes up on existing tables. */
  ghost function Start(nodes: NodeTable, jobs: JobTable, rows: seq<JobRow>, clock: real): System {
    System(Manager(nodes, jobs, Recovered(rows), map[], 0, 0), None, clock,
           History(multiset{}, multiset{}, multiset{}, {}, [], [], [], |rows|, 0))
  }
}
