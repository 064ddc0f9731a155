/** The rows, queue entries and commands that the manager, its database and its
    agents exchange. Table columns and request fields that no decision reads
    (host name, metrics, script arguments, back end, ...) are folded into `script`
    or left out. */
module ClusterTypes {
  type NodeId = string
  type JobId = string

  datatype Option<+T> = None | Some(value: T) {
    function GetOr(default: T): T {
      match this
      case Some(v) => v
      case None => default
    }
  }

  /** A heartbeat may write any text into the status column; `Other` holds the rest. */
  datatype NodeStatus = Idle | Reserved | Training | Disconnected | Maintenance | Other(text: string)

  datatype JobStatus = Pending | Running | Completed | Failed

  /** What a status report says, after lower-casing: "failed" or "error", "completed", or any other text. */
  datatype Outcome = Failure | Success | Unknown

  datatype NodeRow = NodeRow(id: NodeId, ip: string, cpuCount: int, gpuModel: string, ramTotal: string,
                             status: NodeStatus, lastHeartbeat: real)

  datatype JobRow = JobRow(id: JobId, status: JobStatus, requiredNodes: int, assignedNodes: seq<NodeId>,
                           priority: int, createdAt: real, retries: int, maxRetries: int, script: string)

  /** What a client asks for. Both numbers are signed on the wire. */
  datatype JobRequest = JobRequest(requiredNodes: int, maxRetries: int, script: string)

  /** A job dictionary in the in-memory queue. A dictionary built by the submit handler has
      no `priority`, `created_at` or `retries` key; one read back from the table has all three. */
  datatype Entry = Entry(id: JobId, requiredNodes: int, priority: Option<int>, createdAt: Option<real>,
                         retries: Option<int>, maxRetries: int, script: string)

  /** A LAUNCH_JOB command. */
  datatype Command = Command(job: JobId, rank: nat, nnodes: int, masterAddr: string, script: string)

  /** "Something about job `job` on node `node`", the unit of the command accounts. */
  datatype Tag = Tag(node: NodeId, job: JobId)

  type NodeTable = map<NodeId, NodeRow>
  type JobTable = map<JobId, JobRow>
  type CommandQueues = map<NodeId, seq<Command>>

  /** The number of retries a row permits: none when `max_retries` is negative. */
  function Budget(row: JobRow): nat {
    if row.maxRetries < 0 then 0 else row.maxRetries
  }

  /** The dictionary form of a row. */
  function FromRow(row: JobRow): Entry {
    Entry(row.id, row.requiredNodes, Some(row.priority), Some(row.createdAt), Some(row.retries),
          row.maxRetries, row.script)
  }

  /** The dictionary the submit handler builds. */
  function FromRequest(id: JobId, request: JobRequest): Entry {
    Entry(id, request.requiredNodes, None, None, None, request.maxRetries, request.script)
  }

  /** The entry still carries the immutable columns of its row. */
  predicate Agrees(e: Entry, row: JobRow) {
    && e.id == row.id && e.requiredNodes == row.requiredNodes
    && e.maxRetries == row.maxRetries && e.script == row.script
    && e.priority.GetOr(row.priority) == row.priority
    && e.createdAt.GetOr(row.createdAt) == row.createdAt
  }

  /** Rows are filed under their own primary key. */
  ghost predicate Keyed(jobs: JobTable) {
    forall j :: j in jobs ==> jobs[j].id == j
  }

  /** `rows` is some listing, in any order, of the jobs with the given status: each exactly once. */
  ghost predicate ListsJobs(rows: seq<JobRow>, jobs: JobTable, status: JobStatus) {
    && (forall i, k :: 0 <= i < k < |rows| ==> rows[i].id != rows[k].id)
    && (forall i :: 0 <= i < |rows| ==> rows[i].id in jobs && jobs[rows[i].id] == rows[i] && rows[i].status == status)
    && (forall j :: j in jobs && jobs[j].status == status ==> jobs[j] in rows)
  }

  /** `rows` is some listing, in any order, of the nodes with the given status: each exactly once. */
  ghost predicate ListsNodes(rows: seq<NodeRow>, nodes: NodeTable, status: NodeStatus) {
    && (forall i, k :: 0 <= i < k < |rows| ==> rows[i].id != rows[k].id)
    && (forall i :: 0 <= i < |rows| ==> rows[i].id in nodes && nodes[rows[i].id] == rows[i] && rows[i].status == status)
    && (forall n :: n in nodes && nodes[n].status == status ==> nodes[n] in rows)
  }

  /** `s` without its `i`-th element. */
  function Without<T>(s: seq<T>, i: nat): (r: seq<T>)
    requires i < |s|
    ensures |r| == |s| - 1
    ensures forall k :: 0 <= k < |r| ==> r[k] == if k < i then s[k] else s[k + 1]
    ensures multiset(r) == multiset(s) - multiset{s[i]}
  {
    assert s == s[..i] + [s[i]] + s[i + 1..];
    s[..i] + s[i + 1..]
  }
}
