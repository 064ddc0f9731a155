/** The durable node and job tables. Each SQL statement is a map update; a SELECT
    without ORDER BY may list its rows in any order. */
module Registry {
  import opened ClusterTypes

  /** The timeout built into the registry; the monitor has one of its own. */
  const OFFLINE_TIMEOUT := 15.0

  // ---------- The statements ----------

  /** Not heard from since `cutoff`, and not yet marked. */
  predicate Silent(row: NodeRow, cutoff: real) {
    row.lastHeartbeat < cutoff && row.status != Disconnected && row.status != Maintenance
  }

  function MarkOffline(nodes: NodeTable, now: real): NodeTable {
    map n | n in nodes ::
      if Silent(nodes[n], now - OFFLINE_TIMEOUT) then nodes[n].(status := Disconnected) else nodes[n]
  }

  function SetNodeState(nodes: NodeTable, n: NodeId, status: NodeStatus): NodeTable {
    if n in nodes then nodes[n := nodes[n].(status := status)] else nodes
  }

  function RecordHeartbeat(nodes: NodeTable, n: NodeId, status: NodeStatus, now: real): NodeTable {
    if n in nodes then nodes[n := nodes[n].(status := status, lastHeartbeat := now)] else nodes
  }

  function SetJobStatus(jobs: JobTable, j: JobId, status: JobStatus, assignedNodes: Option<seq<NodeId>>): JobTable {
    if j in jobs then
      jobs[j := jobs[j].(status := status, assignedNodes := assignedNodes.GetOr(jobs[j].assignedNodes))]
    else jobs
  }

  function SetJobRetries(jobs: JobTable, j: JobId, status: JobStatus, retries: int): JobTable {
    if j in jobs then jobs[j := jobs[j].(status := status, retries := retries)] else jobs
  }

  /** The row a new job dictionary becomes; absent keys take their defaults. */
  function NewRow(e: Entry, now: real): JobRow {
    JobRow(e.id, Pending, e.requiredNodes, [], e.priority.GetOr(0), now, e.retries.GetOr(0), e.maxRetries, e.script)
  }

  /** What a listing does to the table, column by column: a node more than 15 seconds silent is marked, unless
      it is marked already or in maintenance, and nothing else changes. */
  lemma MarkedExactly(nodes: NodeTable, now: real)
    ensures MarkOffline(nodes, now).Keys == nodes.Keys
    ensures forall n :: n in nodes ==>
              MarkOffline(nodes, now)[n] == nodes[n].(status :=
                if nodes[n].lastHeartbeat < now - 15.0 && nodes[n].status !in {Disconnected, Maintenance}
                then Disconnected else nodes[n].status)
  {
  }

  // ---------- The object ----------

  class NodeRegistry {
    var nodes: NodeTable
    var jobs: JobTable

    constructor (nodes: NodeTable, jobs: JobTable)
      ensures this.nodes == nodes && this.jobs == jobs
    {
      this.nodes, this.jobs := nodes, jobs;
    }

    method RegisterNode(n: NodeId, ip: string, cpuCount: int, gpuModel: string, ramTotal: string, now: real)
      modifies this`nodes
      ensures nodes == old(nodes)[n := NodeRow(n, ip, cpuCount, gpuModel, ramTotal, Idle, now)]
    {
      nodes := nodes[n := NodeRow(n, ip, cpuCount, gpuModel, ramTotal, Idle, now)];
    }

    method UpdateHeartbeat(n: NodeId, status: NodeStatus, now: real)
      modifies this`nodes
      ensures nodes == RecordHeartbeat(old(nodes), n, status, now)
    {
      if n in nodes {
        nodes := nodes[n := nodes[n].(status := status, lastHeartbeat := now)];
      }
    }

    method MarkOfflineNodes(now: real)
      modifies this`nodes
      ensures nodes == MarkOffline(old(nodes), now)
      ensures nodes.Keys == old(nodes).Keys
      ensures forall n :: n in nodes ==>
                nodes[n] == old(nodes)[n].(status :=
                  if old(nodes)[n].lastHeartbeat < now - 15.0 && old(nodes)[n].status !in {Disconnected, Maintenance}
                  then Disconnected else old(nodes)[n].status)
    {
      ghost var before := nodes;
      var rest := nodes.Keys;
      while rest != {}
        invariant nodes.Keys == before.Keys && rest <= before.Keys
        invariant forall n :: n in before ==>
          nodes[n] == if n in rest then before[n] else MarkOffline(before, now)[n]
        decreases |rest|
      {
        var n :| n in rest;
        if Silent(nodes[n], now - OFFLINE_TIMEOUT) {
          nodes := nodes[n := nodes[n].(status := Disconnected)];
        }
        rest := rest - {n};
      }
      assert nodes == MarkOffline(before, now);
    }

    /** Lists the idle nodes, after marking the silent ones offline. */
    method GetAvailableNodes(now: real) returns (rows: seq<NodeRow>)
      requires forall n :: n in nodes ==> nodes[n].id == n
      modifies this`nodes
      ensures nodes == MarkOffline(old(nodes), now)
      ensures ListsNodes(rows, nodes, Idle)
    {
      MarkOfflineNodes(now);
      rows := [];
      var rest := nodes.Keys;
      while rest != {}
        invariant rest <= nodes.Keys
        invariant forall i, k :: 0 <= i < k < |rows| ==> rows[i].id != rows[k].id
        invariant forall i :: 0 <= i < |rows| ==>
          rows[i].id in nodes && rows[i].id !in rest && nodes[rows[i].id] == rows[i] && rows[i].status == Idle
        invariant forall n :: n in nodes && n !in rest && nodes[n].status == Idle ==> nodes[n] in rows
        decreases |rest|
      {
        var n :| n in rest;
        if nodes[n].status == Idle {
          rows := rows + [nodes[n]];
        }
        rest := rest - {n};
      }
    }

    method UpdateNodeState(n: NodeId, status: NodeStatus)
      modifies this`nodes
      ensures nodes == SetNodeState(old(nodes), n, status)
    {
      if n in nodes {
        nodes := nodes[n := nodes[n].(status := status)];
      }
    }

    /** Fails, as the primary key demands, when the identifier is taken. */
    method InsertJob(e: Entry, now: real) returns (ok: bool)
      modifies this`jobs
      ensures ok <==> e.id !in old(jobs)
      ensures jobs == if ok then old(jobs)[e.id := NewRow(e, now)] else old(jobs)
    {
      ok := e.id !in jobs;
      if ok {
        jobs := jobs[e.id := NewRow(e, now)];
      }
    }

    method UpdateJobStatus(j: JobId, status: JobStatus, assignedNodes: Option<seq<NodeId>>)
      modifies this`jobs
      ensures jobs == SetJobStatus(old(jobs), j, status, assignedNodes)
    {
      if j in jobs {
        var row := jobs[j].(status := status);
        if assignedNodes.Some? {
          row := row.(assignedNodes := assignedNodes.value);
        }
        jobs := jobs[j := row];
      }
    }

    method UpdateJobRetries(j: JobId, status: JobStatus, retries: int)
      modifies this`jobs
      ensures jobs == SetJobRetries(old(jobs), j, status, retries)
    {
      if j in jobs {
        jobs := jobs[j := jobs[j].(status := status, retries := retries)];
      }
    }

    method GetJob(j: JobId) returns (row: Option<JobRow>)
      ensures row == if j in jobs then Some(jobs[j]) else None
    {
      row := if j in jobs then Some(jobs[j]) else None;
    }

    method GetJobs(status: JobStatus) returns (rows: seq<JobRow>)
      requires Keyed(jobs)
      ensures ListsJobs(rows, jobs, status)
    {
      rows := [];
      var rest := jobs.Keys;
      while rest != {}
        invariant rest <= jobs.Keys
        invariant forall i, k :: 0 <= i < k < |rows| ==> rows[i].id != rows[k].id
        invariant forall i :: 0 <= i < |rows| ==>
          rows[i].id in jobs && rows[i].id !in rest && jobs[rows[i].id] == rows[i] && rows[i].status == status
        invariant forall j :: j in jobs && j !in rest && jobs[j].status == status ==> jobs[j] in rows
        decreases |rest|
      {
        var j :| j in rest;
        if jobs[j].status == status {
          rows := rows + [jobs[j]];
        }
        rest := rest - {j};
      }
    }
  }
}
