/** The manager's objects: remote-call handlers, scheduler iteration and monitor tick, step by step,
    each proved to do to the whole state what the manager model says. The clock reading is a parameter. */
module ClusterManager {
  import opened ClusterTypes
  import opened Registry
  import opened Queueing
  import opened Allocation
  import opened ManagerModel

  class ClusterManagerServicer {
    const registry: NodeRegistry
    const jobQueue: JobQueue
    var commandQueues: CommandQueues
    var jobsQueued: int   // the two gauges
    var jobsRunning: int

    ghost predicate Valid()
      reads this, registry, jobQueue
    {
      && jobQueue.registry == registry
      && Keyed(registry.jobs)
      && forall n :: n in registry.nodes ==> registry.nodes[n].id == n
    }

    ghost function View(): Manager
      reads this, registry, jobQueue
    {
      Manager(registry.nodes, registry.jobs, jobQueue.queue, commandQueues, jobsQueued, jobsRunning)
    }

    /** Start-up: the tables survive from the previous lifetime. */
    constructor (registry: NodeRegistry)
      requires Keyed(registry.jobs) && forall n :: n in registry.nodes ==> registry.nodes[n].id == n
      ensures Valid() && this.registry == registry && fresh(jobQueue)
      ensures exists rows, m: Manager :: ListsJobs(rows, registry.jobs, Pending)
                             && m.nodes == registry.nodes && m.jobs == registry.jobs && View() == Restart(m, rows)
    {
      this.registry := registry;
      this.jobQueue := new JobQueue(registry);
      commandQueues, jobsQueued, jobsRunning := map[], 0, 0;
      new;
      ghost var rows :| ListsJobs(rows, registry.jobs, Pending) && jobQueue.queue == Recovered(rows);
      assert View() == Restart(View(), rows);
    }

    method RegisterNode(row: NodeRow, now: real)
      requires Valid()
      modifies this, registry
      ensures Valid() && View() == Register(old(View()), row, now)
    {
      registry.RegisterNode(row.id, row.ip, row.cpuCount, row.gpuModel, row.ramTotal, now);
      commandQueues := commandQueues[row.id := []];
    }

    method SendHeartbeat(n: NodeId, status: NodeStatus, now: real)
      requires Valid()
      modifies registry
      ensures Valid() && View() == old(View()).(nodes := RecordHeartbeat(old(registry.nodes), n, status, now))
    {
      registry.UpdateHeartbeat(n, status, now);
    }

    /** An agent opens its command stream. */
    method ListenForCommands(n: NodeId)
      requires Valid()
      modifies this
      ensures Valid() && View() == Listen(old(View()), n)
    {
      if n !in commandQueues {
        commandQueues := commandQueues[n := []];
      }
    }

    /** The stream takes the next command, if there is one. */
    method NextCommand(n: NodeId) returns (c: Option<Command>)
      requires Valid() && n in commandQueues
      modifies this
      ensures Valid()
      ensures old(commandQueues)[n] == [] ==> c == None && View() == old(View())
      ensures old(commandQueues)[n] != [] ==>
        && c == Some(old(commandQueues)[n][0])
        && View() == old(View()).(commands := old(commandQueues)[n := old(commandQueues)[n][1..]])
    {
      if commandQueues[n] == [] {
        return None;
      }
      c := Some(commandQueues[n][0]);
      commandQueues := commandQueues[n := commandQueues[n][1..]];
    }

    method ReportJobStatus(n: NodeId, j: JobId, outcome: Outcome)
      requires Valid()
      modifies this, registry, jobQueue
      ensures Valid() && View() == Report(old(View()), n, j, outcome)
      ensures outcome == Unknown || j !in old(registry.jobs) ==> registry.jobs == old(registry.jobs)
      ensures outcome != Unknown && j in old(registry.jobs) ==>
                var row := old(registry.jobs)[j];
                registry.jobs == old(registry.jobs)[j :=
                  if outcome == Success then row.(status := Completed)
                  else if row.retries < row.maxRetries then row.(status := Pending, retries := row.retries + 1)
                  else row.(status := Failed)]
    {
      match outcome
      case Failure =>
        var job := registry.GetJob(j);
        if job.Some? {
          if job.value.retries < job.value.maxRetries {
            registry.UpdateNodeState(n, Idle);
            jobQueue.RetryJob(FromRow(job.value));
          } else {
            registry.UpdateJobStatus(j, Failed, None);
            registry.UpdateNodeState(n, Idle);
          }
        }
      case Success =>
        registry.UpdateJobStatus(j, Completed, None);
        registry.UpdateNodeState(n, Idle);
        jobsRunning := jobsRunning - 1;
      case Unknown =>
    }

    method SubmitJob(id: JobId, request: JobRequest, now: real) returns (ok: bool)
      requires Valid()
      modifies this, registry, jobQueue
      ensures Valid() && View() == Submit(old(View()), id, request, now)
      ensures ok <==> id !in old(registry.jobs)
      ensures ok ==> registry.jobs == old(registry.jobs)[id :=
                JobRow(id, Pending, request.requiredNodes, [], 0, now, 0, request.maxRetries, request.script)]
    {
      ok := jobQueue.SubmitJob(FromRequest(id, request), now);
      if ok {
        jobsQueued := jobsQueued + 1;
      }
    }

    method SendCommand(n: NodeId, c: Command)
      modifies this`commandQueues
      ensures commandQueues == Send(old(commandQueues), n, c)
    {
      if n in commandQueues {
        commandQueues := commandQueues[n := commandQueues[n] + [c]];
      }
    }

    /** The scheduler's callback. */
    method DispatchAllocatedJob(e: Entry, chosen: seq<NodeRow>)
      requires Valid() && chosen != []
      modifies this, registry
      ensures Valid() && View() == Dispatch(old(View()), e, chosen)
    {
      registry.UpdateJobStatus(e.id, Running, Some(NodeIds(chosen)));
      jobsQueued := jobsQueued - 1;
      jobsRunning := jobsRunning + 1;
      for rank := 0 to |chosen|
        invariant SendFrom(commandQueues, e, chosen, rank) == SendFrom(old(commandQueues), e, chosen, 0)
        invariant Valid()
        invariant registry.jobs == SetJobStatus(old(registry.jobs), e.id, Running, Some(NodeIds(chosen)))
        invariant registry.nodes == old(registry.nodes)
        invariant jobsQueued == old(jobsQueued) - 1 && jobsRunning == old(jobsRunning) + 1
      {
        SendCommand(chosen[rank].id, Command(e.id, rank, e.requiredNodes, chosen[0].ip, e.script));
      }
    }

    /** What the monitor does about one running job. */
    method FailOverJob(row: JobRow, offline: set<NodeId>)
      requires Valid()
      modifies registry, jobQueue
      ensures Valid() && View() == FailOver(old(View()), row, offline)
    {
      if Affected(row, offline) {
        if row.retries < row.maxRetries {
          jobQueue.RetryJob(FromRow(row));
        } else {
          registry.UpdateJobStatus(row.id, Failed, None);
        }
      }
    }

    /** One tick of the monitor thread. */
    method MonitorTick(timeout: real, now: real)
      requires Valid()
      modifies this, registry, jobQueue
      ensures Valid()
      ensures Detected(old(registry.nodes), now - timeout) == {} ==> View() == Refresh(old(View()), now)
      ensures Detected(old(registry.nodes), now - timeout) != {} ==>
        exists rows :: ListsJobs(rows, old(registry.jobs), Running)
            && View() == Monitor(old(View()), rows, timeout, now)
    {
      var offline := set n | n in registry.nodes && Silent(registry.nodes[n], now - timeout);
      ghost var before := View();
      ghost var rows: seq<JobRow>;
      if offline != {} {
        var runningJobs := registry.GetJobs(Running);
        rows := runningJobs;
        for i := 0 to |runningJobs|
          invariant Valid()
          invariant FailOverAll(View(), runningJobs[i..], offline) == FailOverAll(before, runningJobs, offline)
        {
          assert runningJobs[i..][0] == runningJobs[i] && runningJobs[i..][1..] == runningJobs[i + 1..];
          FailOverJob(runningJobs[i], offline);
        }
        assert runningJobs[|runningJobs|..] == [];
        assert View() == FailOverAll(before, rows, offline);
      }
      registry.MarkOfflineNodes(now);
      if offline != {} {
        assert View() == Monitor(before, rows, timeout, now);
      }
    }
  }

  class Scheduler {
    const servicer: ClusterManagerServicer
    const weights: Weights

    constructor (servicer: ClusterManagerServicer, weights: Weights)
      ensures this.servicer == servicer && this.weights == weights
    {
      this.servicer, this.weights := servicer, weights;
    }

    /** The nodes are reserved one after the other. */
    method ReserveAll(nodes: seq<NodeRow>)
      requires servicer.Valid()
      modifies servicer.registry
      ensures servicer.Valid()
      ensures servicer.View() == old(servicer.View()).(nodes := Reserve(old(servicer.registry.nodes), nodes))
    {
      for i := 0 to |nodes|
        invariant servicer.View() == old(servicer.View()).(nodes := Reserve(old(servicer.registry.nodes), nodes[..i]))
        invariant servicer.Valid()
      {
        servicer.registry.UpdateNodeState(nodes[i].id, Reserved);
        ReserveOneMore(old(servicer.registry.nodes), nodes, i);
      }
      assert nodes[..|nodes|] == nodes;
    }

    /** What follows the pop: select the nodes, then put the job back or reserve and dispatch. */
    method PlaceJob(e: Entry, now: real) returns (ghost available: seq<NodeRow>)
      requires servicer.Valid()
      modifies servicer, servicer.registry, servicer.jobQueue
      ensures servicer.Valid()
      ensures ListsNodes(available, MarkOffline(old(servicer.registry.nodes), now), Idle)
      ensures servicer.View() == PlaceOn(old(servicer.View()), e, Allocate(weights, available, e.requiredNodes), now)
    {
      var listing := servicer.registry.GetAvailableNodes(now);
      available := listing;
      var nodes := Allocate(weights, listing, e.requiredNodes);
      if nodes == [] {
        servicer.jobQueue.RequeueJob(e);
      } else {
        ReserveAll(nodes);
        servicer.DispatchAllocatedJob(e, nodes);
      }
    }

    /** One iteration of the scheduler loop; an empty queue leaves everything as it is. */
    method Iterate(now: real)
      requires servicer.Valid()
      modifies servicer, servicer.registry, servicer.jobQueue
      ensures servicer.Valid()
      ensures old(servicer.jobQueue.queue) == [] ==> servicer.View() == old(servicer.View())
      ensures old(servicer.jobQueue.queue) != [] ==>
        var m := old(servicer.View());
        var e := m.queue[0];
        exists available :: ListsNodes(available, MarkOffline(m.nodes, now), Idle)
          && servicer.View()
             == PlaceOn(m.(queue := m.queue[1..]), e, Allocate(weights, available, e.requiredNodes), now)
    {
      var job := servicer.jobQueue.PopTopJob();
      if job == None {
        return;
      }
      ghost var popped := servicer.View();
      assert popped == old(servicer.View()).(queue := old(servicer.jobQueue.queue)[1..]);
      ghost var available := PlaceJob(job.value, now);
    }
  }

  lemma ReserveOneMore(nodes: NodeTable, chosen: seq<NodeRow>, i: nat)
    requires i < |chosen|
    ensures Reserve(nodes, chosen[..i + 1]) == SetNodeState(Reserve(nodes, chosen[..i]), chosen[i].id, Reserved)
  {
    var before, after := Reserve(nodes, chosen[..i]), Reserve(nodes, chosen[..i + 1]);
    assert chosen[..i + 1] == chosen[..i] + [chosen[i]];
    forall n | n in nodes ensures after[n] == SetNodeState(before, chosen[i].id, Reserved)[n] {
      if n == chosen[i].id { assert chosen[..i + 1][i].id == n; }
    }
  }
}
