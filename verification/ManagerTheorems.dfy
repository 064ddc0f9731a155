/** What holds over every run of the manager, whatever clients, agents and clock do. */
module ManagerTheorems {
  import opened ClusterTypes
  import opened Registry
  import opened Queueing
  import opened Allocation
  import opened Interleaving
  import opened ManagerModel
  import opened ManagerRuns

  // ---------- Job accounts ----------

  /** The number of copies of a job in the queue and in the scheduler's hand. */
  function Waiting(s: System, j: JobId): nat { Copies(s.m.queue, j) + Copies(HandSeq(s.hand), j) }

  /** Through any submissions, repeated failure reports, monitor ticks and restarts: what a job has
      been dispatched plus what is still waiting never exceeds one attempt plus its counted retries,
      which stay within its budget; and a pending job is always waiting. */
  lemma JobAccounts(nodes: NodeTable, jobs: JobTable, rows: seq<JobRow>, clock: real, steps: seq<Step>, j: JobId)
    requires GoodStart(nodes, jobs, rows)
    ensures var s := Run(Start(nodes, jobs, rows, clock), steps);
            && (j in s.m.jobs ==>
                  s.h.dispatched[j] + Waiting(s, j) <= 1 + s.m.jobs[j].retries <= 1 + Budget(s.m.jobs[j]))
            && (j in s.m.jobs && s.m.jobs[j].status == Pending ==> Waiting(s, j) >= 1)
            && (j !in s.m.jobs ==> s.h.dispatched[j] == 0 && Waiting(s, j) == 0)
  {
    StartInv(nodes, jobs, rows, clock);
    InvRun(Start(nodes, jobs, rows, clock), steps);
    AccountsOf(Run(Start(nodes, jobs, rows, clock), steps), j);
  }

  lemma AccountsOf(s: System, j: JobId)
    requires FineInv(Shadow(s)) && Paid(Shadow(s))
    ensures j in s.m.jobs ==> s.h.dispatched[j] + Waiting(s, j) <= 1 + s.m.jobs[j].retries <= 1 + Budget(s.m.jobs[j])
    ensures j in s.m.jobs && s.m.jobs[j].status == Pending ==> Waiting(s, j) >= 1
    ensures j !in s.m.jobs ==> s.h.dispatched[j] == 0 && Waiting(s, j) == 0
  {
    assert InPlay(Shadow(s), j) == Waiting(s, j);
    if j !in s.m.jobs {
      UnknownNotInPlay(Shadow(s), j);
      assert Known(Shadow(s).dispatched, s.m.jobs);
    }
  }

  /** The most that can ever be dispatched for the jobs in the table. */
  ghost function Ceiling(jobs: JobTable): nat
    decreases |jobs.Keys|
  {
    if jobs == map[] then 0
    else
      var j :| j in jobs;
      assert (jobs - {j}).Keys == jobs.Keys - {j};
      1 + Budget(jobs[j]) + Ceiling(jobs - {j})
  }

  lemma {:induction false} BelowCeiling(d: multiset<JobId>, jobs: JobTable)
    requires forall j :: d[j] <= if j in jobs then 1 + Budget(jobs[j]) else 0
    ensures |d| <= Ceiling(jobs)
    decreases |jobs.Keys|
  {
    if jobs == map[] {
      assert d == multiset{} by { forall j ensures d[j] == 0 { } }
    } else {
      var j :| j in jobs && Ceiling(jobs) == 1 + Budget(jobs[j]) + Ceiling(jobs - {j});
      assert (jobs - {j}).Keys == jobs.Keys - {j};
      BelowCeiling(d[j := 0], jobs - {j});
      assert |d[j := 0]| == |d| - d[j];
    }
  }

  /** Dispatching terminates: the number of dispatches in a run is at most the sum of
      1 + max_retries over the jobs it has accepted. */
  lemma DispatchingTerminates(nodes: NodeTable, jobs: JobTable, rows: seq<JobRow>, clock: real, steps: seq<Step>)
    requires GoodStart(nodes, jobs, rows)
    ensures var s := Run(Start(nodes, jobs, rows, clock), steps); |s.h.dispatched| <= Ceiling(s.m.jobs)
  {
    var s := Run(Start(nodes, jobs, rows, clock), steps);
    forall j ensures s.h.dispatched[j] <= if j in s.m.jobs then 1 + Budget(s.m.jobs[j]) else 0 {
      JobAccounts(nodes, jobs, rows, clock, steps, j);
    }
    BelowCeiling(s.h.dispatched, s.m.jobs);
  }

  /** The dictionaries that submissions put into the queue are dispatched in the order in which they entered
      it, through failed selections, requeues and retries. (FirstDispatch has the result about jobs.) */
  lemma SubmissionsFifo(nodes: NodeTable, jobs: JobTable, rows: seq<JobRow>, clock: real, steps: seq<Step>)
    requires GoodStart(nodes, jobs, rows)
    ensures var s := Run(Start(nodes, jobs, rows, clock), steps);
            s.h.appended == s.h.firstOut + FreshIds(HandSeq(s.hand) + s.m.queue)
  {
    StartInv(nodes, jobs, rows, clock);
    InvRun(Start(nodes, jobs, rows, clock), steps);
  }

  /** The queue gauge never exceeds the true backlog, so a scale-out it triggers is warranted. */
  lemma QueueScaleOutWarranted(
      nodes: NodeTable, jobs: JobTable, rows: seq<JobRow>, clock: real, steps: seq<Step>, high: int)
    requires GoodStart(nodes, jobs, rows)
    ensures var s := Run(Start(nodes, jobs, rows, clock), steps);
            && s.m.queued + s.h.recovered + s.h.retried == |s.m.queue| + |HandSeq(s.hand)|
            && (s.m.queued > high ==> |s.m.queue| + |HandSeq(s.hand)| > high)
  {
    StartInv(nodes, jobs, rows, clock);
    InvRun(Start(nodes, jobs, rows, clock), steps);
  }

  // ---------- Retry counters ----------

  /** Later tables keep every job, with no smaller retry counter; a given-up job has spent its budget. */
  ghost predicate Progressed(later: JobTable, jobs: JobTable) {
    && (forall j :: j in jobs ==> j in later && later[j].retries >= jobs[j].retries)
    && (forall j :: j in later && later[j].status == Failed ==>
          later[j].retries >= later[j].maxRetries || (j in jobs && later[j] == jobs[j]))
  }

  lemma {:induction false} FailOverProgress(m: Manager, rows: seq<JobRow>, offline: set<NodeId>)
    requires Current(rows, m.jobs)
    ensures Progressed(FailOverAll(m, rows, offline).jobs, m.jobs)
    decreases |rows|
  {
    if rows != [] {
      FailOverCurrent(m, rows, offline);
      FailOverProgress(FailOver(m, rows[0], offline), rows[1..], offline);
      assert rows[0].id in m.jobs && m.jobs[rows[0].id] == rows[0];
    }
  }

  lemma ProgressReport(s: System, n: NodeId, j: JobId, outcome: Outcome)
    requires Keyed(s.m.jobs)
    ensures Progressed(Next(s, DoReport(n, j, outcome)).m.jobs, s.m.jobs)
  {
  }

  lemma ProgressSubmit(s: System, id: JobId, request: JobRequest)
    ensures Progressed(Next(s, DoSubmit(id, request)).m.jobs, s.m.jobs)
  {
  }

  lemma JobsUntouched(s: System, step: Step)
    requires !step.DoSubmit? && !step.DoReport? && !step.DoPlace? && !step.DoMonitor?
    ensures Next(s, step).m.jobs == s.m.jobs
  {
  }

  lemma ProgressStep(s: System, step: Step)
    requires Keyed(s.m.jobs)
    ensures Progressed(Next(s, step).m.jobs, s.m.jobs)
  {
    match step
    case DoMonitor(timeout, rows) =>
      if Enabled(s, step) { FailOverProgress(s.m, rows, Detected(s.m.nodes, s.clock - timeout)); }
    case DoReport(n, j, outcome) => ProgressReport(s, n, j, outcome);
    case DoSubmit(id, request) => ProgressSubmit(s, id, request);
    case DoPlace(w, available) =>
      if Enabled(s, step) { ProgressPlace(s, Allocate(w, available, s.hand.value.requiredNodes)); }
    case _ => JobsUntouched(s, step);
  }

  lemma ProgressPlace(s: System, chosen: seq<NodeRow>)
    requires s.hand.Some?
    ensures Progressed(PlaceStep(s, s.hand.value, chosen).m.jobs, s.m.jobs)
  {
  }

  /** With uninterrupted handlers a retry counter never goes down, and every job marked FAILED since
      the start has spent its budget. */
  lemma {:induction false} RetriesNeverDecrease(s: System, steps: seq<Step>, j: JobId)
    requires Inv(s) && j in s.m.jobs
    requires s.m.jobs[j].status == Failed ==> s.m.jobs[j].retries >= s.m.jobs[j].maxRetries
    ensures var s' := Run(s, steps);
            && j in s'.m.jobs && s'.m.jobs[j].retries >= s.m.jobs[j].retries
            && (s'.m.jobs[j].status == Failed ==> s'.m.jobs[j].retries >= s'.m.jobs[j].maxRetries)
    decreases |steps|
  {
    if steps != [] {
      ProgressStep(s, steps[0]);
      InvStep(s, steps[0]);
      RetriesNeverDecrease(Next(s, steps[0]), steps[1..], j);
    }
  }

  // ---------- The monitor ----------

  ghost predicate Listed(rows: seq<JobRow>, j: JobId) {
    exists i :: 0 <= i < |rows| && rows[i].id == j
  }

  /** What failing over a listing does to one job. */
  ghost predicate FailedOver(before: Manager, after: Manager, j: JobId, hit: bool)
    requires j in before.jobs
  {
    var row := before.jobs[j];
    && j in after.jobs
    && after.jobs[j] == (if !hit then row
                         else if row.retries < row.maxRetries then row.(status := Pending, retries := row.retries + 1)
                         else row.(status := Failed))
    && Copies(after.queue, j) == Copies(before.queue, j) + (if hit && row.retries < row.maxRetries then 1 else 0)
  }

  lemma FailOverOne(m: Manager, row: JobRow, offline: set<NodeId>, j: JobId)
    requires j in m.jobs && row.id in m.jobs && m.jobs[row.id] == row
    ensures FailedOver(m, FailOver(m, row, offline), j, row.id == j && Affected(row, offline))
  {
    CopiesEnqueue(m.queue, Retried(FromRow(row)), j);
  }

  lemma {:induction false} FailOverEach(m: Manager, rows: seq<JobRow>, offline: set<NodeId>, j: JobId)
    requires Current(rows, m.jobs) && j in m.jobs
    ensures FailedOver(m, FailOverAll(m, rows, offline), j, Listed(rows, j) && Affected(m.jobs[j], offline))
    decreases |rows|
  {
    if rows != [] {
      var m' := FailOver(m, rows[0], offline);
      assert rows[0].id in m.jobs && m.jobs[rows[0].id] == rows[0];
      FailOverOne(m, rows[0], offline, j);
      FailOverCurrent(m, rows, offline);
      FailOverEach(m', rows[1..], offline, j);
      ListedSplit(rows, j);
      if rows[0].id == j { NotListedTwice(rows); }
    }
  }

  lemma ListedSplit(rows: seq<JobRow>, j: JobId)
    requires rows != []
    ensures Listed(rows, j) <==> rows[0].id == j || Listed(rows[1..], j)
  {
    if Listed(rows, j) && rows[0].id != j {
      var i :| 0 <= i < |rows| && rows[i].id == j;
      assert rows[1..][i - 1].id == j;
    }
    if Listed(rows[1..], j) {
      var i :| 0 <= i < |rows[1..]| && rows[1..][i].id == j;
      assert rows[i + 1].id == j;
    }
  }

  lemma NotListedTwice(rows: seq<JobRow>)
    requires rows != [] && forall i, k :: 0 <= i < k < |rows| ==> rows[i].id != rows[k].id
    ensures !Listed(rows[1..], rows[0].id)
  {
    forall i | 0 <= i < |rows[1..]| ensures rows[1..][i].id != rows[0].id { assert rows[1..][i] == rows[i + 1]; }
  }

  /** One tick, exactly: a running job with a node that is found silent is sent back with one more
      retry and one new copy, or given up when its budget is spent; every other job is untouched; and
      no job that is still running has a node that was found silent. */
  lemma TickOutcome(s: System, timeout: real, rows: seq<JobRow>, j: JobId)
    requires Keyed(s.m.jobs) && Enabled(s, DoMonitor(timeout, rows)) && j in s.m.jobs
    ensures var s' := Next(s, DoMonitor(timeout, rows));
            var offline := Detected(s.m.nodes, s.clock - timeout);
            && FailedOver(s.m, s'.m, j, s.m.jobs[j].status == Running && Affected(s.m.jobs[j], offline))
            && (s'.m.jobs[j].status == Running ==> !Affected(s'.m.jobs[j], offline))
  {
    var offline := Detected(s.m.nodes, s.clock - timeout);
    var m' := FailOverAll(s.m, rows, offline);
    FailOverEach(s.m, rows, offline, j);
    ListedIffRunning(rows, s.m.jobs, j);
    NoneLeftRunning(s.m, m', j, offline);
    assert Next(s, DoMonitor(timeout, rows)).m == Refresh(m', s.clock);
  }

  lemma NoneLeftRunning(before: Manager, after: Manager, j: JobId, offline: set<NodeId>)
    requires j in before.jobs
    requires FailedOver(before, after, j, before.jobs[j].status == Running && Affected(before.jobs[j], offline))
    ensures after.jobs[j].status == Running ==> !Affected(after.jobs[j], offline)
  {
  }

  lemma ListedIffRunning(rows: seq<JobRow>, jobs: JobTable, j: JobId)
    requires Keyed(jobs) && ListsJobs(rows, jobs, Running) && j in jobs
    ensures Listed(rows, j) <==> jobs[j].status == Running
  {
    if jobs[j].status == Running {
      assert jobs[j] in rows;
    }
    if Listed(rows, j) {
      var i :| 0 <= i < |rows| && rows[i].id == j;
      assert jobs[rows[i].id] == rows[i];
    }
  }

  // ---------- Steps that leave a job alone ----------

  predicate Concerns(s: System, step: Step, j: JobId) {
    match step
    case DoSubmit(id, _) => id == j
    case DoReport(_, k, _) => k == j
    case DoPlace(_, _) => s.hand.Some? && s.hand.value.id == j
    case DoMonitor(_, _) => true
    case DoRestart(_) => true
    case _ => false
  }

  lemma PlaceOther(s: System, chosen: seq<NodeRow>, j: JobId)
    requires s.hand.Some? && s.hand.value.id != j && j in s.m.jobs
    ensures var s' := PlaceStep(s, s.hand.value, chosen);
            j in s'.m.jobs && s'.m.jobs[j] == s.m.jobs[j] && Waiting(s', j) == Waiting(s, j)
  {
    CopiesOne(s.hand.value, j);
    CopiesPrepend(s.m.queue, s.hand.value, j);
  }

  lemma ReportOther(s: System, n: NodeId, k: JobId, outcome: Outcome, j: JobId)
    requires Keyed(s.m.jobs) && j in s.m.jobs && k != j
    ensures var s' := Next(s, DoReport(n, k, outcome));
            j in s'.m.jobs && s'.m.jobs[j] == s.m.jobs[j] && Waiting(s', j) == Waiting(s, j)
  {
    if k in s.m.jobs { CopiesEnqueue(s.m.queue, Retried(FromRow(s.m.jobs[k])), j); }
  }

  lemma SubmitOther(s: System, id: JobId, request: JobRequest, j: JobId)
    requires j in s.m.jobs && id != j
    ensures var s' := Next(s, DoSubmit(id, request));
            j in s'.m.jobs && s'.m.jobs[j] == s.m.jobs[j] && Waiting(s', j) == Waiting(s, j)
  {
    CopiesEnqueue(s.m.queue, FromRequest(id, request), j);
  }

  lemma PopAny(s: System, j: JobId)
    ensures Waiting(Next(s, DoPop), j) == Waiting(s, j) && Next(s, DoPop).m.jobs == s.m.jobs
  {
    if Enabled(s, DoPop) {
      assert s.m.queue == [s.m.queue[0]] + s.m.queue[1..];
      CopiesPrepend(s.m.queue[1..], s.m.queue[0], j);
      CopiesOne(s.m.queue[0], j);
    }
  }

  lemma QueueUntouched(s: System, step: Step)
    requires step.DoRegister? || step.DoListen? || step.DoHeartbeat? || step.DoTake? || step.DoRefresh? || step.DoWait?
    ensures Next(s, step).m.jobs == s.m.jobs && Next(s, step).m.queue == s.m.queue && Next(s, step).hand == s.hand
  {
  }

  lemma Unconcerned(s: System, step: Step, j: JobId)
    requires Keyed(s.m.jobs) && j in s.m.jobs && !Concerns(s, step, j)
    ensures j in Next(s, step).m.jobs && Next(s, step).m.jobs[j] == s.m.jobs[j]
    ensures Waiting(Next(s, step), j) == Waiting(s, j)
  {
    match step
    case DoSubmit(id, request) => SubmitOther(s, id, request, j);
    case DoReport(n, k, outcome) => ReportOther(s, n, k, outcome, j);
    case DoPlace(w, available) =>
      if Enabled(s, step) { PlaceOther(s, Allocate(w, available, s.hand.value.requiredNodes), j); }
    case DoPop => PopAny(s, j);
    case _ => QueueUntouched(s, step);
  }

  // ---------- Crashes the monitor cannot see ----------

  /** The job is running, has no other copy, and each of its nodes is marked offline already. */
  ghost predicate Orphaned(s: System, j: JobId, nodes: seq<NodeId>) {
    && j in s.m.jobs && s.m.jobs[j].status == Running && s.m.jobs[j].assignedNodes == nodes
    && Waiting(s, j) == 0
    && forall i :: 0 <= i < |nodes| ==> nodes[i] in s.m.nodes && s.m.nodes[nodes[i]].status == Disconnected
  }

  /** The step carries no news about the job or from its nodes. */
  predicate NoNews(step: Step, j: JobId, nodes: seq<NodeId>) {
    match step
    case DoRegister(row) => row.id !in nodes
    case DoHeartbeat(n, _) => n !in nodes
    case DoReport(n, k, _) => k != j && n !in nodes
    case _ => true
  }

  lemma StaysDisconnected(s: System, step: Step, n: NodeId)
    requires n in s.m.nodes && s.m.nodes[n].status == Disconnected
    requires !(step.DoRegister? && step.row.id == n) && !(step.DoHeartbeat? && step.n == n)
        && !(step.DoReport? && step.n == n)
    ensures n in Next(s, step).m.nodes && Next(s, step).m.nodes[n].status == Disconnected
  {
    if Enabled(s, step) {
      match step
      case DoPlace(w, available) =>
        ChosenDistinct(s, w, available);
        PlaceSpares(s, Allocate(w, available, s.hand.value.requiredNodes), n);
      case DoMonitor(timeout, rows) => TickFrame(s, timeout, rows);
      case DoReport(k, j, outcome) =>
      case DoHeartbeat(k, status) =>
      case DoRegister(row) =>
      case DoRefresh =>
      case _ => assert Next(s, step).m.nodes == s.m.nodes;
    }
  }

  lemma PlaceSpares(s: System, chosen: seq<NodeRow>, n: NodeId)
    requires s.hand.Some? && n in s.m.nodes && s.m.nodes[n].status == Disconnected
    requires forall i :: 0 <= i < |chosen| ==> chosen[i].id != n
    ensures n in PlaceStep(s, s.hand.value, chosen).m.nodes
    ensures PlaceStep(s, s.hand.value, chosen).m.nodes[n].status == Disconnected
  {
  }

  lemma TickFrame(s: System, timeout: real, rows: seq<JobRow>)
    requires Enabled(s, DoMonitor(timeout, rows))
    ensures var s' := Next(s, DoMonitor(timeout, rows));
            s'.m.nodes == MarkOffline(s.m.nodes, s.clock) && s'.hand == s.hand
  {
    FailOverAllFrame(s.m, rows, Detected(s.m.nodes, s.clock - timeout));
  }

  /** The job's own part of the claim. */
  lemma OrphanUntouched(s: System, j: JobId, nodes: seq<NodeId>, step: Step)
    requires Inv(s) && Orphaned(s, j, nodes) && NoNews(step, j, nodes)
    ensures j in Next(s, step).m.jobs && Next(s, step).m.jobs[j] == s.m.jobs[j] && Waiting(Next(s, step), j) == 0
  {
    if s.hand.Some? { CopiesOne(s.hand.value, j); }
    if !Enabled(s, step) {
    } else if !Concerns(s, step, j) {
      Unconcerned(s, step, j);
    } else {
      match step
      case DoMonitor(timeout, rows) =>
        TickOutcome(s, timeout, rows, j);
        TickFrame(s, timeout, rows);
      case DoRestart(rows) => RecoveredOnce(rows, s.m.jobs, j);
      case DoSubmit(id, request) => assert Next(s, step).m == s.m;
    }
  }

  lemma OrphanedStep(s: System, j: JobId, nodes: seq<NodeId>, step: Step)
    requires Inv(s) && Orphaned(s, j, nodes) && NoNews(step, j, nodes)
    ensures Orphaned(Next(s, step), j, nodes)
  {
    OrphanUntouched(s, j, nodes, step);
    forall i | 0 <= i < |nodes|
      ensures nodes[i] in Next(s, step).m.nodes && Next(s, step).m.nodes[nodes[i]].status == Disconnected
    {
      StaysDisconnected(s, step, nodes[i]);
    }
  }

  /** Once a running job's nodes have all been marked offline by somebody other than the monitor
      tick, no number of ticks, whatever their timeout, and no restart ever recovers the job: only
      news about the job or from one of its nodes can. */
  lemma {:induction false} OrphanedForever(s: System, j: JobId, nodes: seq<NodeId>, steps: seq<Step>)
    requires Inv(s) && Orphaned(s, j, nodes)
    requires forall i :: 0 <= i < |steps| ==> NoNews(steps[i], j, nodes)
    ensures Orphaned(Run(s, steps), j, nodes)
    decreases |steps|
  {
    if steps != [] {
      OrphanedStep(s, j, nodes, steps[0]);
      InvStep(s, steps[0]);
      OrphanedForever(Next(s, steps[0]), j, nodes, steps[1..]);
    }
  }

  /** Another caller's listing marks nodes by the registry's own 15 second timeout. A tick that follows takes
      a running job back if and only if one of its nodes is past the configured timeout and not yet past
      those 15 seconds; each node past both is hidden from the tick. */
  lemma ListingHidesCrash(s: System, timeout: real, rows: seq<JobRow>, j: JobId)
    requires Keyed(s.m.jobs) && j in s.m.jobs && s.m.jobs[j].status == Running
    requires Enabled(Next(s, DoRefresh), DoMonitor(timeout, rows))
    ensures var s' := Next(Next(s, DoRefresh), DoMonitor(timeout, rows));
            j in s'.m.jobs && (s'.m.jobs[j] != s.m.jobs[j] <==> Unhidden(s, timeout, s.m.jobs[j].assignedNodes))
  {
    var s1 := Next(s, DoRefresh);
    TickOutcome(s1, timeout, rows, j);
    forall n ensures n in Detected(s1.m.nodes, s1.clock - timeout) <==> UnhiddenNode(s, timeout, n) {
      MarkedIsNotDetected(s.m.nodes, n, s.clock, s1.clock - timeout);
    }
  }

  ghost predicate UnhiddenNode(s: System, timeout: real, n: NodeId) {
    && n in s.m.nodes && s.m.nodes[n].status != Disconnected && s.m.nodes[n].status != Maintenance
    && s.clock - 15.0 <= s.m.nodes[n].lastHeartbeat < s.clock - timeout
  }

  ghost predicate Unhidden(s: System, timeout: real, nodes: seq<NodeId>) {
    exists i :: 0 <= i < |nodes| && UnhiddenNode(s, timeout, nodes[i])
  }

  /** Hence with a configured timeout of 15 seconds or more no tick right after a listing takes anything back. */
  lemma LongTimeoutFindsNothing(s: System, timeout: real, nodes: seq<NodeId>)
    requires timeout >= 15.0
    ensures !Unhidden(s, timeout, nodes)
  {
  }

  /** Marked already, or about to be by the next listing. */
  predicate LongSilent(row: NodeRow, clock: real) {
    row.status == Disconnected || (row.status != Maintenance && row.lastHeartbeat < clock - 15.0)
  }

  lemma ListingOrphans(s: System, j: JobId, nodes: seq<NodeId>)
    requires j in s.m.jobs && s.m.jobs[j].status == Running && s.m.jobs[j].assignedNodes == nodes
    requires Waiting(s, j) == 0
    requires forall i :: 0 <= i < |nodes| ==>
               nodes[i] in s.m.nodes && LongSilent(s.m.nodes[nodes[i]], s.clock)
    ensures Orphaned(Next(s, DoRefresh), j, nodes)
  {
  }

  /** Composed: once all nodes of a running job have been silent for 15 seconds, one listing by anybody leaves
      the job RUNNING for good, whatever ticks and restarts follow, until there is news about it. */
  lemma ListingLosesJob(s: System, j: JobId, nodes: seq<NodeId>, steps: seq<Step>)
    requires Inv(s) && j in s.m.jobs && s.m.jobs[j].status == Running && s.m.jobs[j].assignedNodes == nodes
    requires Waiting(s, j) == 0
    requires forall i :: 0 <= i < |nodes| ==>
               nodes[i] in s.m.nodes && LongSilent(s.m.nodes[nodes[i]], s.clock)
    requires forall i :: 0 <= i < |steps| ==> NoNews(steps[i], j, nodes)
    ensures Orphaned(Run(Next(s, DoRefresh), steps), j, nodes)
  {
    InvStep(s, DoRefresh);
    ListingOrphans(s, j, nodes);
    OrphanedForever(Next(s, DoRefresh), j, nodes, steps);
  }

  lemma MarkedIsNotDetected(nodes: NodeTable, n: NodeId, now: real, cutoff: real)
    ensures n in Detected(MarkOffline(nodes, now), cutoff) <==>
              && n in nodes && nodes[n].status != Disconnected && nodes[n].status != Maintenance
              && now - 15.0 <= nodes[n].lastHeartbeat < cutoff
  {
  }

  /** A tick finds the node: past the configured timeout, not marked by anybody, not in maintenance. */
  ghost predicate Overdue(s: System, timeout: real, n: NodeId) {
    && n in s.m.nodes && s.m.nodes[n].lastHeartbeat < s.clock - timeout
    && s.m.nodes[n].status != Disconnected && s.m.nodes[n].status != Maintenance
  }

  /** The exact condition: a tick takes a running job back exactly when one of its nodes has not been heard
      from for longer than the configured timeout and is neither marked nor in maintenance. It makes the
      same nodes known as given up. */
  lemma TickRecoversIff(s: System, timeout: real, rows: seq<JobRow>, j: JobId)
    requires Keyed(s.m.jobs) && Enabled(s, DoMonitor(timeout, rows)) && j in s.m.jobs && s.m.jobs[j].status == Running
    ensures j in Next(s, DoMonitor(timeout, rows)).m.jobs
    ensures Next(s, DoMonitor(timeout, rows)).m.jobs[j].status != Running <==>
            exists i :: 0 <= i < |s.m.jobs[j].assignedNodes| && Overdue(s, timeout, s.m.jobs[j].assignedNodes[i])
    ensures forall n :: n in Next(s, DoMonitor(timeout, rows)).h.detected <==>
              n in s.h.detected || Overdue(s, timeout, n)
  {
    TickOutcome(s, timeout, rows, j);
  }

  /** A listing, by the scheduler or anybody else, and a tick mark the same nodes, and change nothing but their
      status. */
  lemma ListingMarks(s: System, timeout: real, rows: seq<JobRow>, n: NodeId)
    requires n in s.m.nodes && Enabled(s, DoMonitor(timeout, rows))
    ensures var row := s.m.nodes[n];
            var row' := row.(status := if LongSilent(row, s.clock) then Disconnected else row.status);
            && n in Next(s, DoRefresh).m.nodes && Next(s, DoRefresh).m.nodes[n] == row'
            && n in Next(s, DoMonitor(timeout, rows)).m.nodes && Next(s, DoMonitor(timeout, rows)).m.nodes[n] == row'
  {
    TickFrame(s, timeout, rows);
  }

  // ---------- Node reservations ----------

  ghost predicate IsIdle(s: System, n: NodeId) { n in s.m.nodes && s.m.nodes[n].status == Idle }

  ghost predicate ReservesNode(s: System, step: Step, n: NodeId) {
    && Enabled(s, step) && step.DoPlace?
    && exists i :: 0 <= i < |Allocate(step.w, step.available, s.hand.value.requiredNodes)|
                && Allocate(step.w, step.available, s.hand.value.requiredNodes)[i].id == n
  }

  /** A finished or failed report naming the node, an IDLE heartbeat from it, or its registration. */
  ghost predicate ReleasesNode(s: System, step: Step, n: NodeId) {
    match step
    case DoRegister(row) => row.id == n
    case DoHeartbeat(k, status) => k == n && status == Idle
    case DoReport(k, j, outcome) => k == n && (outcome == Success || (outcome == Failure && j in s.m.jobs))
    case _ => false
  }

  lemma ReservedWasIdle(s: System, step: Step, n: NodeId)
    requires ReservesNode(s, step, n)
    ensures IsIdle(s, n) && !IsIdle(Next(s, step), n)
  {
    var chosen := Allocate(step.w, step.available, s.hand.value.requiredNodes);
    ChosenDistinct(s, step.w, step.available);
    var i :| 0 <= i < |chosen| && chosen[i].id == n;
    assert chosen[i] in step.available;
    ReserveOn(s, chosen, i);
  }

  lemma ReserveOn(s: System, chosen: seq<NodeRow>, i: nat)
    requires s.hand.Some? && i < |chosen|
    ensures !IsIdle(PlaceStep(s, s.hand.value, chosen), chosen[i].id)
  {
  }

  lemma PlaceFreesNothing(s: System, chosen: seq<NodeRow>, n: NodeId)
    requires s.hand.Some? && !IsIdle(s, n)
    ensures !IsIdle(PlaceStep(s, s.hand.value, chosen), n)
  {
  }

  /** Nothing but a release makes a node idle. */
  lemma IdleOnlyByRelease(s: System, step: Step, n: NodeId)
    requires !IsIdle(s, n) && !ReleasesNode(s, step, n)
    ensures !IsIdle(Next(s, step), n)
  {
    match step
    case DoPlace(w, available) =>
      if Enabled(s, step) { PlaceFreesNothing(s, Allocate(w, available, s.hand.value.requiredNodes), n); }
    case DoMonitor(timeout, rows) =>
      FailOverAllFrame(s.m, rows, Detected(s.m.nodes, s.clock - timeout));
    case DoReport(k, j, outcome) =>
    case DoHeartbeat(k, status) =>
    case DoRegister(row) =>
    case DoRefresh =>
    case _ => assert Next(s, step).m.nodes == s.m.nodes;
  }

  /** Exactly the releases make a node idle: registrations, and whatever else names a node in the table. */
  lemma IdleIffReleased(s: System, step: Step, n: NodeId)
    requires !IsIdle(s, n)
    ensures IsIdle(Next(s, step), n) <==> ReleasesNode(s, step, n) && (n in s.m.nodes || step.DoRegister?)
  {
    if !ReleasesNode(s, step, n) { IdleOnlyByRelease(s, step, n); }
  }

  /** The state before the `i`-th step of a run. */
  ghost function At(s: System, steps: seq<Step>, i: nat): System
    requires i <= |steps|
  {
    Run(s, steps[..i])
  }

  lemma {:induction false} RunOneMore(s: System, steps: seq<Step>, i: nat)
    requires i < |steps|
    ensures At(s, steps, i + 1) == Next(At(s, steps, i), steps[i])
    decreases i
  {
    if i == 0 {
      assert steps[..1] == [steps[0]] && steps[..0] == [] && [steps[0]][1..] == [];
      assert Run(Next(s, steps[0]), []) == Next(s, steps[0]);
    } else {
      RunOneMore(Next(s, steps[0]), steps[1..], i - 1);
      assert steps[..i + 1][1..] == steps[1..][..i] && steps[..i][1..] == steps[1..][..i - 1];
    }
  }

  /** The node is released by one of the steps from `i` on, before `k`. */
  ghost predicate ReleasedWithin(s: System, steps: seq<Step>, i: nat, k: nat, n: NodeId)
    requires k <= |steps|
  {
    exists l :: i <= l < k && ReleasesNode(At(s, steps, l), steps[l], n)
  }

  lemma {:induction false} BusyUntilReleased(s: System, steps: seq<Step>, i: nat, k: nat, n: NodeId)
    requires i <= k <= |steps| && !IsIdle(At(s, steps, i), n)
    ensures ReleasedWithin(s, steps, i, k, n) || !IsIdle(At(s, steps, k), n)
    decreases k - i
  {
    if i < k {
      BusyUntilReleased(s, steps, i, k - 1, n);
      RunOneMore(s, steps, k - 1);
      BusyOneMore(s, steps, i, k - 1, n);
    }
  }

  lemma BusyOneMore(s: System, steps: seq<Step>, i: nat, k: nat, n: NodeId)
    requires i <= k < |steps| && (ReleasedWithin(s, steps, i, k, n) || !IsIdle(At(s, steps, k), n))
    ensures ReleasedWithin(s, steps, i, k + 1, n) || !IsIdle(Next(At(s, steps, k), steps[k]), n)
  {
    if !IsIdle(At(s, steps, k), n) && !ReleasesNode(At(s, steps, k), steps[k], n) {
      IdleOnlyByRelease(At(s, steps, k), steps[k], n);
    }
  }

  /** Between two reservations of a node there is a release of that node, whatever else happens. */
  lemma NodeReuse(s: System, steps: seq<Step>, i: nat, k: nat, n: NodeId)
    requires i < k < |steps|
    requires ReservesNode(At(s, steps, i), steps[i], n) && ReservesNode(At(s, steps, k), steps[k], n)
    ensures ReleasedWithin(s, steps, i + 1, k, n)
  {
    IdleThenBusy(s, steps, i, n);
    IdleThenBusy(s, steps, k, n);
    BusyUntilReleased(s, steps, i + 1, k, n);
  }

  lemma IdleThenBusy(s: System, steps: seq<Step>, i: nat, n: NodeId)
    requires i < |steps| && ReservesNode(At(s, steps, i), steps[i], n)
    ensures IsIdle(At(s, steps, i), n) && !IsIdle(At(s, steps, i + 1), n)
  {
    ReservedWasIdle(At(s, steps, i), steps[i], n);
    RunOneMore(s, steps, i);
  }

  // ---------- Dispatch ----------

  /** The commands a node's queue gains from one dispatch. */
  ghost function Gained(commands: CommandQueues, e: Entry, chosen: seq<NodeRow>, from: nat, n: NodeId): seq<Command>
    requires from <= |chosen|
  {
    if n in commands && exists i :: from <= i < |chosen| && chosen[i].id == n
    then var i :| from <= i < |chosen| && chosen[i].id == n; [Launch(e, chosen, i)]
    else []
  }

  lemma {:induction false} SendEach(commands: CommandQueues, e: Entry, chosen: seq<NodeRow>, from: nat, n: NodeId)
    requires from <= |chosen|
    requires forall i, k :: 0 <= i < k < |chosen| ==> chosen[i].id != chosen[k].id
    ensures SendFrom(commands, e, chosen, from).Keys == commands.Keys
    ensures n in commands ==>
          SendFrom(commands, e, chosen, from)[n] == commands[n] + Gained(commands, e, chosen, from, n)
    decreases |chosen| - from
  {
    if from < |chosen| {
      var c := Launch(e, chosen, from);
      var commands' := Send(commands, chosen[from].id, c);
      SendEach(commands', e, chosen, from + 1, n);
      if n in commands && n == chosen[from].id {
        assert Gained(commands, e, chosen, from, n) == [c];
        assert Gained(commands', e, chosen, from + 1, n) == [];
      } else {
        assert Gained(commands, e, chosen, from, n) == Gained(commands', e, chosen, from + 1, n);
      }
    }
  }

  lemma SendAll(commands: CommandQueues, e: Entry, chosen: seq<NodeRow>)
    requires forall i, k :: 0 <= i < k < |chosen| ==> chosen[i].id != chosen[k].id
    ensures var after := SendFrom(commands, e, chosen, 0);
            && after.Keys == commands.Keys
            && (forall rank :: 0 <= rank < |chosen| && chosen[rank].id in commands ==>
                  after[chosen[rank].id] == commands[chosen[rank].id] + [Launch(e, chosen, rank)])
            && (forall n :: n in commands && (forall i :: 0 <= i < |chosen| ==> chosen[i].id != n) ==>
                  after[n] == commands[n])
  {
    var after := SendFrom(commands, e, chosen, 0);
    SendEach(commands, e, chosen, 0, "");
    forall rank | 0 <= rank < |chosen| && chosen[rank].id in commands
      ensures after[chosen[rank].id] == commands[chosen[rank].id] + [Launch(e, chosen, rank)]
    {
      SendEach(commands, e, chosen, 0, chosen[rank].id);
    }
    forall n | n in commands && (forall i :: 0 <= i < |chosen| ==> chosen[i].id != n) ensures after[n] == commands[n] {
      SendEach(commands, e, chosen, 0, n);
    }
  }

  /** A dispatch takes as many nodes as the job asks for and hands the `rank`-th of them one launch carrying
      that rank and the address of the node of rank 0, and no other queue changes. It reaches an allocated
      node if and only if the node has a command queue in this manager lifetime; otherwise it is dropped,
      while the job is marked as running there all the same. */
  lemma GangLaunch(s: System, w: Weights, available: seq<NodeRow>)
    requires Inv(s) && Enabled(s, DoPlace(w, available))
    requires Allocate(w, available, s.hand.value.requiredNodes) != []
    ensures var e := s.hand.value;
            var chosen := Allocate(w, available, e.requiredNodes);
            var s' := Next(s, DoPlace(w, available));
            && e.id in s'.m.jobs && s'.m.jobs[e.id].status == Running
              && s'.m.jobs[e.id].assignedNodes == NodeIds(chosen)
            && (e.requiredNodes >= 0 ==> |chosen| == e.requiredNodes)
            && (forall i, k :: 0 <= i < k < |chosen| ==> chosen[i].id != chosen[k].id)
            && s'.m.commands.Keys == s.m.commands.Keys
            && (forall rank :: 0 <= rank < |chosen| && chosen[rank].id in s.m.commands ==>
                  s'.m.commands[chosen[rank].id] == s.m.commands[chosen[rank].id]
                    + [Command(e.id, rank, e.requiredNodes, chosen[0].ip, e.script)])
            && (forall n :: n in s.m.commands && (forall i :: 0 <= i < |chosen| ==> chosen[i].id != n) ==>
                  s'.m.commands[n] == s.m.commands[n])
  {
    ChosenDistinct(s, w, available);
    AllocateSize(w, available, s.hand.value.requiredNodes);
    assert HandSeq(s.hand)[0] == s.hand.value;
    GangLaunchOn(s, Allocate(w, available, s.hand.value.requiredNodes));
  }

  lemma GangLaunchOn(s: System, chosen: seq<NodeRow>)
    requires s.hand.Some? && s.hand.value.id in s.m.jobs && chosen != []
    requires forall i, k :: 0 <= i < k < |chosen| ==> chosen[i].id != chosen[k].id
    ensures var e := s.hand.value;
            var s' := PlaceStep(s, e, chosen);
            && e.id in s'.m.jobs && s'.m.jobs[e.id].status == Running
              && s'.m.jobs[e.id].assignedNodes == NodeIds(chosen)
            && s'.m.commands.Keys == s.m.commands.Keys
            && (forall rank :: 0 <= rank < |chosen| && chosen[rank].id in s.m.commands ==>
                  s'.m.commands[chosen[rank].id] == s.m.commands[chosen[rank].id]
                    + [Command(e.id, rank, e.requiredNodes, chosen[0].ip, e.script)])
            && (forall n :: n in s.m.commands && (forall i :: 0 <= i < |chosen| ==> chosen[i].id != n) ==>
                  s'.m.commands[n] == s.m.commands[n])
  {
    SendAll(s.m.commands, s.hand.value, chosen);
  }

  lemma {:induction false} SendKeys(commands: CommandQueues, e: Entry, chosen: seq<NodeRow>, rank: nat)
    requires rank <= |chosen|
    ensures SendFrom(commands, e, chosen, rank).Keys == commands.Keys
    decreases |chosen| - rank
  {
    if rank < |chosen| { SendKeys(Send(commands, chosen[rank].id, Launch(e, chosen, rank)), e, chosen, rank + 1); }
  }

  lemma QueueStaysStep(s: System, step: Step, n: NodeId)
    requires n in s.m.commands && !step.DoRestart?
    ensures n in Next(s, step).m.commands
  {
    if Enabled(s, step) {
      match step
      case DoPlace(w, available) =>
        SendKeys(s.m.commands, s.hand.value, Allocate(w, available, s.hand.value.requiredNodes), 0);
      case DoMonitor(timeout, rows) => FailOverAllFrame(s.m, rows, Detected(s.m.nodes, s.clock - timeout));
      case DoRestart(_) =>
      case _ =>
    }
  }

  /** A node that has registered or listened keeps a command queue for the rest of the manager's
      lifetime, so no launch for it is dropped in that time. */
  lemma {:induction false} QueueStays(s: System, steps: seq<Step>, n: NodeId)
    requires n in s.m.commands && forall i :: 0 <= i < |steps| ==> !steps[i].DoRestart?
    ensures n in Run(s, steps).m.commands
    decreases |steps|
  {
    if steps != [] {
      QueueStaysStep(s, steps[0], n);
      QueueStays(Next(s, steps[0]), steps[1..], n);
    }
  }

  /** Every node of a dispatch was idle and heard from within the last 15 seconds, and the node of
      rank 0 has the top score among all such nodes. */
  lemma ChosenAreFresh(s: System, w: Weights, available: seq<NodeRow>, i: nat)
    requires Inv(s) && Enabled(s, DoPlace(w, available))
    requires i < |Allocate(w, available, s.hand.value.requiredNodes)|
    ensures var chosen := Allocate(w, available, s.hand.value.requiredNodes);
            && chosen[i].id in s.m.nodes && s.m.nodes[chosen[i].id] == chosen[i] && chosen[i].status == Idle
            && chosen[i].lastHeartbeat >= s.clock - 15.0
            && (forall n :: n in s.m.nodes && s.m.nodes[n].status == Idle
                            && s.m.nodes[n].lastHeartbeat >= s.clock - 15.0 ==>
                  ScoreOf(w)(s.m.nodes[n]) <= ScoreOf(w)(chosen[0]))
  {
    var chosen := Allocate(w, available, s.hand.value.requiredNodes);
    ChosenDistinct(s, w, available);
    assert chosen[i] in available;
    AllocateLeader(w, available, s.hand.value.requiredNodes);
    var marked := MarkOffline(s.m.nodes, s.clock);
    forall n | n in s.m.nodes && s.m.nodes[n].status == Idle && s.m.nodes[n].lastHeartbeat >= s.clock - 15.0
      ensures s.m.nodes[n] in available
    {
      assert marked[n] == s.m.nodes[n];
    }
  }
}
