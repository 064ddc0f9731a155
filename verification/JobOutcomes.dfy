/** What each event does to a job's row, its copies and its nodes, column by column, and what must have
    happened to a job that is COMPLETED. */
module JobOutcomes {
  import opened ClusterTypes
  import opened Queueing
  import opened Allocation
  import opened Agents
  import opened Interleaving
  import opened ManagerModel
  import opened ManagerRuns
  import opened ManagerTheorems
  import opened ClusterModel
  import opened ClusterTheorems
  import opened LaunchAccounts

  // ---------- One report ----------

  /** A report changes the row of its own job only: success completes it whatever its status and retries,
      failure counts a retry or gives the job up, and any other text does nothing. */
  lemma ReportedRow(s: System, n: NodeId, j: JobId, outcome: Outcome, k: JobId)
    requires Keyed(s.m.jobs)
    ensures var jobs' := Next(s, DoReport(n, j, outcome)).m.jobs;
            && jobs'.Keys == s.m.jobs.Keys
            && (k in s.m.jobs ==>
                  var row := s.m.jobs[k];
                  jobs'[k] ==
                    if k != j || outcome == Unknown then row
                    else if outcome == Success then row.(status := Completed)
                    else if row.retries < row.maxRetries then row.(status := Pending, retries := row.retries + 1)
                    else row.(status := Failed))
  {
  }

  /** A failure within the budget queues one copy, with all columns of the row and the new retry count;
      nothing else touches the queue. */
  lemma ReportedQueue(s: System, n: NodeId, j: JobId, outcome: Outcome)
    ensures var s' := Next(s, DoReport(n, j, outcome));
            && s'.hand == s.hand
            && (if outcome == Failure && j in s.m.jobs && s.m.jobs[j].retries < s.m.jobs[j].maxRetries then
                  var row := s.m.jobs[j];
                  Arranges(s'.m.queue, s.m.queue +
                    [Entry(row.id, row.requiredNodes, Some(row.priority), Some(row.createdAt), Some(row.retries + 1),
                           row.maxRetries, row.script)])
                else s'.m.queue == s.m.queue)
  {
    if j in s.m.jobs {
      ArrangedIff(Enqueue(s.m.queue, Retried(FromRow(s.m.jobs[j]))), s.m.queue + [Retried(FromRow(s.m.jobs[j]))]);
    }
  }

  /** The reporting node becomes idle, unless the text is unknown or a failure names an unknown job. */
  lemma ReportedNode(s: System, n: NodeId, j: JobId, outcome: Outcome)
    ensures var s' := Next(s, DoReport(n, j, outcome));
            && s'.m.commands == s.m.commands && s'.clock == s.clock && s'.m.queued == s.m.queued
            && s'.m.running == s.m.running - (if outcome == Success then 1 else 0)
            && s'.m.nodes ==
               if n in s.m.nodes && (outcome == Success || (outcome == Failure && j in s.m.jobs))
               then s.m.nodes[n := s.m.nodes[n].(status := Idle)] else s.m.nodes
  {
  }

  lemma UnknownText(s: System, n: NodeId, j: JobId)
    ensures Next(s, DoReport(n, j, Unknown)) == s
  {
  }

  // ---------- Every step ----------

  /** The step counts a failure of the job: a failure report, or a tick that finds one of its nodes overdue. */
  ghost predicate Setback(s: System, step: Step, j: JobId)
    requires j in s.m.jobs
  {
    Enabled(s, step) &&
    match step
    case DoReport(_, k, outcome) => k == j && outcome == Failure
    case DoMonitor(timeout, _) =>
      s.m.jobs[j].status == Running
      && exists i :: 0 <= i < |s.m.jobs[j].assignedNodes| && Overdue(s, timeout, s.m.jobs[j].assignedNodes[i])
    case _ => false
  }

  /** The step dispatches the job: it is in the scheduler's hand and enough idle nodes are listed. */
  ghost predicate Dispatched(s: System, step: Step, j: JobId) {
    && Enabled(s, step) && step.DoPlace? && s.hand.value.id == j
    && (if s.hand.value.requiredNodes >= 0 then 1 <= s.hand.value.requiredNodes <= |step.available|
        else |step.available| + s.hand.value.requiredNodes >= 1)
  }

  ghost predicate Succeeds(step: Step, j: JobId) { step.DoReport? && step.j == j && step.outcome == Success }

  lemma PlacedRowOn(s: System, chosen: seq<NodeRow>, j: JobId)
    requires j in s.m.jobs && s.hand.Some?
    ensures var s' := PlaceStep(s, s.hand.value, chosen);
            && j in s'.m.jobs
            && s'.m.jobs[j] ==
               if s.hand.value.id == j && chosen != []
               then s.m.jobs[j].(status := Running, assignedNodes := NodeIds(chosen)) else s.m.jobs[j]
  {
  }

  lemma PlacedRow(s: System, w: Weights, available: seq<NodeRow>, j: JobId)
    requires j in s.m.jobs && Enabled(s, DoPlace(w, available))
    ensures var s' := Next(s, DoPlace(w, available));
            && j in s'.m.jobs
            && s'.m.jobs[j] ==
               if Dispatched(s, DoPlace(w, available), j)
               then s.m.jobs[j].(status := Running,
                                 assignedNodes := NodeIds(Allocate(w, available, s.hand.value.requiredNodes)))
               else s.m.jobs[j]
  {
    var chosen := Allocate(w, available, s.hand.value.requiredNodes);
    PlacedRowOn(s, chosen, j);
    AllocateSize(w, available, s.hand.value.requiredNodes);
    assert Dispatched(s, DoPlace(w, available), j) <==> s.hand.value.id == j && |chosen| > 0;
  }

  lemma TickedRow(s: System, timeout: real, rows: seq<JobRow>, j: JobId)
    requires Keyed(s.m.jobs) && j in s.m.jobs && Enabled(s, DoMonitor(timeout, rows))
    ensures var s' := Next(s, DoMonitor(timeout, rows));
            var row := s.m.jobs[j];
            && j in s'.m.jobs
            && s'.m.jobs[j] ==
               if !Setback(s, DoMonitor(timeout, rows), j) then row
               else if row.retries < row.maxRetries then row.(status := Pending, retries := row.retries + 1)
               else row.(status := Failed)
  {
    TickOutcome(s, timeout, rows, j);
    if s.m.jobs[j].status == Running { TickRecoversIff(s, timeout, rows, j); }
  }

  /** The life of a row, completely: a success report completes the job, a setback sends it back with one
      more retry or gives it up, a dispatch makes it run on the nodes chosen, and nothing else in the
      system changes any column of it. */
  lemma RowAfter(s: System, step: Step, j: JobId)
    requires Keyed(s.m.jobs) && j in s.m.jobs
    ensures var row := s.m.jobs[j];
            && j in Next(s, step).m.jobs
            && Next(s, step).m.jobs[j] ==
               if Succeeds(step, j) then row.(status := Completed)
               else if Setback(s, step, j) then
                 if row.retries < row.maxRetries then row.(status := Pending, retries := row.retries + 1)
                 else row.(status := Failed)
               else if Dispatched(s, step, j) then
                 row.(status := Running,
                      assignedNodes := NodeIds(Allocate(step.w, step.available, s.hand.value.requiredNodes)))
               else row
  {
    match step
    case DoReport(n, k, outcome) => ReportedRow(s, n, k, outcome, j);
    case DoPlace(w, available) => if Enabled(s, step) { PlacedRow(s, w, available, j); }
    case DoMonitor(timeout, rows) => if Enabled(s, step) { TickedRow(s, timeout, rows, j); }
    case _ => OtherSteps(s, step, j);
  }

  lemma OtherSteps(s: System, step: Step, j: JobId)
    requires j in s.m.jobs && !step.DoReport? && !step.DoPlace? && !step.DoMonitor?
    ensures j in Next(s, step).m.jobs && Next(s, step).m.jobs[j] == s.m.jobs[j]
  {
  }

  // ---------- COMPLETED ----------

  /** The manager acts on a success report for the job. */
  ghost predicate ActsOnSuccess(w: World, step: WorldStep, j: JobId) {
    Possible(w, step) && step.ActOnReport? && step.t.job == j && step.outcome == Success
  }

  ghost predicate IsCompleted(w: World, j: JobId) { j in w.s.m.jobs && w.s.m.jobs[j].status == Completed }

  lemma NewIsPending(s: System, step: Step, j: JobId)
    requires Keyed(s.m.jobs) && j !in s.m.jobs && j in Next(s, step).m.jobs
    ensures Next(s, step).m.jobs[j].status == Pending
  {
    KeysStep(s, step, j);
  }

  lemma ReportedIsKnown(w: World, t: Tag)
    requires WorldInv(w) && t in w.reports
    ensures t.job in w.s.m.jobs
  {
    assert Conserved(w, t) && w.s.h.issued[t] <= w.s.h.dispatched[t.job];
    assert Known(Shadow(w.s).dispatched, w.s.m.jobs);
  }

  /** In the whole system a job becomes COMPLETED in a step if and only if the manager acts on a success
      report for it in that step. */
  lemma BecomesCompletedIff(w: World, step: WorldStep, j: JobId)
    requires WorldInv(w) && !IsCompleted(w, j)
    ensures IsCompleted(WorldNext(w, step), j) <==> ActsOnSuccess(w, step, j)
  {
    if ActsOnSuccess(w, step, j) { ReportedIsKnown(w, step.t); }
    CompletedStep(w, step, j);
  }

  lemma CompletedStep(w: World, step: WorldStep, j: JobId)
    requires Keyed(w.s.m.jobs) && !IsCompleted(w, j) && (ActsOnSuccess(w, step, j) ==> j in w.s.m.jobs)
    ensures IsCompleted(WorldNext(w, step), j) <==> ActsOnSuccess(w, step, j)
  {
    if Possible(w, step) {
      if j in w.s.m.jobs {
        RowAfter(w.s, ManagerPart(w, step), j);
      } else if j in Next(w.s, ManagerPart(w, step)).m.jobs {
        NewIsPending(w.s, ManagerPart(w, step), j);
      }
    }
  }

  /** Some step of the run acts on a success report for the job. */
  ghost predicate SuccessActedOn(w: World, steps: seq<WorldStep>, j: JobId)
    decreases |steps|
  {
    steps != [] && (ActsOnSuccess(w, steps[0], j) || SuccessActedOn(WorldNext(w, steps[0]), steps[1..], j))
  }

  /** Over whole runs: a job that has become COMPLETED owes it to a success report ... */
  lemma {:induction false} CompletedBySuccess(w: World, steps: seq<WorldStep>, j: JobId)
    requires WorldInv(w) && !IsCompleted(w, j) && IsCompleted(WorldRun(w, steps), j)
    ensures SuccessActedOn(w, steps, j)
    decreases |steps|
  {
    var w' := WorldNext(w, steps[0]);
    if !ActsOnSuccess(w, steps[0], j) {
      BecomesCompletedIff(w, steps[0], j);
      WorldInvStep(w, steps[0]);
      CompletedBySuccess(w', steps[1..], j);
    }
  }

  lemma SuccessConfirmed(w: World, step: WorldStep, j: JobId)
    requires ActsOnSuccess(w, step, j)
    ensures WorldNext(w, step).confirmed[step.t] >= 1
  {
  }

  /** ... from a process of the job that was started on some node and has ended. */
  lemma {:induction false} SuccessCameFromProcess(w: World, steps: seq<WorldStep>, j: JobId) returns (n: NodeId)
    requires WorldInv(w) && (forall t :: Truthful(w, t)) && SuccessActedOn(w, steps, j)
    ensures Confirmed(WorldRun(w, steps), n, j)
    decreases |steps|
  {
    WorldInvStep(w, steps[0]);
    forall t ensures Truthful(WorldNext(w, steps[0]), t) { TruthfulStep(w, steps[0], t); }
    if ActsOnSuccess(w, steps[0], j) {
      SuccessConfirmed(w, steps[0], j);
      ReportLeavesTrace(WorldNext(w, steps[0]), steps[1..], steps[0].t);
      n := steps[0].t.node;
    } else {
      n := SuccessCameFromProcess(WorldNext(w, steps[0]), steps[1..], j);
    }
  }

  /** A launch of the job on the node started a process, which ended with exit code 0 and whose report of
      that was acted on. */
  ghost predicate Confirmed(w: World, n: NodeId, j: JobId) {
    && w.confirmed[Tag(n, j)] >= 1 && w.exitedZero[Tag(n, j)] >= 1 && w.ended[Tag(n, j)] >= 1
    && w.started[Tag(n, j)] >= 1 && w.s.h.issued[Tag(n, j)] >= 1
  }

  /** Reports tell the truth: those that say "completed", under way or acted on, are backed by processes that
      exited with code 0, and the others by processes that did not. */
  ghost predicate Truthful(w: World, t: Tag) {
    && w.good[t] <= w.reports[t] && w.confirmed[t] <= w.processed[t]
    && w.good[t] + w.confirmed[t] <= w.exitedZero[t] <= w.ended[t]
    && (w.reports[t] - w.good[t]) + (w.processed[t] - w.confirmed[t]) <= w.ended[t] - w.exitedZero[t]
  }

  lemma TruthfulMoves(w: World, step: WorldStep, t: Tag)
    requires Possible(w, step) && Truthful(w, t)
    ensures Truthful(AgentsNext(w, step), t)
  {
    match step
    case Exit(n, p, code) => TruthfulExit(w, n, p, code, t);
    case Vanish(n, p) => TruthfulVanish(w, n, p, t);
    case LoseReport(u, outcome) => TruthfulLoss(w, u, outcome, t);
    case ActOnReport(u, outcome) => TruthfulAct(w, u, outcome, t);
    case _ => SameReports(w, step);
  }

  lemma TruthfulExit(w: World, n: NodeId, p: Proc, code: int, t: Tag)
    requires Possible(w, Exit(n, p, code)) && Truthful(w, t)
    ensures Truthful(AgentsNext(w, Exit(n, p, code)), t)
  {
  }

  lemma TruthfulVanish(w: World, n: NodeId, p: Proc, t: Tag)
    requires Possible(w, Vanish(n, p)) && Truthful(w, t)
    ensures Truthful(AgentsNext(w, Vanish(n, p)), t)
  {
  }

  lemma TruthfulLoss(w: World, u: Tag, outcome: Outcome, t: Tag)
    requires Underway(w, u, outcome) && Truthful(w, t)
    ensures Truthful(AgentsNext(w, LoseReport(u, outcome)), t)
  {
    if outcome == Success { LossOfSuccess(w, u, t); } else { LossOfFailure(w, u, t); }
  }

  lemma LossOfSuccess(w: World, u: Tag, t: Tag)
    requires Underway(w, u, Success) && Truthful(w, t)
    ensures Truthful(AgentsNext(w, LoseReport(u, Success)), t)
  {
  }

  lemma LossOfFailure(w: World, u: Tag, t: Tag)
    requires Underway(w, u, Failure) && Truthful(w, t)
    ensures Truthful(AgentsNext(w, LoseReport(u, Failure)), t)
  {
  }

  lemma TruthfulAct(w: World, u: Tag, outcome: Outcome, t: Tag)
    requires Underway(w, u, outcome) && Truthful(w, t)
    ensures Truthful(AgentsNext(w, ActOnReport(u, outcome)), t)
  {
    if outcome == Success { ActOnSuccess(w, u, t); } else { ActOnFailure(w, u, t); }
  }

  lemma ActOnSuccess(w: World, u: Tag, t: Tag)
    requires Underway(w, u, Success) && Truthful(w, t)
    ensures Truthful(AgentsNext(w, ActOnReport(u, Success)), t)
  {
  }

  lemma ActOnFailure(w: World, u: Tag, t: Tag)
    requires Underway(w, u, Failure) && Truthful(w, t)
    ensures Truthful(AgentsNext(w, ActOnReport(u, Failure)), t)
  {
  }

  lemma SameReports(w: World, step: WorldStep)
    requires Possible(w, step) && !step.Exit? && !step.Vanish? && !step.LoseReport? && !step.ActOnReport?
    ensures var w' := AgentsNext(w, step);
            && w'.reports == w.reports && w'.good == w.good && w'.processed == w.processed
            && w'.confirmed == w.confirmed && w'.ended == w.ended && w'.exitedZero == w.exitedZero
  {
  }

  lemma TruthfulStep(w: World, step: WorldStep, t: Tag)
    requires Truthful(w, t)
    ensures Truthful(WorldNext(w, step), t)
  {
    if Possible(w, step) { TruthfulMoves(w, step, t); }
  }

  lemma {:induction false} TruthfulRun(w: World, steps: seq<WorldStep>, t: Tag)
    requires Truthful(w, t)
    ensures Truthful(WorldRun(w, steps), t)
    decreases |steps|
  {
    if steps != [] {
      TruthfulStep(w, steps[0], t);
      TruthfulRun(WorldNext(w, steps[0]), steps[1..], t);
    }
  }

  lemma {:induction false} ConfirmedStays(w: World, steps: seq<WorldStep>, t: Tag)
    requires w.confirmed[t] >= 1
    ensures WorldRun(w, steps).confirmed[t] >= 1
    decreases |steps|
  {
    if steps != [] { ConfirmedStays(WorldNext(w, steps[0]), steps[1..], t); }
  }

  lemma ReportLeavesTrace(w: World, steps: seq<WorldStep>, t: Tag)
    requires WorldInv(w) && Truthful(w, t) && w.confirmed[t] >= 1
    ensures Confirmed(WorldRun(w, steps), t.node, t.job)
  {
    ConfirmedStays(w, steps, t);
    WorldInvRun(w, steps);
    TruthfulRun(w, steps, t);
    LedgerOf(WorldRun(w, steps), t);
  }

  lemma LedgerOf(w: World, t: Tag)
    requires WorldInv(w) && Truthful(w, t) && w.confirmed[t] >= 1
    ensures Confirmed(w, t.node, t.job)
  {
    assert Conserved(w, t);
    assert Tag(t.node, t.job) == t;
  }

  lemma TruthfulAtFirst(nodes: NodeTable, jobs: JobTable, rows: seq<JobRow>, clock: real, t: Tag)
    ensures Truthful(Begin(nodes, jobs, rows, clock), t)
  {
  }

  /** Together: no job is COMPLETED without having been launched on some node, having run there to exit code 0
      and having been reported so. */
  lemma CompletedWasRun(
      nodes: NodeTable, jobs: JobTable, rows: seq<JobRow>, clock: real, steps: seq<WorldStep>, j: JobId)
    requires GoodStart(nodes, jobs, rows) && !(j in jobs && jobs[j].status == Completed)
    requires IsCompleted(WorldRun(Begin(nodes, jobs, rows, clock), steps), j)
    ensures exists n :: Confirmed(WorldRun(Begin(nodes, jobs, rows, clock), steps), n, j)
  {
    BeginInv(nodes, jobs, rows, clock);
    forall t ensures Truthful(Begin(nodes, jobs, rows, clock), t) { TruthfulAtFirst(nodes, jobs, rows, clock, t); }
    CompletedBySuccess(Begin(nodes, jobs, rows, clock), steps, j);
    var n := SuccessCameFromProcess(Begin(nodes, jobs, rows, clock), steps, j);
  }

  /** An exit sends one report on its way, which says "completed" exactly when the exit code is 0. */
  lemma ExitReported(w: World, n: NodeId, p: Proc, code: int)
    requires Possible(w, Exit(n, p, code))
    ensures var w' := WorldNext(w, Exit(n, p, code));
            var t := Tag(n, p.job);
            && w'.reports == w.reports + multiset{t} && w'.ended == w.ended + multiset{t}
            && w'.good == w.good + (if code == 0 then multiset{t} else multiset{})
            && w'.exitedZero == w.exitedZero + (if code == 0 then multiset{t} else multiset{})
            && n in w'.agents && p !in w'.agents[n].live
  {
  }

  /** No process of the job exits with code 0. */
  predicate NoCleanExit(steps: seq<WorldStep>, j: JobId) {
    forall i :: 0 <= i < |steps| && steps[i].Exit? && steps[i].p.job == j ==> steps[i].code != 0
  }

  lemma NoneExits(w: World, step: WorldStep, t: Tag)
    requires !(step.Exit? && step.p.job == t.job && step.code == 0)
    ensures WorldNext(w, step).exitedZero[t] == w.exitedZero[t]
  {
    if Possible(w, step) && step.Exit? { ExitReported(w, step.n, step.p, step.code); }
  }

  lemma {:induction false} NoneExited(w: World, steps: seq<WorldStep>, t: Tag)
    requires NoCleanExit(steps, t.job)
    ensures WorldRun(w, steps).exitedZero[t] == w.exitedZero[t]
    decreases |steps|
  {
    if steps != [] {
      NoneExits(w, steps[0], t);
      assert NoCleanExit(steps[1..], t.job) by {
        forall i | 0 <= i < |steps[1..]| ensures steps[1..][i] == steps[i + 1] { }
      }
      NoneExited(WorldNext(w, steps[0]), steps[1..], t);
    }
  }

  /** So a job none of whose processes exits with code 0 never becomes COMPLETED, whatever else happens. */
  lemma FailingNeverCompletes(
      nodes: NodeTable, jobs: JobTable, rows: seq<JobRow>, clock: real, steps: seq<WorldStep>, j: JobId)
    requires GoodStart(nodes, jobs, rows) && !(j in jobs && jobs[j].status == Completed)
    requires NoCleanExit(steps, j)
    ensures !IsCompleted(WorldRun(Begin(nodes, jobs, rows, clock), steps), j)
  {
    var w := WorldRun(Begin(nodes, jobs, rows, clock), steps);
    if IsCompleted(w, j) {
      CompletedWasRun(nodes, jobs, rows, clock, steps, j);
      forall n ensures w.exitedZero[Tag(n, j)] == 0 {
        NoneExited(Begin(nodes, jobs, rows, clock), steps, Tag(n, j));
      }
      assert false;
    }
  }
}
