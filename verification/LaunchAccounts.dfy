/** Whole-run totals of launch commands, and what becomes of a node after its first job. */
module LaunchAccounts {
  import opened ClusterTypes
  import opened Allocation
  import opened Interleaving
  import opened ManagerModel
  import opened ManagerRuns
  import opened ManagerTheorems
  import opened ClusterModel
  import opened ClusterTheorems

  // ---------- Launches per job ----------

  /** The number of tags of a job, over all nodes. */
  ghost function OfJob(ms: multiset<Tag>, j: JobId): nat
    decreases |ms|
  {
    if ms == multiset{} then 0
    else
      var t :| t in ms;
      (if t.job == j then 1 else 0) + OfJob(ms - multiset{t}, j)
  }

  lemma {:induction false} OfJobPick(ms: multiset<Tag>, t: Tag, j: JobId)
    requires t in ms
    ensures OfJob(ms, j) == (if t.job == j then 1 else 0) + OfJob(ms - multiset{t}, j)
    decreases |ms|
  {
    var u :| u in ms && OfJob(ms, j) == (if u.job == j then 1 else 0) + OfJob(ms - multiset{u}, j);
    if u != t {
      OfJobPick(ms - multiset{u}, t, j);
      OfJobPick(ms - multiset{t}, u, j);
      assert ms - multiset{u} - multiset{t} == ms - multiset{t} - multiset{u};
    }
  }

  lemma {:induction false} OfJobSum(a: multiset<Tag>, b: multiset<Tag>, j: JobId)
    ensures OfJob(a + b, j) == OfJob(a, j) + OfJob(b, j)
    decreases |b|
  {
    if b == multiset{} {
      assert a + b == a;
    } else {
      var t :| t in b;
      OfJobPick(a + b, t, j);
      OfJobPick(b, t, j);
      assert a + b - multiset{t} == a + (b - multiset{t});
      OfJobSum(a, b - multiset{t}, j);
    }
  }

  lemma {:induction false} OfJobNone(ms: multiset<Tag>, j: JobId)
    requires forall t: Tag :: t.job == j ==> ms[t] == 0
    ensures OfJob(ms, j) == 0
    decreases |ms|
  {
    if ms != multiset{} {
      var t :| t in ms && OfJob(ms, j) == (if t.job == j then 1 else 0) + OfJob(ms - multiset{t}, j);
      OfJobNone(ms - multiset{t}, j);
    }
  }

  lemma OfJobOne(t: Tag, j: JobId)
    ensures OfJob(multiset{t}, j) == if t.job == j then 1 else 0
  {
    OfJobPick(multiset{t}, t, j);
    assert multiset{t} - multiset{t} == multiset{};
  }

  lemma {:induction false} OfJobSent(commands: CommandQueues, j: JobId, chosen: seq<NodeRow>, rank: nat, k: JobId)
    requires rank <= |chosen|
    ensures OfJob(SentFrom(commands, j, chosen, rank), k) <= if j == k then |chosen| - rank else 0
    decreases |chosen| - rank
  {
    if rank < |chosen| {
      OfJobSent(commands, j, chosen, rank + 1, k);
      var first := if chosen[rank].id in commands then multiset{Tag(chosen[rank].id, j)} else multiset{};
      OfJobSum(first, SentFrom(commands, j, chosen, rank + 1), k);
      OfJobOne(Tag(chosen[rank].id, j), k);
    }
  }

  /** Each dispatch of a job has issued at most as many launches as the job asks for nodes. */
  ghost predicate LaunchInv(s: System) {
    forall j :: j in s.m.jobs && s.m.jobs[j].requiredNodes >= 0 ==>
      OfJob(s.h.issued, j) <= s.m.jobs[j].requiredNodes * s.h.dispatched[j]
  }

  lemma LaunchPlace(s: System, w: Weights, available: seq<NodeRow>, j: JobId)
    requires Inv(s) && LaunchInv(s) && Enabled(s, DoPlace(w, available))
    requires j in s.m.jobs && s.m.jobs[j].requiredNodes >= 0
    ensures OfJob(Next(s, DoPlace(w, available)).h.issued, j)
         <= s.m.jobs[j].requiredNodes * Next(s, DoPlace(w, available)).h.dispatched[j]
  {
    var e := s.hand.value;
    var chosen := Allocate(w, available, e.requiredNodes);
    assert HandSeq(s.hand)[0] == e && Agrees(e, s.m.jobs[e.id]);
    AllocateSize(w, available, e.requiredNodes);
    LaunchPlaceOn(s, chosen, j);
  }

  lemma LaunchPlaceOn(s: System, chosen: seq<NodeRow>, j: JobId)
    requires s.hand.Some? && j in s.m.jobs && s.m.jobs[j].requiredNodes >= 0
    requires OfJob(s.h.issued, j) <= s.m.jobs[j].requiredNodes * s.h.dispatched[j]
    requires s.hand.value.id == j ==> |chosen| <= s.m.jobs[j].requiredNodes
    ensures var s' := PlaceStep(s, s.hand.value, chosen);
            OfJob(s'.h.issued, j) <= s.m.jobs[j].requiredNodes * s'.h.dispatched[j]
  {
    var k, d := s.m.jobs[j].requiredNodes, s.h.dispatched[j];
    PlaceCounts(s, chosen, j);
    if s.hand.value.id == j && chosen != [] {
      OneMore(k, d, OfJob(s.h.issued, j), |chosen|);
    }
  }

  lemma PlaceCounts(s: System, chosen: seq<NodeRow>, j: JobId)
    requires s.hand.Some?
    ensures var s' := PlaceStep(s, s.hand.value, chosen);
            var own := s.hand.value.id == j && chosen != [];
            && OfJob(s'.h.issued, j) <= OfJob(s.h.issued, j) + (if own then |chosen| else 0)
            && s'.h.dispatched[j] == s.h.dispatched[j] + (if own then 1 else 0)
  {
    var e := s.hand.value;
    OfJobSum(s.h.issued, SentFrom(s.m.commands, e.id, chosen, 0), j);
    OfJobSent(s.m.commands, e.id, chosen, 0, j);
  }

  lemma OneMore(k: nat, d: nat, x: nat, y: nat)
    requires x <= k * d && y <= k
    ensures x + y <= k * (d + 1)
  {
  }

  lemma IssuedStays(s: System, step: Step)
    requires !step.DoPlace?
    ensures Next(s, step).h.issued == s.h.issued && Next(s, step).h.dispatched == s.h.dispatched
  {
  }

  lemma {:induction false} ImmutableRun(f: Fine, steps: seq<FineStep>, j: JobId)
    requires FineInv(f) && j in f.jobs
    ensures j in FineRun(f, steps).jobs && Agrees(FromRow(f.jobs[j]), FineRun(f, steps).jobs[j])
    decreases |steps|
  {
    if steps != [] {
      TableStep(f, steps[0]);
      FineInvStep(f, steps[0]);
      assert Agrees(FromRow(f.jobs[j]), FineNext(f, steps[0]).jobs[j]);
      ImmutableRun(FineNext(f, steps[0]), steps[1..], j);
    }
  }

  /** No step changes what a job asks for. */
  lemma Immutable(s: System, step: Step, j: JobId)
    requires Inv(s) && j in s.m.jobs
    ensures j in Next(s, step).m.jobs && Agrees(FromRow(s.m.jobs[j]), Next(s, step).m.jobs[j])
  {
    var fs := Simulate(s, step);
    ImmutableRun(Shadow(s), fs, j);
  }

  lemma LaunchStep(s: System, step: Step)
    requires Inv(s) && LaunchInv(s)
    ensures LaunchInv(Next(s, step))
  {
    var s' := Next(s, step);
    forall j | j in s'.m.jobs && s'.m.jobs[j].requiredNodes >= 0
      ensures OfJob(s'.h.issued, j) <= s'.m.jobs[j].requiredNodes * s'.h.dispatched[j]
    {
      if j in s.m.jobs {
        Immutable(s, step, j);
        LaunchKnown(s, step, j);
      } else {
        NothingIssued(s, step, j);
      }
    }
  }

  lemma LaunchKnown(s: System, step: Step, j: JobId)
    requires Inv(s) && LaunchInv(s) && j in s.m.jobs && s.m.jobs[j].requiredNodes >= 0
    ensures OfJob(Next(s, step).h.issued, j) <= s.m.jobs[j].requiredNodes * Next(s, step).h.dispatched[j]
  {
    if step.DoPlace? {
      if Enabled(s, step) { LaunchPlace(s, step.w, step.available, j); }
    } else {
      IssuedStays(s, step);
    }
  }

  lemma NothingIssued(s: System, step: Step, j: JobId)
    requires Inv(s) && j !in s.m.jobs && j in Next(s, step).m.jobs
    ensures OfJob(Next(s, step).h.issued, j) == 0 && Next(s, step).h.dispatched[j] == 0
  {
    KeysStep(s, step, j);
    IssuedStays(s, step);
    assert Known(Shadow(s).dispatched, s.m.jobs);
    assert s.h.dispatched[j] == 0;
    OfJobNone(s.h.issued, j);
  }

  /** A step brings a new job into the table only by submitting it. */
  lemma KeysStep(s: System, step: Step, j: JobId)
    requires Keyed(s.m.jobs) && j !in s.m.jobs && j in Next(s, step).m.jobs
    ensures step.DoSubmit? && step.id == j
  {
    match step
    case DoMonitor(timeout, rows) => FailOverKeys(s.m, rows, Detected(s.m.nodes, s.clock - timeout));
    case DoSubmit(id, _) =>
    case DoReport(n, k, outcome) => ReportKeys(s.m, n, k, outcome);
    case DoPlace(w, available) =>
      if Enabled(s, step) { PlaceKeys(s, Allocate(w, available, s.hand.value.requiredNodes)); }
    case _ => JobsUntouched(s, step);
  }

  lemma ReportKeys(m: Manager, n: NodeId, j: JobId, outcome: Outcome)
    requires Keyed(m.jobs)
    ensures Report(m, n, j, outcome).jobs.Keys == m.jobs.Keys
  {
  }

  lemma PlaceKeys(s: System, chosen: seq<NodeRow>)
    requires s.hand.Some?
    ensures PlaceStep(s, s.hand.value, chosen).m.jobs.Keys == s.m.jobs.Keys
  {
  }

  lemma {:induction false} FailOverKeys(m: Manager, rows: seq<JobRow>, offline: set<NodeId>)
    ensures FailOverAll(m, rows, offline).jobs.Keys == m.jobs.Keys
    decreases |rows|
  {
    if rows != [] { FailOverKeys(FailOver(m, rows[0], offline), rows[1..], offline); }
  }

  lemma {:induction false} LaunchRun(s: System, steps: seq<Step>)
    requires Inv(s) && LaunchInv(s)
    ensures Inv(Run(s, steps)) && LaunchInv(Run(s, steps))
    decreases |steps|
  {
    if steps != [] {
      LaunchStep(s, steps[0]);
      InvStep(s, steps[0]);
      LaunchRun(Next(s, steps[0]), steps[1..]);
    }
  }

  lemma StartLaunch(nodes: NodeTable, jobs: JobTable, rows: seq<JobRow>, clock: real)
    ensures LaunchInv(Start(nodes, jobs, rows, clock))
  {
    forall j ensures OfJob(Start(nodes, jobs, rows, clock).h.issued, j) == 0 { OfJobNone(multiset{}, j); }
  }

  lemma LaunchesPerDispatch(nodes: NodeTable, jobs: JobTable, rows: seq<JobRow>, clock: real, steps: seq<Step>)
    requires GoodStart(nodes, jobs, rows)
    ensures LaunchInv(Run(Start(nodes, jobs, rows, clock), steps))
  {
    StartInv(nodes, jobs, rows, clock);
    StartLaunch(nodes, jobs, rows, clock);
    LaunchRun(Start(nodes, jobs, rows, clock), steps);
  }

  lemma WithinBudget(s: System, j: JobId, dispatches: nat)
    requires LaunchInv(s) && j in s.m.jobs && s.m.jobs[j].requiredNodes >= 0
    requires s.h.dispatched[j] == dispatches <= 1 + Budget(s.m.jobs[j])
    ensures OfJob(s.h.issued, j) <= s.m.jobs[j].requiredNodes * (1 + Budget(s.m.jobs[j]))
  {
    Monotone(s.m.jobs[j].requiredNodes, dispatches, 1 + Budget(s.m.jobs[j]));
  }

  lemma Monotone(k: nat, a: nat, b: nat)
    requires a <= b
    ensures k * a <= k * b
  {
  }

  /** Over a whole run, all nodes and restarts taken together, the launches issued for a job number at
      most required_nodes x (1 + max_retries). */
  lemma LaunchBound(nodes: NodeTable, jobs: JobTable, rows: seq<JobRow>, clock: real, steps: seq<Step>, j: JobId)
    requires GoodStart(nodes, jobs, rows)
    ensures var s := Run(Start(nodes, jobs, rows, clock), steps);
            j in s.m.jobs && s.m.jobs[j].requiredNodes >= 0 ==>
              OfJob(s.h.issued, j) <= s.m.jobs[j].requiredNodes * (1 + Budget(s.m.jobs[j]))
  {
    var s := Run(Start(nodes, jobs, rows, clock), steps);
    LaunchesPerDispatch(nodes, jobs, rows, clock, steps);
    JobAccounts(nodes, jobs, rows, clock, steps, j);
    if j in s.m.jobs && s.m.jobs[j].requiredNodes >= 0 {
      WithinBudget(s, j, s.h.dispatched[j]);
    }
  }

  // ---------- Nodes after their first job ----------

  /** The agent no longer calls itself idle, the manager does not hold it for idle, and nothing is under
      way on it that could make a report. */
  ghost predicate Retired(w: World, n: NodeId) {
    && n in w.agents && w.agents[n].status != Idle
    && !IsIdle(w.s, n)
    && forall j :: InField(w, Tag(n, j)) == 0
  }

  /** A launch reaches the agent, or its command stream breaks. */
  ghost predicate Disturbs(w: World, step: WorldStep, n: NodeId) {
    Possible(w, step) && (step == Deliver(n) || step == BreakStream(n))
  }

  ghost predicate Undisturbed(w: World, steps: seq<WorldStep>, n: NodeId)
    decreases |steps|
  {
    steps == [] || (!Disturbs(w, steps[0], n) && Undisturbed(WorldNext(w, steps[0]), steps[1..], n))
  }

  lemma AgentStatusStep(w: World, step: WorldStep, n: NodeId)
    requires n in w.agents
    ensures n in WorldNext(w, step).agents
    ensures WorldNext(w, step).agents[n].status == Idle <==> w.agents[n].status == Idle && !Disturbs(w, step, n)
  {
    if Possible(w, step) {
      AgentMoves(w, step, n);
      AgentsApart(w, step);
    }
  }

  lemma AgentsApart(w: World, step: WorldStep)
    requires Possible(w, step)
    ensures WorldNext(w, step).agents == AgentsNext(w, step).agents
  {
  }

  lemma AgentMoves(w: World, step: WorldStep, n: NodeId)
    requires n in w.agents && Possible(w, step)
    ensures n in AgentsNext(w, step).agents
    ensures AgentsNext(w, step).agents[n].status ==
            if step == Deliver(n) then Training
            else if step == BreakStream(n) then Other("OFFLINE")
            else w.agents[n].status
  {
    match step
    case Deliver(k) =>
    case BreakStream(k) =>
    case Join(row) =>
    case Exit(k, p, code) =>
    case Vanish(k, p) =>
    case _ => SameAgents(w, step);
  }

  /** Over any run an agent calls itself idle if and only if it did at the start and neither a launch
      has reached it nor its stream has broken since. */
  lemma {:induction false} CallsItselfIdleIff(w: World, steps: seq<WorldStep>, n: NodeId)
    requires n in w.agents
    ensures n in WorldRun(w, steps).agents
    ensures WorldRun(w, steps).agents[n].status == Idle <==> w.agents[n].status == Idle && Undisturbed(w, steps, n)
    decreases |steps|
  {
    if steps != [] {
      AgentStatusStep(w, steps[0], n);
      CallsItselfIdleIff(WorldNext(w, steps[0]), steps[1..], n);
    }
  }

  /** So from its first launch on, refused or not, an agent never calls itself idle again. */
  lemma NeverIdleAfterLaunch(w: World, n: NodeId, steps: seq<WorldStep>)
    requires Possible(w, Deliver(n))
    ensures n in WorldRun(WorldNext(w, Deliver(n)), steps).agents
    ensures WorldRun(WorldNext(w, Deliver(n)), steps).agents[n].status != Idle
  {
    AgentStatusStep(w, Deliver(n), n);
    CallsItselfIdleIff(WorldNext(w, Deliver(n)), steps, n);
  }

  /** And an agent that joins is idle until then. */
  lemma IdleSinceJoining(w: World, row: NodeRow, steps: seq<WorldStep>)
    requires Possible(w, Join(row))
    ensures var w' := WorldNext(w, Join(row));
            && row.id in WorldRun(w', steps).agents
            && (WorldRun(w', steps).agents[row.id].status == Idle <==> Undisturbed(w', steps, row.id))
  {
    CallsItselfIdleIff(WorldNext(w, Join(row)), steps, row.id);
  }

  lemma UnreservedGainsNothing(s: System, step: Step, t: Tag)
    requires !IsIdle(s, t.node)
    ensures Next(s, step).h.issued[t] == s.h.issued[t]
  {
    match step
    case DoPlace(w, available) =>
      if Enabled(s, step) {
        ChosenDistinct(s, w, available);
        var chosen := Allocate(w, available, s.hand.value.requiredNodes);
        SentOnce(s.m.commands, s.hand.value.id, chosen, 0, t);
        if i :| 0 <= i < |chosen| && chosen[i].id == t.node {
          assert ReservesNode(s, step, t.node);
          ReservedWasIdle(s, step, t.node);
        }
      }
    case _ => IssuedStays(s, step);
  }

  lemma RetiredField(w: World, step: WorldStep, n: NodeId, j: JobId)
    requires WorldInv(w) && Retired(w, n)
    ensures InField(WorldNext(w, step), Tag(n, j)) == 0
  {
    var t := Tag(n, j);
    assert Conserved(w, t);
    ConservedStep(w, step, t);
    UnreservedGainsNothing(w.s, ManagerPart(w, step), t);
    if Possible(w, step) { BooksGrow(w, step, t); }
  }

  lemma BooksGrow(w: World, step: WorldStep, t: Tag)
    requires Possible(w, step)
    ensures var w' := WorldNext(w, step);
            && w'.s.h.dropped[t] >= w.s.h.dropped[t] && w'.lost[t] >= w.lost[t] && w'.refused[t] >= w.refused[t]
            && w'.processed[t] >= w.processed[t] + (if step.ActOnReport? && step.t == t then 1 else 0)
            && w'.unreported[t] >= w.unreported[t]
  {
    DroppedGrows(w.s, ManagerPart(w, step), t);
    AgentBooksGrow(w, step, t);
  }

  /** No entry of these books is ever struck out. */
  ghost predicate BooksKept(w: World, w': World) {
    w.lost <= w'.lost && w.refused <= w'.refused && w.processed <= w'.processed && w.unreported <= w'.unreported
  }

  lemma AgentBooksGrow(w: World, step: WorldStep, t: Tag)
    requires Possible(w, step)
    ensures var w' := AgentsNext(w, step);
            && w'.lost[t] >= w.lost[t] && w'.refused[t] >= w.refused[t]
            && w'.processed[t] >= w.processed[t] + (if step.ActOnReport? && step.t == t then 1 else 0)
            && w'.unreported[t] >= w.unreported[t]
  {
    if step.Deliver? || step.LoseCommand? || step.Vanish? {
      CommandBooks(w, step);
    } else if step.LoseReport? || step.ActOnReport? {
      ReportBooks(w, step);
    } else {
      OtherBooks(w, step);
    }
  }

  lemma CommandBooks(w: World, step: WorldStep)
    requires Possible(w, step) && (step.Deliver? || step.LoseCommand? || step.Vanish?)
    ensures BooksKept(w, AgentsNext(w, step))
  {
  }

  lemma ReportBooks(w: World, step: WorldStep)
    requires Possible(w, step) && (step.LoseReport? || step.ActOnReport?)
    ensures BooksKept(w, AgentsNext(w, step))
    ensures step.ActOnReport? ==> AgentsNext(w, step).processed == w.processed + multiset{step.t}
  {
  }

  lemma OtherBooks(w: World, step: WorldStep)
    requires Possible(w, step) && (step.Manage? || step.Join? || step.Beat? || step.BreakStream? || step.Exit?)
    ensures BooksKept(w, AgentsNext(w, step))
  {
  }

  lemma DroppedGrows(s: System, step: Step, t: Tag)
    ensures Next(s, step).h.dropped[t] >= s.h.dropped[t]
  {
  }

  lemma RetiredNotIdle(w: World, step: WorldStep, n: NodeId)
    requires Retired(w, n)
    ensures !IsIdle(WorldNext(w, step).s, n)
  {
    if Possible(w, step) {
      NoRelease(w, step, n);
      IdleOnlyByRelease(w.s, ManagerPart(w, step), n);
    }
  }

  lemma NoRelease(w: World, step: WorldStep, n: NodeId)
    requires Retired(w, n) && Possible(w, step)
    ensures !ReleasesNode(w.s, ManagerPart(w, step), n)
  {
    if step.ActOnReport? { assert InField(w, Tag(step.t.node, step.t.job)) > 0; }
  }

  lemma RetiredStep(w: World, step: WorldStep, n: NodeId)
    requires WorldInv(w) && Retired(w, n)
    ensures Retired(WorldNext(w, step), n)
  {
    AgentStatusStep(w, step, n);
    RetiredNotIdle(w, step, n);
    forall j ensures InField(WorldNext(w, step), Tag(n, j)) == 0 { RetiredField(w, step, n, j); }
  }

  /** A retired node is never reserved again, in any continuation of the run. */
  lemma {:induction false} RetiredForever(w: World, steps: seq<WorldStep>, n: NodeId)
    requires WorldInv(w) && Retired(w, n)
    ensures Retired(WorldRun(w, steps), n)
    ensures forall place :: !ReservesNode(WorldRun(w, steps).s, place, n)
    decreases |steps|
  {
    if steps == [] {
      forall place ensures !ReservesNode(w.s, place, n) {
        if ReservesNode(w.s, place, n) { ReservedWasIdle(w.s, place, n); }
      }
    } else {
      RetiredStep(w, steps[0], n);
      WorldInvStep(w, steps[0]);
      RetiredForever(WorldNext(w, steps[0]), steps[1..], n);
    }
  }

  lemma BeatEffect(w: World, n: NodeId)
    requires n in w.agents && n in w.s.m.nodes
    ensures var w' := WorldNext(w, Beat(n));
            && w'.s.m.commands == w.s.m.commands && w'.agents == w.agents && w'.reports == w.reports
            && (IsIdle(w'.s, n) <==> w.agents[n].status == Idle)
  {
  }

  /** A heartbeat that arrives while nothing is queued, running or being reported on the node takes the node
      out of service if and only if its agent does not call itself idle. */
  lemma HeartbeatRetiresIff(w: World, n: NodeId)
    requires n in w.agents && n in w.s.m.nodes
    requires forall j :: InField(w, Tag(n, j)) == 0
    ensures Retired(WorldNext(w, Beat(n)), n) <==> w.agents[n].status != Idle
  {
    BeatEffect(w, n);
    forall j ensures InField(WorldNext(w, Beat(n)), Tag(n, j)) == 0 {
      assert InField(w, Tag(n, j)) == 0;
    }
  }

  /** A single heartbeat then retires a node for good: after the agent's first launch, because it still
      reports TRAINING, or after its stream has broken, because it still reports OFFLINE. */
  lemma HeartbeatRetires(w: World, n: NodeId, steps: seq<WorldStep>)
    requires WorldInv(w) && n in w.agents && w.agents[n].status != Idle
    requires forall j :: InField(w, Tag(n, j)) == 0
    ensures Retired(WorldRun(WorldNext(w, Beat(n)), steps), n)
    ensures forall place :: !ReservesNode(WorldRun(WorldNext(w, Beat(n)), steps).s, place, n)
  {
    WorldInvStep(w, Beat(n));
    HeartbeatRetiresIff(w, n);
    RetiredForever(WorldNext(w, Beat(n)), steps, n);
  }

  /** So a broken stream, as every restart of the manager causes it, takes a node out of service that has
      never run anything: it goes with the next heartbeat. */
  lemma BrokenStreamRetires(w: World, n: NodeId, steps: seq<WorldStep>)
    requires WorldInv(w) && n in w.agents && forall j :: InField(w, Tag(n, j)) == 0
    ensures Retired(WorldRun(WorldNext(WorldNext(w, BreakStream(n)), Beat(n)), steps), n)
  {
    var w1 := WorldNext(w, BreakStream(n));
    WorldInvStep(w, BreakStream(n));
    AgentStatusStep(w, BreakStream(n), n);
    BreakLeavesField(w, n);
    HeartbeatRetires(w1, n, steps);
  }

  lemma BreakLeavesField(w: World, n: NodeId)
    requires n in w.agents && forall j :: InField(w, Tag(n, j)) == 0
    ensures forall j :: InField(WorldNext(w, BreakStream(n)), Tag(n, j)) == 0
  {
    forall j ensures InField(WorldNext(w, BreakStream(n)), Tag(n, j)) == 0 { assert InField(w, Tag(n, j)) == 0; }
  }
}
