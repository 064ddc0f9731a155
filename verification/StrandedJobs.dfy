/** What becomes of a launch that an agent refuses because it is busy with another job. */
module StrandedJobs {
  import opened ClusterTypes
  import opened StableSorting
  import opened Registry
  import opened Queueing
  import opened Allocation
  import opened Agents
  import opened Interleaving
  import opened ManagerModel
  import opened ManagerRuns
  import opened ManagerTheorems
  import opened ClusterModel
  import opened ClusterTheorems
  import opened LaunchAccounts
  import opened SingleAttempt

  // ---------- Double booking ----------

  /** A heartbeat undoes the reservation of a node exactly when its agent still calls itself idle, that is
      when no launch has reached it and its stream has not broken (see `CallsItselfIdleIff`). */
  lemma HeartbeatUnreserves(w: World, n: NodeId)
    requires n in w.agents && n in w.s.m.nodes && !IsIdle(w.s, n)
    ensures IsIdle(WorldNext(w, Beat(n)).s, n) <==> w.agents[n].status == Idle
  {
    IdleIffReleased(w.s, ManagerPart(w, Beat(n)), n);
  }

  /** After such a heartbeat every listing of the idle nodes holds the node, so a job in hand that asks for
      as many nodes as are listed reserves it again. */
  lemma ListedAgain(w: World, weights: Weights, available: seq<NodeRow>, n: NodeId)
    requires n in w.agents && n in w.s.m.nodes && w.s.m.nodes[n].id == n && w.agents[n].status == Idle
    requires Enabled(WorldNext(w, Beat(n)).s, DoPlace(weights, available))
    ensures exists i :: 0 <= i < |available| && available[i].id == n
    ensures w.s.hand.value.requiredNodes == |available| ==>
              ReservesNode(WorldNext(w, Beat(n)).s, DoPlace(weights, available), n)
  {
    var s := WorldNext(w, Beat(n)).s;
    assert MarkOffline(s.m.nodes, s.clock)[n].status == Idle;
    var i :| 0 <= i < |available| && available[i] == MarkOffline(s.m.nodes, s.clock)[n];
    if w.s.hand.value.requiredNodes == |available| {
      AllTaken(weights, available, i);
    }
  }

  lemma AllTaken(weights: Weights, available: seq<NodeRow>, i: nat)
    requires i < |available|
    ensures exists k :: 0 <= k < |Allocate(weights, available, |available|)|
                     && Allocate(weights, available, |available|)[k] == available[i]
  {
    var key := KeyOf(ScoreOf(weights));
    AllocateSize(weights, available, |available|);
    SortElements(available, key);
    assert Allocate(weights, available, |available|) == Sort(available, key);
    assert available[i] in multiset(Sort(available, key));
  }

  /** A command that arrives at an agent without a live process makes it occupied and is not refused. */
  lemma FirstArrival(w: World, n: NodeId)
    requires Possible(w, Deliver(n)) && !Occupied(w.agents[n])
    ensures var w' := WorldNext(w, Deliver(n));
            && n in w'.agents && Occupied(w'.agents[n]) && w'.refused == w.refused && w'.s.h.detected == w.s.h.detected
            && n in w'.s.m.commands && w'.s.m.commands[n] == w.s.m.commands[n][1..]
  {
  }

  lemma LaterArrival(w: World, n: NodeId)
    requires Possible(w, Deliver(n)) && Occupied(w.agents[n])
    ensures WorldNext(w, Deliver(n)).refused == w.refused + multiset{Tag(n, w.s.m.commands[n][0].job)}
  {
  }

  /** A dispatch on a node puts one launch behind the commands waiting there. */
  lemma LaunchJoinsQueue(s: System, weights: Weights, available: seq<NodeRow>, n: NodeId)
    requires Inv(s) && ReservesNode(s, DoPlace(weights, available), n) && n in s.m.commands
    ensures var s' := Next(s, DoPlace(weights, available));
            && n in s'.m.commands && |s'.m.commands[n]| == |s.m.commands[n]| + 1
            && s'.m.commands[n][..|s.m.commands[n]|] == s.m.commands[n]
            && s'.m.commands[n][|s.m.commands[n]|].job == s.hand.value.id
  {
    GangLaunch(s, weights, available);
    var chosen := Allocate(weights, available, s.hand.value.requiredNodes);
    var rank :| 0 <= rank < |chosen| && chosen[rank].id == n;
  }

  /** The node after a second booking: two launches wait at an agent that runs nothing. */
  ghost predicate BookedTwice(w: World, n: NodeId) {
    && n in w.agents && !Occupied(w.agents[n])
    && n in w.s.m.commands && |w.s.m.commands[n]| == 2
  }

  lemma BeatLeaves(w: World, n: NodeId)
    requires n in w.agents
    ensures var w' := WorldNext(w, Beat(n));
            && w'.agents == w.agents && w'.refused == w.refused && w'.s.h == w.s.h
            && w'.s.m.commands == w.s.m.commands && w'.s.hand == w.s.hand
  {
  }

  lemma PlaceLeaves(w: World, weights: Weights, available: seq<NodeRow>)
    ensures var w' := WorldNext(w, Manage(DoPlace(weights, available)));
            w'.agents == w.agents && w'.refused == w.refused && w'.s.h.detected == w.s.h.detected
  {
  }

  /** A second booking is a dispatch on a node where one launch waits at an agent that runs nothing. */
  lemma BookAgain(w: World, weights: Weights, available: seq<NodeRow>, n: NodeId)
    requires Inv(w.s) && n in w.agents && !Occupied(w.agents[n]) && n in w.s.m.commands && |w.s.m.commands[n]| == 1
    requires ReservesNode(w.s, DoPlace(weights, available), n)
    ensures var w' := WorldNext(w, Manage(DoPlace(weights, available)));
            && BookedTwice(w', n) && w'.s.m.commands[n][1].job == w.s.hand.value.id
            && w'.refused == w.refused && w'.s.h.detected == w.s.h.detected
  {
    LaunchJoinsQueue(w.s, weights, available, n);
    PlaceLeaves(w, weights, available);
  }

  /** The failing input, first half. A reserved node whose launch has not been delivered sends a heartbeat;
      the next dispatch that picks it books it a second time. */
  lemma SecondBooking(w: World, weights: Weights, available: seq<NodeRow>, n: NodeId)
    requires WorldInv(w) && n in w.agents && !Occupied(w.agents[n]) && n in w.s.m.commands && |w.s.m.commands[n]| == 1
    requires ReservesNode(WorldNext(w, Beat(n)).s, DoPlace(weights, available), n)
    ensures var w' := WorldNext(WorldNext(w, Beat(n)), Manage(DoPlace(weights, available)));
            && BookedTwice(w', n) && w'.s.m.commands[n][1].job == w.s.hand.value.id
            && w'.refused == w.refused && w'.s.h.detected == w.s.h.detected
  {
    WorldInvStep(w, Beat(n));
    BeatLeaves(w, n);
    BookAgain(WorldNext(w, Beat(n)), weights, available, n);
  }

  /** Second half. Both launches are delivered; the first occupies the agent and the second is refused. */
  lemma SecondLaunchRefused(w: World, n: NodeId)
    requires BookedTwice(w, n)
    ensures var w1 := WorldNext(w, Deliver(n));
            && Possible(w, Deliver(n)) && Possible(w1, Deliver(n)) && Occupied(w1.agents[n])
            && w1.s.m.commands[n][0] == w.s.m.commands[n][1]
            && WorldNext(w1, Deliver(n)).refused == w.refused + multiset{Tag(n, w.s.m.commands[n][1].job)}
  {
    FirstArrival(w, n);
    LaterArrival(WorldNext(w, Deliver(n)), n);
  }

  /** What the argument below carries from step to step. */
  ghost predicate Sound(w: World, j: JobId) { WorldInv(w) && SingleInv(w) && IsSingle(w, j) }

  lemma SoundStep(w: World, step: WorldStep, j: JobId)
    requires Sound(w, j) && !step.ActOnReport?
    ensures Sound(WorldNext(w, step), j)
  {
    WorldInvStep(w, step);
    SingleStep(w, step);
    Immutable(w.s, ManagerPart(w, step), j);
  }

  lemma TwoDeliveries(w: World, n: NodeId)
    requires BookedTwice(w, n) && Sound(w, w.s.m.commands[n][1].job) && n !in w.s.h.detected
    ensures var j := w.s.m.commands[n][1].job;
            var w' := WorldNext(WorldNext(w, Deliver(n)), Deliver(n));
            w'.refused == w.refused + multiset{Tag(n, j)} && Stranded(w', j, n)
  {
    SecondLaunchRefused(w, n);
    FirstArrival(w, n);
    SoundStep(w, Deliver(n), w.s.m.commands[n][1].job);
    RefusalStrandsIff(WorldNext(w, Deliver(n)), n);
  }

  /** Together: heartbeat, dispatch and two deliveries end with the second job's launch refused and the job
      stranded. The first job's launch, delivered before it, occupies the agent. */
  lemma DoubleBooking(w: World, weights: Weights, available: seq<NodeRow>, n: NodeId)
    requires w.s.hand.Some? && Sound(w, w.s.hand.value.id) && n !in w.s.h.detected
    requires n in w.agents && w.agents[n].status == Idle && !Occupied(w.agents[n])
    requires n in w.s.m.nodes && !IsIdle(w.s, n) && n in w.s.m.commands && |w.s.m.commands[n]| == 1
    requires ReservesNode(WorldNext(w, Beat(n)).s, DoPlace(weights, available), n)
    ensures var j := w.s.hand.value.id;
            var w' := WorldRun(w, [Beat(n), Manage(DoPlace(weights, available)), Deliver(n), Deliver(n)]);
            w'.refused == w.refused + multiset{Tag(n, j)} && Stranded(w', j, n)
  {
    var j, place := w.s.hand.value.id, Manage(DoPlace(weights, available));
    SecondBooking(w, weights, available, n);
    SoundStep(w, Beat(n), j);
    SoundStep(WorldNext(w, Beat(n)), place, j);
    TwoDeliveries(WorldNext(WorldNext(w, Beat(n)), place), n);
    FourSteps(w, Beat(n), place, Deliver(n), Deliver(n));
  }

  lemma FourSteps(w: World, a: WorldStep, b: WorldStep, c: WorldStep, d: WorldStep)
    ensures WorldRun(w, [a, b, c, d]) == WorldNext(WorldNext(WorldNext(WorldNext(w, a), b), c), d)
  {
    var w2 := WorldNext(WorldNext(w, a), b);
    assert [a, b, c, d][1..] == [b, c, d] && [b, c, d][1..] == [c, d];
    assert [c, d][1..] == [d] && [d][1..] == [];
    assert WorldRun(w, [a, b, c, d]) == WorldRun(w2, [c, d]);
    assert WorldRun(WorldNext(w2, c), [d]) == WorldRun(WorldNext(WorldNext(w2, c), d), []);
  }

  // ---------- Stranded jobs ----------

  /** The job runs on node `n` by the table, but nothing is queued, running or being reported for it on
      any node the monitor has not given up on. */
  ghost predicate Stranded(w: World, j: JobId, n: NodeId) {
    && j in w.s.m.jobs && w.s.m.jobs[j].requiredNodes == 1
    && w.s.m.jobs[j].status == Running && w.s.m.jobs[j].assignedNodes == [n]
    && Waiting(w.s, j) == 0
    && forall k :: !Live(w, k, j)
  }

  lemma RefusalTakes(w: World, n: NodeId)
    requires Possible(w, Deliver(n)) && Occupied(w.agents[n])
    ensures var j := w.s.m.commands[n][0].job;
            && InField(WorldNext(w, Deliver(n)), Tag(n, j)) == InField(w, Tag(n, j)) - 1
            && forall k :: k != n ==> InField(WorldNext(w, Deliver(n)), Tag(k, j)) == InField(w, Tag(k, j))
  {
    var q := w.s.m.commands[n];
    TagsNode(n, q, Tag(n, q[0].job));
  }

  /** A launch of a single-node job that reaches its agent strands the job if and only if the agent is busy
      and refuses it. */
  lemma RefusalStrandsIff(w: World, n: NodeId)
    requires WorldInv(w) && SingleInv(w) && Possible(w, Deliver(n)) && n !in w.s.h.detected
    requires IsSingle(w, w.s.m.commands[n][0].job)
    ensures Stranded(WorldNext(w, Deliver(n)), w.s.m.commands[n][0].job, n) <==> Occupied(w.agents[n])
  {
    var j := w.s.m.commands[n][0].job;
    assert OneAttempt(w, j) && OneProcess(w.agents[n]);
    if Occupied(w.agents[n]) {
      RefusalStrands(w, n);
    } else {
      ReceiveAlive(w.agents, n, j, Tag(n, j));
      assert Live(WorldNext(w, Deliver(n)), n, j);
    }
  }

  lemma RefusalStrands(w: World, n: NodeId)
    requires Possible(w, Deliver(n)) && Occupied(w.agents[n]) && n !in w.s.h.detected
    requires var j := w.s.m.commands[n][0].job; IsSingle(w, j) && OneAttempt(w, j)
    ensures Stranded(WorldNext(w, Deliver(n)), w.s.m.commands[n][0].job, n)
  {
    var j := w.s.m.commands[n][0].job;
    RefusalTakes(w, n);
    assert InField(w, Tag(n, j)) > 0;
    forall k ensures !Live(WorldNext(w, Deliver(n)), k, j) {
      if Live(w, k, j) { assert w.s.m.jobs[j].assignedNodes[0] == k; }
    }
  }

  lemma StrandedStep(w: World, step: WorldStep, j: JobId, n: NodeId)
    requires WorldInv(w) && Fenced(w, step) && Stranded(w, j, n)
    requires n !in WorldNext(w, step).s.h.detected
    ensures Stranded(WorldNext(w, step), j, n) && WorldNext(w, step).s.m.jobs[j] == w.s.m.jobs[j]
  {
    if Possible(w, step) {
      if Concerns(w.s, ManagerPart(w, step), j) {
        StrandedConcerned(w, step, j, n);
      } else {
        Unconcerned(w.s, ManagerPart(w, step), j);
      }
      StrandedField(w, step, j);
    }
  }

  lemma StrandedConcerned(w: World, step: WorldStep, j: JobId, n: NodeId)
    requires Keyed(w.s.m.jobs) && Fenced(w, step) && Stranded(w, j, n) && Possible(w, step)
    requires Concerns(w.s, ManagerPart(w, step), j) && n !in WorldNext(w, step).s.h.detected
    ensures var s' := WorldNext(w, step).s; j in s'.m.jobs && s'.m.jobs[j] == w.s.m.jobs[j] && Waiting(s', j) == 0
  {
    match step
    case ActOnReport(t, outcome) => assert Live(w, t.node, j);
    case Manage(inner) => StrandedManaged(w.s, inner, j, n);
  }

  lemma StrandedManaged(s: System, step: Step, j: JobId, n: NodeId)
    requires Keyed(s.m.jobs) && j in s.m.jobs && s.m.jobs[j].status == Running && s.m.jobs[j].assignedNodes == [n]
    requires Waiting(s, j) == 0 && Enabled(s, step) && Concerns(s, step, j) && !step.DoReport?
    requires n !in Next(s, step).h.detected
    ensures j in Next(s, step).m.jobs && Next(s, step).m.jobs[j] == s.m.jobs[j] && Waiting(Next(s, step), j) == 0
  {
    if s.hand.Some? { CopiesOne(s.hand.value, j); }
    match step {
      case DoSubmit(id, request) =>
      case DoMonitor(timeout, rows) =>
        TickOutcome(s, timeout, rows, j);
        TickFrame(s, timeout, rows);
      case DoRestart(rows) => RecoveredOnce(rows, s.m.jobs, j);
    }
  }

  lemma StrandedField(w: World, step: WorldStep, j: JobId)
    requires WorldInv(w) && j in w.s.m.jobs && Waiting(w.s, j) == 0 && forall k :: !Live(w, k, j)
    ensures forall k :: !Live(WorldNext(w, step), k, j)
  {
    if w.s.hand.Some? { CopiesOne(w.s.hand.value, j); }
    FieldKept(w, step, j);
    DetectedStays(w.s, ManagerPart(w, step));
    forall k ensures !Live(WorldNext(w, step), k, j) { assert !Live(w, k, j); }
  }

  /** And a stranded job stays as it is, RUNNING with nothing under way, through any run in which no
      monitor tick finds its node silent, however long: the agent is alive, sends heartbeats, and will
      never say anything about the job. */
  lemma {:induction false} StrandedUntilDetected(w: World, steps: seq<WorldStep>, j: JobId, n: NodeId)
    requires WorldInv(w) && FencedRun(w, steps) && Stranded(w, j, n)
    requires n !in WorldRun(w, steps).s.h.detected
    ensures Stranded(WorldRun(w, steps), j, n) && WorldRun(w, steps).s.m.jobs[j] == w.s.m.jobs[j]
    decreases |steps|
  {
    if steps != [] {
      if n in WorldNext(w, steps[0]).s.h.detected { DetectedGrows(WorldNext(w, steps[0]), steps[1..], n); }
      StrandedStep(w, steps[0], j, n);
      WorldInvStep(w, steps[0]);
      StrandedUntilDetected(WorldNext(w, steps[0]), steps[1..], j, n);
    }
  }

  lemma {:induction false} DetectedGrows(w: World, steps: seq<WorldStep>, n: NodeId)
    requires n in w.s.h.detected
    ensures n in WorldRun(w, steps).s.h.detected
    decreases |steps|
  {
    if steps != [] {
      DetectedStays(w.s, ManagerPart(w, steps[0]));
      DetectedGrows(WorldNext(w, steps[0]), steps[1..], n);
    }
  }
}
