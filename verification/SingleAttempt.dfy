/** Jobs that ask for one node have at most one attempt under way exactly as long as the manager acts on no
    harmful report from a node that a monitor tick has found silent. */
module SingleAttempt {
  import opened ClusterTypes
  import opened Queueing
  import opened Allocation
  import opened Interleaving
  import opened ManagerModel
  import opened ManagerRuns
  import opened ManagerTheorems
  import opened ClusterModel
  import opened ClusterTheorems
  import opened LaunchAccounts

  /** At most one attempt: either one copy waits and the job is pending, or one command, process or
      report is under way at the one node the job is running on, or neither. Attempts on nodes the
      monitor has given up on do not count. */
  ghost predicate OneAttempt(w: World, j: JobId)
    requires j in w.s.m.jobs
  {
    var row := w.s.m.jobs[j];
    && Waiting(w.s, j) == (if row.status == Pending then 1 else 0)
    && forall n :: n !in w.s.h.detected && InField(w, Tag(n, j)) > 0 ==>
         InField(w, Tag(n, j)) == 1 && row.status == Running && row.assignedNodes == [n]
  }

  /** Something is under way for the job on a node the monitor has not given up on. */
  ghost predicate Live(w: World, n: NodeId, j: JobId) {
    n !in w.s.h.detected && InField(w, Tag(n, j)) > 0
  }

  ghost predicate SingleInv(w: World) {
    forall j :: j in w.s.m.jobs && w.s.m.jobs[j].requiredNodes == 1 ==> OneAttempt(w, j)
  }

  /** The monitor has not given up on the node, or the job is not pending and nothing is under way for it
      on any node the monitor has not given up on. */
  ghost predicate Acceptable(w: World, t: Tag)
    requires t.job in w.s.m.jobs
  {
    t.node !in w.s.h.detected || (w.s.m.jobs[t.job].status != Pending && forall k :: !Live(w, k, t.job))
  }

  ghost predicate IsSingle(w: World, j: JobId) { j in w.s.m.jobs && w.s.m.jobs[j].requiredNodes == 1 }

  /** Any report on a single-node job that the step acts on is acceptable. */
  ghost predicate Harmless(w: World, step: WorldStep) {
    Possible(w, step) && step.ActOnReport? && IsSingle(w, step.t.job) ==> Acceptable(w, step.t)
  }

  ghost predicate HarmlessRun(w: World, steps: seq<WorldStep>)
    decreases |steps|
  {
    steps == [] || (Harmless(w, steps[0]) && HarmlessRun(WorldNext(w, steps[0]), steps[1..]))
  }

  /** The step does not act on a report from a node the monitor has given up on at all. */
  ghost predicate Fenced(w: World, step: WorldStep) {
    step.ActOnReport? ==> step.t.node !in w.s.h.detected
  }

  ghost predicate FencedRun(w: World, steps: seq<WorldStep>)
    decreases |steps|
  {
    steps == [] || (Fenced(w, steps[0]) && FencedRun(WorldNext(w, steps[0]), steps[1..]))
  }

  // ---------- How the field grows ----------

  /** Only newly issued commands enlarge the field. */
  lemma FieldStep(w: World, step: WorldStep, t: Tag)
    requires WorldInv(w)
    ensures InField(WorldNext(w, step), t) + w.s.h.issued[t] <= InField(w, t) + WorldNext(w, step).s.h.issued[t]
  {
    assert Conserved(w, t);
    ConservedStep(w, step, t);
    if Possible(w, step) { BooksGrow(w, step, t); }
  }

  lemma IssuedElsewhere(s: System, step: Step, t: Tag)
    requires !(step.DoPlace? && s.hand.Some? && s.hand.value.id == t.job)
    ensures Next(s, step).h.issued[t] == s.h.issued[t]
  {
    if Enabled(s, step) && step.DoPlace? {
      ChosenDistinct(s, step.w, step.available);
      SentOnce(s.m.commands, s.hand.value.id, Allocate(step.w, step.available, s.hand.value.requiredNodes), 0, t);
    }
  }

  // ---------- Steps that do not concern the job ----------

  lemma DetectedStays(s: System, step: Step)
    ensures Next(s, step).h.detected >= s.h.detected
    ensures !step.DoMonitor? ==> Next(s, step).h.detected == s.h.detected
  {
  }

  /** Nothing new is under way for the job. */
  ghost predicate NoneAdded(w: World, w': World, j: JobId) {
    forall n :: InField(w', Tag(n, j)) <= InField(w, Tag(n, j))
  }

  /** With its row kept and its field not enlarged, a job keeps its one attempt. */
  lemma StillOneAttempt(w: World, w': World, j: JobId)
    requires j in w.s.m.jobs && OneAttempt(w, j)
    requires j in w'.s.m.jobs && w'.s.m.jobs[j] == w.s.m.jobs[j] && Waiting(w'.s, j) == Waiting(w.s, j)
    requires w'.s.h.detected >= w.s.h.detected && NoneAdded(w, w', j)
    ensures OneAttempt(w', j)
  {
  }

  lemma FieldKept(w: World, step: WorldStep, j: JobId)
    requires WorldInv(w)
    requires !(ManagerPart(w, step).DoPlace? && w.s.hand.Some? && w.s.hand.value.id == j)
    ensures NoneAdded(w, WorldNext(w, step), j)
  {
    forall n ensures InField(WorldNext(w, step), Tag(n, j)) <= InField(w, Tag(n, j)) {
      FieldStep(w, step, Tag(n, j));
      IssuedElsewhere(w.s, ManagerPart(w, step), Tag(n, j));
    }
  }

  lemma UnconcernedStep(w: World, step: WorldStep, j: JobId)
    requires WorldInv(w) && Possible(w, step) && j in w.s.m.jobs && OneAttempt(w, j)
    requires !Concerns(w.s, ManagerPart(w, step), j)
    ensures j in WorldNext(w, step).s.m.jobs && OneAttempt(WorldNext(w, step), j)
  {
    FieldKept(w, step, j);
    UntouchedStep(w, step, j);
  }

  lemma UntouchedStep(w: World, step: WorldStep, j: JobId)
    requires Keyed(w.s.m.jobs) && Possible(w, step) && j in w.s.m.jobs && OneAttempt(w, j)
    requires !Concerns(w.s, ManagerPart(w, step), j) && NoneAdded(w, WorldNext(w, step), j)
    ensures j in WorldNext(w, step).s.m.jobs && OneAttempt(WorldNext(w, step), j)
  {
    Unconcerned(w.s, ManagerPart(w, step), j);
    DetectedStays(w.s, ManagerPart(w, step));
    StillOneAttempt(w, WorldNext(w, step), j);
  }

  // ---------- Steps that concern it ----------

  lemma SubmitEffect(s: System, j: JobId, request: JobRequest)
    requires Coherent(Shadow(s)) && j !in s.m.jobs
    ensures var s' := Next(s, DoSubmit(j, request));
            j in s'.m.jobs && s'.m.jobs[j].status == Pending && Waiting(s', j) == 1
    ensures s.h.dispatched[j] == 0
  {
    UnknownNotInPlay(Shadow(s), j);
    assert Known(Shadow(s).dispatched, s.m.jobs);
    CopiesEnqueue(s.m.queue, FromRequest(j, request), j);
  }

  lemma SubmitNew(w: World, j: JobId, request: JobRequest)
    requires WorldInv(w) && j !in w.s.m.jobs
    ensures var w' := WorldNext(w, Manage(DoSubmit(j, request))); j in w'.s.m.jobs && OneAttempt(w', j)
  {
    SubmitEffect(w.s, j, request);
    FieldKept(w, Manage(DoSubmit(j, request)), j);
    NothingUnderWay(w, j);
  }

  lemma NothingUnderWay(w: World, j: JobId)
    requires WorldInv(w) && w.s.h.dispatched[j] == 0
    ensures forall n :: InField(w, Tag(n, j)) == 0
  {
    forall n ensures InField(w, Tag(n, j)) == 0 { assert Conserved(w, Tag(n, j)); }
  }

  lemma SubmitAgain(w: World, j: JobId, request: JobRequest)
    requires WorldInv(w) && j in w.s.m.jobs && OneAttempt(w, j)
    ensures WorldNext(w, Manage(DoSubmit(j, request))) == w
  {
  }

  lemma ReportEffect(s: System, n: NodeId, j: JobId, outcome: Outcome)
    requires Keyed(s.m.jobs) && j in s.m.jobs && s.m.jobs[j].status != Pending && Waiting(s, j) == 0
        && outcome != Unknown
    ensures var s' := Next(s, DoReport(n, j, outcome));
            && j in s'.m.jobs && s'.m.jobs[j].status != Running
            && Waiting(s', j) == (if s'.m.jobs[j].status == Pending then 1 else 0)
            && s'.h.detected == s.h.detected
  {
    CopiesEnqueue(s.m.queue, Retried(FromRow(s.m.jobs[j])), j);
  }

  /** Acting on a report for a job whose only attempt is the one reported, or that has none. */
  lemma ReportedOneAttempt(w: World, w': World, t: Tag, outcome: Outcome)
    requires Keyed(w.s.m.jobs) && t.job in w.s.m.jobs && OneAttempt(w, t.job) && outcome != Unknown
    requires w.s.m.jobs[t.job].status != Pending
    requires w'.s == Next(w.s, DoReport(t.node, t.job, outcome))
    requires forall k :: k !in w.s.h.detected ==> InField(w', Tag(k, t.job)) == 0
    ensures t.job in w'.s.m.jobs && OneAttempt(w', t.job)
  {
    ReportEffect(w.s, t.node, t.job, outcome);
  }

  /** A report on a node that is not given up on is about the job's one attempt. */
  lemma LiveReport(w: World, t: Tag)
    requires t.job in w.s.m.jobs && OneAttempt(w, t.job) && t in w.reports && t.node !in w.s.h.detected
    ensures w.s.m.jobs[t.job].status == Running
    ensures forall k :: Live(w, k, t.job) ==> k == t.node && InField(w, Tag(k, t.job)) == 1
  {
    assert InField(w, Tag(t.node, t.job)) > 0;
    forall k | Live(w, k, t.job) ensures k == t.node {
      assert [k][0] == [t.node][0];
    }
  }

  lemma ReportField(w: World, t: Tag, outcome: Outcome, k: NodeId)
    requires Possible(w, ActOnReport(t, outcome))
    ensures InField(WorldNext(w, ActOnReport(t, outcome)), Tag(k, t.job))
         == InField(w, Tag(k, t.job)) - (if k == t.node then 1 else 0)
  {
  }

  lemma AcceptableReport(w: World, t: Tag, outcome: Outcome)
    requires Keyed(w.s.m.jobs) && t.job in w.s.m.jobs && OneAttempt(w, t.job)
    requires Possible(w, ActOnReport(t, outcome)) && Acceptable(w, t)
    ensures var w' := WorldNext(w, ActOnReport(t, outcome)); t.job in w'.s.m.jobs && OneAttempt(w', t.job)
  {
    if t.node !in w.s.h.detected { LiveReport(w, t); }
    forall k | k !in w.s.h.detected
      ensures InField(WorldNext(w, ActOnReport(t, outcome)), Tag(k, t.job)) == 0
    {
      ReportField(w, t, outcome, k);
      assert Live(w, k, t.job) <==> InField(w, Tag(k, t.job)) > 0;
    }
    ReportedOneAttempt(w, WorldNext(w, ActOnReport(t, outcome)), t, outcome);
  }

  lemma ReportOnPending(s: System, n: NodeId, j: JobId, outcome: Outcome)
    requires Keyed(s.m.jobs) && j in s.m.jobs && Waiting(s, j) == 1 && outcome != Unknown
    ensures var s' := Next(s, DoReport(n, j, outcome));
            j in s'.m.jobs && Waiting(s', j) != (if s'.m.jobs[j].status == Pending then 1 else 0)
  {
    CopiesEnqueue(s.m.queue, Retried(FromRow(s.m.jobs[j])), j);
  }

  lemma NotRunningAfterReport(s: System, n: NodeId, j: JobId, outcome: Outcome)
    requires Keyed(s.m.jobs) && j in s.m.jobs && outcome != Unknown
    ensures var s' := Next(s, DoReport(n, j, outcome)); j in s'.m.jobs && s'.m.jobs[j].status != Running
  {
  }

  /** The exact condition: acting on a report leaves its job with at most one attempt if and only if the
      report is acceptable. */
  lemma ReportHarmlessIff(w: World, t: Tag, outcome: Outcome)
    requires Keyed(w.s.m.jobs) && t.job in w.s.m.jobs && OneAttempt(w, t.job)
    requires Possible(w, ActOnReport(t, outcome))
    ensures var w' := WorldNext(w, ActOnReport(t, outcome));
            t.job in w'.s.m.jobs && (OneAttempt(w', t.job) <==> Acceptable(w, t))
  {
    NotRunningAfterReport(w.s, t.node, t.job, outcome);
    if Acceptable(w, t) {
      AcceptableReport(w, t, outcome);
    } else if w.s.m.jobs[t.job].status == Pending {
      ReportOnPending(w.s, t.node, t.job, outcome);
    } else {
      var k :| Live(w, k, t.job);
      ReportField(w, t, outcome, k);
      assert WorldNext(w, ActOnReport(t, outcome)).s.h.detected == w.s.h.detected;
    }
  }

  lemma PlaceOwn(w: World, weights: Weights, available: seq<NodeRow>, j: JobId)
    requires WorldInv(w) && j in w.s.m.jobs && OneAttempt(w, j) && w.s.m.jobs[j].requiredNodes == 1
    requires Enabled(w.s, DoPlace(weights, available)) && w.s.hand.value.id == j
    ensures var w' := WorldNext(w, Manage(DoPlace(weights, available))); j in w'.s.m.jobs && OneAttempt(w', j)
    ensures w.s.m.jobs[j].status == Pending
  {
    var step := Manage(DoPlace(weights, available));
    var e := w.s.hand.value;
    var chosen := Allocate(weights, available, e.requiredNodes);
    assert HandSeq(w.s.hand)[0] == e && Agrees(e, w.s.m.jobs[j]);
    AllocateSize(weights, available, e.requiredNodes);
    CopiesOne(e, j);
    assert Waiting(w.s, j) >= 1;
    PlaceField(w, weights, available, chosen, j);
    PlaceOwnOn(w.s, chosen, j);
    DetectedStays(w.s, DoPlace(weights, available));
    PlacedOneAttempt(w, WorldNext(w, step), chosen, j);
  }

  lemma PlacedOneAttempt(w: World, w': World, chosen: seq<NodeRow>, j: JobId)
    requires w.s.hand.Some? && w.s.hand.value.id == j && j in w.s.m.jobs && |chosen| <= 1
    requires OneAttempt(w, j) && w.s.m.jobs[j].status == Pending
    requires w'.s == PlaceStep(w.s, w.s.hand.value, chosen) && w'.s.h.detected == w.s.h.detected
    requires forall n :: n !in w.s.h.detected ==>
          InField(w', Tag(n, j)) <= if chosen != [] && chosen[0].id == n then 1 else 0
    ensures j in w'.s.m.jobs && OneAttempt(w', j)
  {
    PlaceOwnOn(w.s, chosen, j);
  }

  lemma PlaceField(w: World, weights: Weights, available: seq<NodeRow>, chosen: seq<NodeRow>, j: JobId)
    requires WorldInv(w) && Enabled(w.s, DoPlace(weights, available)) && w.s.hand.value.id == j
    requires chosen == Allocate(weights, available, w.s.hand.value.requiredNodes) && |chosen| <= 1
    requires forall n :: n !in w.s.h.detected ==> InField(w, Tag(n, j)) == 0
    ensures forall n :: n !in w.s.h.detected ==>
      InField(WorldNext(w, Manage(DoPlace(weights, available))), Tag(n, j))
        <= if chosen != [] && chosen[0].id == n then 1 else 0
  {
    var step := Manage(DoPlace(weights, available));
    forall n | n !in w.s.h.detected
      ensures InField(WorldNext(w, step), Tag(n, j)) <= if chosen != [] && chosen[0].id == n then 1 else 0
    {
      FieldStep(w, step, Tag(n, j));
      IssuedHere(w.s, weights, available, chosen, n);
    }
  }

  lemma IssuedHere(s: System, weights: Weights, available: seq<NodeRow>, chosen: seq<NodeRow>, n: NodeId)
    requires Enabled(s, DoPlace(weights, available))
    requires chosen == Allocate(weights, available, s.hand.value.requiredNodes) && |chosen| <= 1
    ensures var t := Tag(n, s.hand.value.id);
            Next(s, DoPlace(weights, available)).h.issued[t]
              <= s.h.issued[t] + if chosen != [] && chosen[0].id == n then 1 else 0
  {
    SentOnce(s.m.commands, s.hand.value.id, chosen, 0, Tag(n, s.hand.value.id));
  }

  lemma PlaceOwnOn(s: System, chosen: seq<NodeRow>, j: JobId)
    requires s.hand.Some? && s.hand.value.id == j && j in s.m.jobs && |chosen| <= 1
    ensures var s' := PlaceStep(s, s.hand.value, chosen);
            && j in s'.m.jobs
            && (chosen == [] ==> s'.m.jobs[j] == s.m.jobs[j] && Waiting(s', j) == Waiting(s, j))
            && (chosen != [] ==> s'.m.jobs[j].status == Running && s'.m.jobs[j].assignedNodes == [chosen[0].id]
                                 && Waiting(s', j) == Waiting(s, j) - 1)
  {
    CopiesOne(s.hand.value, j);
    CopiesPrepend(s.m.queue, s.hand.value, j);
  }

  lemma TickedOneAttempt(w: World, w': World, timeout: real, rows: seq<JobRow>, j: JobId)
    requires Keyed(w.s.m.jobs) && j in w.s.m.jobs && OneAttempt(w, j) && Enabled(w.s, DoMonitor(timeout, rows))
    requires w'.s == Next(w.s, DoMonitor(timeout, rows))
    requires NoneAdded(w, w', j)
    ensures j in w'.s.m.jobs && OneAttempt(w', j)
  {
    var offline := Detected(w.s.m.nodes, w.s.clock - timeout);
    TickOutcome(w.s, timeout, rows, j);
    TickFrame(w.s, timeout, rows);
    assert w'.s.h.detected == w.s.h.detected + offline;
    if Affected(w.s.m.jobs[j], offline) {
      forall n | n !in w'.s.h.detected ensures InField(w', Tag(n, j)) == 0 {
        if w.s.m.jobs[j].assignedNodes == [n] { assert w.s.m.jobs[j].assignedNodes[0] == n; }
      }
    }
  }

  lemma MonitorOwn(w: World, timeout: real, rows: seq<JobRow>, j: JobId)
    requires WorldInv(w) && j in w.s.m.jobs && OneAttempt(w, j)
    requires Enabled(w.s, DoMonitor(timeout, rows))
    ensures var w' := WorldNext(w, Manage(DoMonitor(timeout, rows)));
            j in w'.s.m.jobs && OneAttempt(w', j)
  {
    FieldKept(w, Manage(DoMonitor(timeout, rows)), j);
    TickedOneAttempt(w, WorldNext(w, Manage(DoMonitor(timeout, rows))), timeout, rows, j);
  }

  lemma RestartOwn(w: World, rows: seq<JobRow>, j: JobId)
    requires WorldInv(w) && j in w.s.m.jobs && OneAttempt(w, j)
    requires Enabled(w.s, DoRestart(rows))
    ensures var w' := WorldNext(w, Manage(DoRestart(rows)));
            j in w'.s.m.jobs && OneAttempt(w', j) && w'.s.m.jobs[j] == w.s.m.jobs[j]
  {
    RecoveredOnce(rows, w.s.m.jobs, j);
    FieldKept(w, Manage(DoRestart(rows)), j);
    StillOneAttempt(w, WorldNext(w, Manage(DoRestart(rows))), j);
  }

  // ---------- Every step ----------

  lemma ManagedStep(w: World, step: Step, j: JobId)
    requires WorldInv(w) && j in w.s.m.jobs && w.s.m.jobs[j].requiredNodes == 1 && OneAttempt(w, j)
    requires Possible(w, Manage(step)) && Concerns(w.s, step, j)
    ensures j in WorldNext(w, Manage(step)).s.m.jobs && OneAttempt(WorldNext(w, Manage(step)), j)
  {
    match step {
      case DoSubmit(id, request) => SubmitAgain(w, j, request);
      case DoPlace(weights, available) => PlaceOwn(w, weights, available, j);
      case DoMonitor(timeout, rows) => MonitorOwn(w, timeout, rows, j);
      case DoRestart(rows) => RestartOwn(w, rows, j);
    }
  }

  /** A harmless step keeps every single-node job in the table at one attempt. */
  lemma KnownJobStep(w: World, step: WorldStep, j: JobId)
    requires WorldInv(w) && j in w.s.m.jobs && w.s.m.jobs[j].requiredNodes == 1 && OneAttempt(w, j)
    requires Harmless(w, step)
    ensures j in WorldNext(w, step).s.m.jobs && OneAttempt(WorldNext(w, step), j)
  {
    if Possible(w, step) {
      if Concerns(w.s, ManagerPart(w, step), j) {
        ConcernedStep(w, step, j);
      } else {
        UnconcernedStep(w, step, j);
      }
    }
  }

  lemma ConcernedStep(w: World, step: WorldStep, j: JobId)
    requires WorldInv(w) && IsSingle(w, j) && OneAttempt(w, j) && Harmless(w, step)
    requires Possible(w, step) && Concerns(w.s, ManagerPart(w, step), j)
    ensures j in WorldNext(w, step).s.m.jobs && OneAttempt(WorldNext(w, step), j)
  {
    match step
    case ActOnReport(t, outcome) => AcceptableReport(w, t, outcome);
    case Manage(inner) => ManagedStep(w, inner, j);
  }

  lemma NewJobStep(w: World, step: WorldStep, j: JobId)
    requires WorldInv(w) && j !in w.s.m.jobs && j in WorldNext(w, step).s.m.jobs
    ensures OneAttempt(WorldNext(w, step), j)
  {
    var share := ManagerPart(w, step);
    KeysStep(w.s, share, j);
    SubmitNew(w, j, share.request);
    assert step == Manage(share);
  }

  lemma SingleStep(w: World, step: WorldStep)
    requires WorldInv(w) && SingleInv(w) && Harmless(w, step)
    ensures SingleInv(WorldNext(w, step))
  {
    var w' := WorldNext(w, step);
    forall j | j in w'.s.m.jobs && w'.s.m.jobs[j].requiredNodes == 1 ensures OneAttempt(w', j) {
      if j in w.s.m.jobs {
        Immutable(w.s, ManagerPart(w, step), j);
        KnownJobStep(w, step, j);
      } else {
        NewJobStep(w, step, j);
      }
    }
  }

  /** The exact condition for one step of the whole system. */
  lemma SingleStepIff(w: World, step: WorldStep)
    requires WorldInv(w) && SingleInv(w)
    ensures SingleInv(WorldNext(w, step)) <==> Harmless(w, step)
  {
    if Harmless(w, step) {
      SingleStep(w, step);
    } else {
      Immutable(w.s, ManagerPart(w, step), step.t.job);
      ReportHarmlessIff(w, step.t, step.outcome);
    }
  }

  lemma {:induction false} SingleRun(w: World, steps: seq<WorldStep>)
    requires WorldInv(w) && SingleInv(w) && HarmlessRun(w, steps)
    ensures WorldInv(WorldRun(w, steps)) && SingleInv(WorldRun(w, steps))
    decreases |steps|
  {
    if steps != [] {
      SingleStep(w, steps[0]);
      WorldInvStep(w, steps[0]);
      SingleRun(WorldNext(w, steps[0]), steps[1..]);
    }
  }

  lemma BeginSingle(nodes: NodeTable, jobs: JobTable, rows: seq<JobRow>, clock: real)
    requires GoodStart(nodes, jobs, rows)
    ensures SingleInv(Begin(nodes, jobs, rows, clock))
  {
    var w := Begin(nodes, jobs, rows, clock);
    forall j | j in jobs ensures OneAttempt(w, j) {
      RecoveredOnce(rows, jobs, j);
    }
  }

  // ---------- The theorems ----------

  /** Single-node jobs have at most one attempt before and after every step of the run. */
  ghost predicate SingleThroughout(w: World, steps: seq<WorldStep>)
    decreases |steps|
  {
    SingleInv(w) && (steps == [] || SingleThroughout(WorldNext(w, steps[0]), steps[1..]))
  }

  /** Over every run, exactly: single-node jobs have at most one attempt throughout if and only if every
      report that is acted on is harmless when its turn comes. */
  lemma {:induction false} SingleThroughoutIff(w: World, steps: seq<WorldStep>)
    requires WorldInv(w) && SingleInv(w)
    ensures SingleThroughout(w, steps) <==> HarmlessRun(w, steps)
    decreases |steps|
  {
    if steps != [] {
      SingleStepIff(w, steps[0]);
      WorldInvStep(w, steps[0]);
      if Harmless(w, steps[0]) { SingleThroughoutIff(WorldNext(w, steps[0]), steps[1..]); }
    }
  }

  /** What having one attempt means: the job is pending exactly when its one copy waits, and then nothing
      is under way for it on a live node; otherwise at most one live node has at most one command, process
      or report for it, and it is running; a finished or given-up job has nothing at all. */
  ghost predicate OneThing(w: World, j: JobId)
    requires j in w.s.m.jobs
  {
    && Waiting(w.s, j) == (if w.s.m.jobs[j].status == Pending then 1 else 0)
    && (forall n :: n !in w.s.h.detected ==> Waiting(w.s, j) + InField(w, Tag(n, j)) <= 1)
    && (forall n, k :: Live(w, n, j) && Live(w, k, j) ==> n == k)
    && (w.s.m.jobs[j].status != Running ==> forall n :: !Live(w, n, j))
  }

  lemma OneAttemptMeans(w: World, j: JobId)
    requires j in w.s.m.jobs && OneAttempt(w, j)
    ensures OneThing(w, j)
  {
    forall n, k | Live(w, n, j) && Live(w, k, j) ensures n == k
    {
      assert [n][0] == [k][0];
    }
  }

  /** Over every harmless run a job that asks for one node has one attempt at a time. */
  lemma SingleNodeJobs(
    nodes: NodeTable, jobs: JobTable, rows: seq<JobRow>, clock: real, steps: seq<WorldStep>, j: JobId)
    requires GoodStart(nodes, jobs, rows) && HarmlessRun(Begin(nodes, jobs, rows, clock), steps)
    ensures var w := WorldRun(Begin(nodes, jobs, rows, clock), steps); IsSingle(w, j) ==> OneThing(w, j)
  {
    BeginInv(nodes, jobs, rows, clock);
    BeginSingle(nodes, jobs, rows, clock);
    SingleRun(Begin(nodes, jobs, rows, clock), steps);
    var w := WorldRun(Begin(nodes, jobs, rows, clock), steps);
    if IsSingle(w, j) { OneAttemptMeans(w, j); }
  }

  /** Refusing every report from a node the monitor has given up on is enough. */
  lemma {:induction false} FencedIsHarmless(w: World, steps: seq<WorldStep>)
    requires FencedRun(w, steps)
    ensures HarmlessRun(w, steps)
    decreases |steps|
  {
    if steps != [] { FencedIsHarmless(WorldNext(w, steps[0]), steps[1..]); }
  }

  /** The monitor gives up on the one node of a running job that has retries left. */
  lemma GivenUp(w: World, timeout: real, rows: seq<JobRow>, n: NodeId, j: JobId)
    requires Keyed(w.s.m.jobs) && Enabled(w.s, DoMonitor(timeout, rows)) && j in w.s.m.jobs
    requires w.s.m.jobs[j].status == Running && w.s.m.jobs[j].assignedNodes == [n]
    requires Overdue(w.s, timeout, n)
    requires w.s.m.jobs[j].retries < w.s.m.jobs[j].maxRetries
    ensures var w1 := WorldNext(w, Manage(DoMonitor(timeout, rows)));
            && j in w1.s.m.jobs && w1.s.m.jobs[j].status == Pending && Waiting(w1.s, j) >= 1
            && w1.s.m.jobs[j].requiredNodes == w.s.m.jobs[j].requiredNodes
            && n in w1.s.h.detected && w1.reports == w.reports && w1.good == w.good
  {
    assert w.s.m.jobs[j].assignedNodes[0] in Detected(w.s.m.nodes, w.s.clock - timeout);
    TickOutcome(w.s, timeout, rows, j);
    TickFrame(w.s, timeout, rows);
  }

  /** The failing input. The monitor gives up on the node of a running job while the node's success report
      is on its way; the report is then acted on, and the job is COMPLETED with a copy in the queue. */
  lemma LateReportUnfenced(w: World, timeout: real, rows: seq<JobRow>, n: NodeId, j: JobId)
    requires Keyed(w.s.m.jobs) && Enabled(w.s, DoMonitor(timeout, rows)) && IsSingle(w, j)
    requires Underway(w, Tag(n, j), Success)
    requires w.s.m.jobs[j].status == Running && w.s.m.jobs[j].assignedNodes == [n]
    requires Overdue(w.s, timeout, n)
    requires w.s.m.jobs[j].retries < w.s.m.jobs[j].maxRetries
    ensures var w1 := WorldNext(w, Manage(DoMonitor(timeout, rows)));
            var late := ActOnReport(Tag(n, j), Success);
            var w2 := WorldNext(w1, late);
            && Possible(w1, late) && !Harmless(w1, late)
            && j in w2.s.m.jobs && w2.s.m.jobs[j].status == Completed && Waiting(w2.s, j) >= 1
  {
    GivenUp(w, timeout, rows, n, j);
  }

  // ---------- When COMPLETED and FAILED are final ----------

  ghost predicate Final(row: JobRow) { row.status == Completed || row.status == Failed }

  /** The report says what the row says already: success of a completed job, or failure of a job that
      was given up with its budget spent. */
  predicate Concordant(row: JobRow, outcome: Outcome) {
    if outcome == Success then row.status == Completed else row.status == Failed && row.retries >= row.maxRetries
  }

  ghost predicate ConcordantStep(w: World, step: WorldStep, j: JobId)
    requires j in w.s.m.jobs
  {
    Possible(w, step) && step.ActOnReport? && step.t.job == j ==> Concordant(w.s.m.jobs[j], step.outcome)
  }

  lemma FinalReport(s: System, n: NodeId, j: JobId, outcome: Outcome)
    requires Keyed(s.m.jobs) && j in s.m.jobs && Final(s.m.jobs[j]) && outcome != Unknown
    ensures var s' := Next(s, DoReport(n, j, outcome));
            && j in s'.m.jobs && (s'.m.jobs[j] == s.m.jobs[j] <==> Concordant(s.m.jobs[j], outcome))
            && (Concordant(s.m.jobs[j], outcome) ==> Waiting(s', j) == Waiting(s, j))
  {
  }

  lemma FinalManaged(s: System, step: Step, j: JobId)
    requires Keyed(s.m.jobs) && j in s.m.jobs && Final(s.m.jobs[j]) && Waiting(s, j) == 0
    requires Enabled(s, step) && Concerns(s, step, j) && !step.DoReport?
    ensures j in Next(s, step).m.jobs && Next(s, step).m.jobs[j] == s.m.jobs[j] && Waiting(Next(s, step), j) == 0
  {
    if s.hand.Some? { CopiesOne(s.hand.value, j); }
    match step {
      case DoSubmit(id, request) =>
      case DoMonitor(timeout, rows) =>
        TickOutcome(s, timeout, rows, j);
        TickFrame(s, timeout, rows);
      case DoRestart(rows) => RecoveredOnce(rows, s.m.jobs, j);
    }
  }

  lemma FinalStep(w: World, step: WorldStep, j: JobId)
    requires Keyed(w.s.m.jobs) && j in w.s.m.jobs && Final(w.s.m.jobs[j]) && Waiting(w.s, j) == 0
    ensures var s' := WorldNext(w, step).s;
            && j in s'.m.jobs && (s'.m.jobs[j] == w.s.m.jobs[j] <==> ConcordantStep(w, step, j))
            && (ConcordantStep(w, step, j) ==> Waiting(s', j) == 0)
  {
    if Possible(w, step) {
      if !Concerns(w.s, ManagerPart(w, step), j) {
        Unconcerned(w.s, ManagerPart(w, step), j);
      } else if step.ActOnReport? {
        FinalReport(w.s, step.t.node, j, step.outcome);
      } else {
        FinalManaged(w.s, step.step, j);
      }
    }
  }

  /** No step of the run changes the job's row. */
  ghost predicate RowKept(w: World, steps: seq<WorldStep>, j: JobId)
    requires j in w.s.m.jobs
    decreases |steps|
  {
    steps == [] ||
    (var w' := WorldNext(w, steps[0]);
     j in w'.s.m.jobs && w'.s.m.jobs[j] == w.s.m.jobs[j] && RowKept(w', steps[1..], j))
  }

  /** Every report about the job that is acted on is concordant. */
  ghost predicate ConcordantRun(w: World, steps: seq<WorldStep>, j: JobId)
    requires j in w.s.m.jobs
    decreases |steps|
  {
    steps == [] ||
    (var w' := WorldNext(w, steps[0]);
     ConcordantStep(w, steps[0], j) && (j in w'.s.m.jobs ==> ConcordantRun(w', steps[1..], j)))
  }

  /** The exact condition for finality, for jobs on any number of nodes: the row of a finished or given-up
      job with no copy left never changes if and only if every later report about it is concordant. */
  lemma {:induction false} FinalKeptIff(w: World, steps: seq<WorldStep>, j: JobId)
    requires WorldInv(w) && j in w.s.m.jobs && Final(w.s.m.jobs[j]) && Waiting(w.s, j) == 0
    ensures RowKept(w, steps, j) <==> ConcordantRun(w, steps, j)
    decreases |steps|
  {
    if steps != [] {
      FinalStep(w, steps[0], j);
      WorldInvStep(w, steps[0]);
      if ConcordantStep(w, steps[0], j) { FinalKeptIff(WorldNext(w, steps[0]), steps[1..], j); }
    }
  }

  lemma FencedFinal(w: World, step: WorldStep, j: JobId)
    requires IsSingle(w, j) && OneAttempt(w, j) && Final(w.s.m.jobs[j]) && Fenced(w, step)
    ensures ConcordantStep(w, step, j)
  {
    if Possible(w, step) && step.ActOnReport? && step.t.job == j { LiveReport(w, step.t); }
  }

  /** In a fenced run a single-node job gets no report any more once it is final. */
  lemma {:induction false} FinalStaysFinal(w: World, steps: seq<WorldStep>, j: JobId)
    requires WorldInv(w) && SingleInv(w) && FencedRun(w, steps)
    requires j in w.s.m.jobs && w.s.m.jobs[j].requiredNodes == 1 && Final(w.s.m.jobs[j])
    ensures RowKept(w, steps, j)
    decreases |steps|
  {
    if steps != [] {
      assert OneAttempt(w, j);
      FencedFinal(w, steps[0], j);
      FinalStep(w, steps[0], j);
      SingleStep(w, steps[0]);
      WorldInvStep(w, steps[0]);
      FinalStaysFinal(WorldNext(w, steps[0]), steps[1..], j);
    }
  }

  /** For a job on several nodes the fence does not help: every failure report within the budget adds a
      copy and reopens the job, whatever its status was. */
  lemma EveryFailureReportRequeues(s: System, n: NodeId, j: JobId)
    requires Inv(s) && j in s.m.jobs
    ensures var s' := Next(s, DoReport(n, j, Failure));
            && j in s'.m.jobs
            && (Waiting(s', j) == Waiting(s, j) + 1 <==> s.m.jobs[j].retries < s.m.jobs[j].maxRetries)
            && (s.m.jobs[j].retries < s.m.jobs[j].maxRetries ==> s'.m.jobs[j].status == Pending)
  {
    assert Keyed(s.m.jobs);
    CopiesEnqueue(s.m.queue, Retried(FromRow(s.m.jobs[j])), j);
  }
}
