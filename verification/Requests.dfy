/** What a client asked for is what is filed, what is dispatched and what is launched, for as long as the job
    exists. */
module Requests {
  import opened ClusterTypes
  import opened Queueing
  import opened Allocation
  import opened Interleaving
  import opened ManagerModel
  import opened ManagerRuns
  import opened ManagerTheorems
  import opened LaunchAccounts

  // ---------- The submission ----------

  /** An accepted submission files the request, pending, without retries or nodes, created now, and queues one
      entry with the same numbers and neither sort key. */
  lemma SubmissionFiled(s: System, id: JobId, request: JobRequest)
    requires id !in s.m.jobs
    ensures var m' := Next(s, DoSubmit(id, request)).m;
            && m'.jobs == s.m.jobs[id :=
                 JobRow(id, Pending, request.requiredNodes, [], 0, s.clock, 0, request.maxRetries, request.script)]
            && Arranges(m'.queue, s.m.queue +
                 [Entry(id, request.requiredNodes, None, None, None, request.maxRetries, request.script)])
            && m'.queued == s.m.queued + 1 && m'.running == s.m.running
            && m'.nodes == s.m.nodes && m'.commands == s.m.commands
  {
    ArrangedIff(Enqueue(s.m.queue, FromRequest(id, request)), s.m.queue + [FromRequest(id, request)]);
  }

  /** A taken identifier changes nothing. */
  lemma SubmissionRefused(s: System, id: JobId, request: JobRequest)
    requires id in s.m.jobs
    ensures Next(s, DoSubmit(id, request)) == s
  {
  }

  // ---------- Columns that never change ----------

  /** The row still says what was asked for. */
  predicate Answers(row: JobRow, request: JobRequest, created: real) {
    && row.requiredNodes == request.requiredNodes && row.maxRetries == request.maxRetries
    && row.script == request.script && row.priority == 0 && row.createdAt == created
  }

  lemma {:induction false} StillAnswers(s: System, steps: seq<Step>, id: JobId, request: JobRequest, created: real)
    requires Inv(s) && id in s.m.jobs && Answers(s.m.jobs[id], request, created)
    ensures id in Run(s, steps).m.jobs && Answers(Run(s, steps).m.jobs[id], request, created)
    decreases |steps|
  {
    if steps != [] {
      Immutable(s, steps[0], id);
      InvStep(s, steps[0]);
      StillAnswers(Next(s, steps[0]), steps[1..], id, request, created);
    }
  }

  // ---------- Commands ----------

  /** The command carries the node count and the script of the row of its job. */
  ghost predicate Carries(c: Command, jobs: JobTable) {
    c.job in jobs && c.nnodes == jobs[c.job].requiredNodes && c.script == jobs[c.job].script
  }

  ghost predicate AllCarry(commands: CommandQueues, jobs: JobTable) {
    forall n, c :: n in commands && c in commands[n] ==> Carries(c, jobs)
  }

  lemma {:induction false} SentCarry(commands: CommandQueues, e: Entry, chosen: seq<NodeRow>, rank: nat, jobs: JobTable)
    requires rank <= |chosen| && AllCarry(commands, jobs) && e.id in jobs && Agrees(e, jobs[e.id])
    ensures AllCarry(SendFrom(commands, e, chosen, rank), jobs)
    decreases |chosen| - rank
  {
    if rank < |chosen| {
      var c := Launch(e, chosen, rank);
      var commands' := Send(commands, chosen[rank].id, c);
      assert Carries(c, jobs);
      forall n, d | n in commands' && d in commands'[n] ensures Carries(d, jobs) {
        if d != c { assert n in commands && d in commands[n]; }
      }
      SentCarry(commands', e, chosen, rank + 1, jobs);
    }
  }

  lemma CarryOn(commands: CommandQueues, jobs: JobTable, later: JobTable)
    requires AllCarry(commands, jobs)
    requires forall j :: j in jobs ==> j in later && Agrees(FromRow(jobs[j]), later[j])
    ensures AllCarry(commands, later)
  {
    forall n, c | n in commands && c in commands[n] ensures Carries(c, later) { assert Carries(c, jobs); }
  }

  /** The commands after a step, judged by the rows before it. */
  lemma CommandsAfter(s: System, step: Step)
    requires Coherent(Shadow(s)) && AllCarry(s.m.commands, s.m.jobs)
    ensures AllCarry(Next(s, step).m.commands, s.m.jobs)
  {
    if Enabled(s, step) {
      match step
      case DoPlace(w, available) =>
        assert HandSeq(s.hand)[0] == s.hand.value;
        SentCarry(s.m.commands, s.hand.value, Allocate(w, available, s.hand.value.requiredNodes), 0, s.m.jobs);
      case DoMonitor(timeout, rows) => FailOverAllFrame(s.m, rows, Detected(s.m.nodes, s.clock - timeout));
      case DoTake(n) => assert forall c :: c in s.m.commands[n][1..] ==> c in s.m.commands[n];
      case _ =>
    }
  }

  lemma CarryStep(s: System, step: Step)
    requires Inv(s) && AllCarry(s.m.commands, s.m.jobs)
    ensures AllCarry(Next(s, step).m.commands, Next(s, step).m.jobs)
  {
    CommandsAfter(s, step);
    forall j | j in s.m.jobs ensures j in Next(s, step).m.jobs
        && Agrees(FromRow(s.m.jobs[j]), Next(s, step).m.jobs[j]) {
      Immutable(s, step, j);
    }
    CarryOn(Next(s, step).m.commands, s.m.jobs, Next(s, step).m.jobs);
  }

  lemma {:induction false} CarryRun(s: System, steps: seq<Step>)
    requires Inv(s) && AllCarry(s.m.commands, s.m.jobs)
    ensures Inv(Run(s, steps)) && AllCarry(Run(s, steps).m.commands, Run(s, steps).m.jobs)
    decreases |steps|
  {
    if steps != [] {
      CarryStep(s, steps[0]);
      InvStep(s, steps[0]);
      CarryRun(Next(s, steps[0]), steps[1..]);
    }
  }

  // ---------- The theorems ----------

  /** What has become of a request: the row answers it; dispatches and launches keep to its numbers; and every
      launch waiting for any agent carries its node count and its script. */
  ghost predicate Honoured(s: System, id: JobId, request: JobRequest, created: real) {
    var attempts := 1 + if request.maxRetries >= 0 then request.maxRetries else 0;
    && id in s.m.jobs && Answers(s.m.jobs[id], request, created)
    && s.h.dispatched[id] <= attempts
    && (request.requiredNodes >= 0 ==> OfJob(s.h.issued, id) <= request.requiredNodes * attempts)
    && (forall n, c :: n in s.m.commands && c in s.m.commands[n] && c.job == id ==>
          c.nnodes == request.requiredNodes && c.script == request.script)
  }

  /** A request accepted at any time is honoured at any later time. */
  lemma RequestHonoured(
      nodes: NodeTable, jobs: JobTable, rows: seq<JobRow>, clock: real,
      before: seq<Step>, id: JobId, request: JobRequest, after: seq<Step>)
    requires GoodStart(nodes, jobs, rows) && id !in Run(Start(nodes, jobs, rows, clock), before).m.jobs
    ensures var s := Run(Start(nodes, jobs, rows, clock), before);
            Honoured(Run(Next(s, DoSubmit(id, request)), after), id, request, s.clock)
  {
    var start := Start(nodes, jobs, rows, clock);
    var s := Run(start, before);
    StartInv(nodes, jobs, rows, clock);
    StartLaunch(nodes, jobs, rows, clock);
    LaunchRun(start, before);
    CarryRun(start, before);
    HonouredAfter(s, id, request, after);
  }

  lemma HonouredAfter(s: System, id: JobId, request: JobRequest, steps: seq<Step>)
    requires Inv(s) && LaunchInv(s) && AllCarry(s.m.commands, s.m.jobs) && id !in s.m.jobs
    ensures Honoured(Run(Next(s, DoSubmit(id, request)), steps), id, request, s.clock)
  {
    var s1 := Next(s, DoSubmit(id, request));
    SubmissionFiled(s, id, request);
    InvStep(s, DoSubmit(id, request));
    LaunchStep(s, DoSubmit(id, request));
    CarryStep(s, DoSubmit(id, request));
    LaunchRun(s1, steps);
    CarryRun(s1, steps);
    StillAnswers(s1, steps, id, request, s.clock);
    HonouredNow(Run(s1, steps), id, request, s.clock);
  }

  lemma HonouredNow(s: System, id: JobId, request: JobRequest, created: real)
    requires Inv(s) && LaunchInv(s) && AllCarry(s.m.commands, s.m.jobs)
    requires id in s.m.jobs && Answers(s.m.jobs[id], request, created)
    ensures Honoured(s, id, request, created)
  {
    AccountsOf(s, id);
    if request.requiredNodes >= 0 { WithinBudget(s, id, s.h.dispatched[id]); }
    forall n, c | n in s.m.commands && c in s.m.commands[n] && c.job == id
      ensures c.nnodes == request.requiredNodes && c.script == request.script
    {
      assert Carries(c, s.m.jobs);
    }
  }

  /** The job's nodes are as many different ones as were asked for, and each of them that has a command
      queue has just been given one launch with its rank, the node count, the registered address of the
      node of rank 0, and the script. */
  ghost predicate LaunchedAsAsked(s: System, s': System, id: JobId, request: JobRequest)
    requires id in s'.m.jobs
  {
    var ids := s'.m.jobs[id].assignedNodes;
    && ids != [] && (request.requiredNodes >= 0 ==> |ids| == request.requiredNodes)
    && (forall i, k :: 0 <= i < k < |ids| ==> ids[i] != ids[k])
    && ids[0] in s.m.nodes && s'.m.commands.Keys == s.m.commands.Keys
    && (forall rank :: 0 <= rank < |ids| && ids[rank] in s.m.commands ==>
          s'.m.commands[ids[rank]] == s.m.commands[ids[rank]]
            + [Command(id, rank, request.requiredNodes, s.m.nodes[ids[0]].ip, request.script)])
    && (forall n :: n in s.m.commands && n !in ids ==> s'.m.commands[n] == s.m.commands[n])
  }

  lemma AsAsked(s: System, s': System, chosen: seq<NodeRow>, id: JobId, request: JobRequest)
    requires id in s'.m.jobs && s'.m.jobs[id].assignedNodes == NodeIds(chosen) && chosen != []
    requires request.requiredNodes >= 0 ==> |chosen| == request.requiredNodes
    requires forall i, k :: 0 <= i < k < |chosen| ==> chosen[i].id != chosen[k].id
    requires chosen[0].id in s.m.nodes && s.m.nodes[chosen[0].id] == chosen[0]
    requires s'.m.commands.Keys == s.m.commands.Keys
    requires forall rank :: 0 <= rank < |chosen| && chosen[rank].id in s.m.commands ==>
               s'.m.commands[chosen[rank].id] == s.m.commands[chosen[rank].id]
                 + [Command(id, rank, request.requiredNodes, chosen[0].ip, request.script)]
    requires forall n :: n in s.m.commands && (forall i :: 0 <= i < |chosen| ==> chosen[i].id != n) ==>
               s'.m.commands[n] == s.m.commands[n]
    ensures LaunchedAsAsked(s, s', id, request)
  {
    var ids := NodeIds(chosen);
    forall n | n in s.m.commands && n !in ids ensures s'.m.commands[n] == s.m.commands[n] {
      assert forall i :: 0 <= i < |chosen| ==> ids[i] != n;
    }
  }

  /** And each dispatch of the job takes exactly the nodes and gives exactly the launches that were asked for. */
  lemma RequestDispatched(s: System, w: Weights, available: seq<NodeRow>, id: JobId, request: JobRequest, created: real)
    requires Inv(s) && Enabled(s, DoPlace(w, available)) && s.hand.value.id == id
    requires id in s.m.jobs && Answers(s.m.jobs[id], request, created)
    requires Allocate(w, available, s.hand.value.requiredNodes) != []
    ensures id in Next(s, DoPlace(w, available)).m.jobs
    ensures LaunchedAsAsked(s, Next(s, DoPlace(w, available)), id, request)
  {
    HandAnswers(s, request, created);
    GangLaunch(s, w, available);
    ChosenAreFresh(s, w, available, 0);
    AsAsked(s, Next(s, DoPlace(w, available)), Allocate(w, available, s.hand.value.requiredNodes), id, request);
  }

  lemma HandAnswers(s: System, request: JobRequest, created: real)
    requires Coherent(Shadow(s)) && s.hand.Some? && s.hand.value.id in s.m.jobs
    requires Answers(s.m.jobs[s.hand.value.id], request, created)
    ensures s.hand.value.requiredNodes == request.requiredNodes && s.hand.value.script == request.script
  {
    assert HandSeq(s.hand)[0] == s.hand.value;
  }
}
