/** What holds over every run of the manager together with its agents. */
module ClusterTheorems {
  import opened ClusterTypes
  import opened Allocation
  import opened Agents
  import opened Interleaving
  import opened ManagerModel
  import opened ManagerRuns
  import opened ClusterModel

  // ---------- Counting commands and processes ----------

  /** The launches of a job waiting in a node's command queue. */
  function Queued(commands: CommandQueues, t: Tag): nat {
    if t.node in commands then Tags(t.node, commands[t.node])[t] else 0
  }

  /** The live processes of a job on a node; an agent has at most one process. */
  ghost function Alive(agents: map<NodeId, AgentState>, t: Tag): nat {
    if t.node in agents && exists p :: p in agents[t.node].live && p.job == t.job then 1 else 0
  }

  /** Commands, processes and reports of a job on a node that have not played out yet. */
  ghost function InField(w: World, t: Tag): nat {
    Queued(w.s.m.commands, t) + Alive(w.agents, t) + w.reports[t]
  }

  lemma {:induction false} TagsAppend(n: NodeId, q: seq<Command>, c: Command)
    ensures Tags(n, q + [c]) == Tags(n, q) + multiset{Tag(n, c.job)}
  {
    if q == [] {
      assert [] + [c] == [c] && [c][1..] == [];
    } else {
      TagsAppend(n, q[1..], c);
      assert (q + [c])[0] == q[0] && (q + [c])[1..] == q[1..] + [c];
    }
  }

  lemma {:induction false} TagsNode(n: NodeId, q: seq<Command>, t: Tag)
    ensures t.node != n ==> Tags(n, q)[t] == 0
  {
    if q != [] { TagsNode(n, q[1..], t); }
  }

  lemma {:induction false} AllTagsCount(commands: CommandQueues, t: Tag)
    ensures AllTags(commands)[t] == Queued(commands, t)
    decreases |commands.Keys|
  {
    if commands != map[] {
      var n :| n in commands && AllTags(commands) == Tags(n, commands[n]) + AllTags(commands - {n});
      assert (commands - {n}).Keys == commands.Keys - {n};
      AllTagsCount(commands - {n}, t);
      TagsNode(n, commands[n], t);
    }
  }

  lemma SendCount(commands: CommandQueues, n: NodeId, c: Command, t: Tag)
    ensures Queued(Send(commands, n, c), t)
         == Queued(commands, t) + (if n in commands && t == Tag(n, c.job) then 1 else 0)
  {
    if n in commands { TagsAppend(n, commands[n], c); }
  }

  lemma {:induction false} SentSameKeys(a: CommandQueues, b: CommandQueues, j: JobId, chosen: seq<NodeRow>, rank: nat)
    requires rank <= |chosen| && a.Keys == b.Keys
    ensures SentFrom(a, j, chosen, rank) == SentFrom(b, j, chosen, rank)
    decreases |chosen| - rank
  {
    if rank < |chosen| {
      SentSameKeys(a, b, j, chosen, rank + 1);
      assert chosen[rank].id in a <==> chosen[rank].id in b;
    }
  }

  lemma {:induction false} SendFromCount(commands: CommandQueues, e: Entry, chosen: seq<NodeRow>, rank: nat, t: Tag)
    requires rank <= |chosen|
    ensures Queued(SendFrom(commands, e, chosen, rank), t)
         == Queued(commands, t) + SentFrom(commands, e.id, chosen, rank)[t]
    decreases |chosen| - rank
  {
    if rank < |chosen| {
      var commands' := Send(commands, chosen[rank].id, Launch(e, chosen, rank));
      SendCount(commands, chosen[rank].id, Launch(e, chosen, rank), t);
      SendFromCount(commands', e, chosen, rank + 1, t);
      SentSameKeys(commands, commands', e.id, chosen, rank + 1);
    }
  }

  // ---------- The command ledger of the manager ----------

  /** Commands issued and not accounted for by the manager itself. */
  ghost function Outstanding(s: System, t: Tag): int { s.h.issued[t] - s.h.dropped[t] - Queued(s.m.commands, t) }

  ghost predicate Takes(s: System, step: Step, t: Tag) {
    step.DoTake? && Enabled(s, step) && t == Tag(step.n, s.m.commands[step.n][0].job)
  }

  lemma PlaceLedger(s: System, chosen: seq<NodeRow>, t: Tag)
    requires s.hand.Some?
    ensures Outstanding(PlaceStep(s, s.hand.value, chosen), t) == Outstanding(s, t)
  {
    SendFromCount(s.m.commands, s.hand.value, chosen, 0, t);
  }

  lemma TakeLedger(s: System, n: NodeId, t: Tag)
    requires Enabled(s, DoTake(n))
    ensures Outstanding(Next(s, DoTake(n)), t) == Outstanding(s, t) + (if Takes(s, DoTake(n), t) then 1 else 0)
  {
    TagsNode(n, s.m.commands[n], t);
    TagsNode(n, s.m.commands[n][1..], t);
  }

  lemma RegisterLedger(s: System, row: NodeRow, t: Tag)
    ensures Outstanding(Next(s, DoRegister(row)), t) == Outstanding(s, t)
  {
    if row.id in s.m.commands { TagsNode(row.id, s.m.commands[row.id], t); }
  }

  lemma CommandsUntouched(s: System, step: Step)
    requires step.DoHeartbeat? || step.DoSubmit? || step.DoReport? || step.DoPop? || step.DoRefresh?
        || step.DoWait? || step.DoMonitor?
    ensures Next(s, step).m.commands == s.m.commands
    ensures Next(s, step).h.issued == s.h.issued && Next(s, step).h.dropped == s.h.dropped
  {
    if Enabled(s, step) && step.DoMonitor? {
      FailOverAllFrame(s.m, step.rows, Detected(s.m.nodes, s.clock - step.timeout));
    }
  }

  lemma LedgerStep(s: System, step: Step, t: Tag)
    ensures Outstanding(Next(s, step), t) == Outstanding(s, t) + (if Takes(s, step, t) then 1 else 0)
  {
    if Enabled(s, step) {
      match step
      case DoPlace(w, available) => PlaceLedger(s, Allocate(w, available, s.hand.value.requiredNodes), t);
      case DoTake(n) => TakeLedger(s, n, t);
      case DoRestart(rows) => AllTagsCount(s.m.commands, t);
      case DoRegister(row) => RegisterLedger(s, row, t);
      case DoListen(n) =>
      case _ => CommandsUntouched(s, step);
    }
  }

  // ---------- Conservation ----------

  /** Commands that have left the manager, by what became of them. */
  function Arrived(w: World, t: Tag): nat { w.lost[t] + w.refused[t] + w.started[t] }

  /** Ended processes, by what became of their report. */
  function Settled(w: World, t: Tag): nat { w.reports[t] + w.processed[t] + w.unreported[t] }

  /** Every launch ever issued is in exactly one place. */
  ghost predicate Conserved(w: World, t: Tag) {
    && w.s.h.issued[t] == Queued(w.s.m.commands, t) + w.s.h.dropped[t] + Arrived(w, t)
    && w.started[t] == Alive(w.agents, t) + w.ended[t]
    && w.ended[t] == Settled(w, t)
  }

  ghost predicate WorldInv(w: World) {
    && Inv(w.s)
    && (forall n :: n in w.agents ==> n in w.s.m.nodes && OneProcess(w.agents[n]))
    && (forall t :: Conserved(w, t))
  }

  lemma ReceiveAlive(agents: map<NodeId, AgentState>, n: NodeId, j: JobId, t: Tag)
    requires n in agents && OneProcess(agents[n])
    ensures Alive(agents[n := Receive(agents[n], j)], t)
         == Alive(agents, t) + (if !Occupied(agents[n]) && t == Tag(n, j) then 1 else 0)
  {
    var a := agents[n];
    if !Occupied(a) {
      assert a.live == {};
      assert Proc(a.started, j) in Receive(a, j).live;
    }
  }

  lemma EndAlive(agents: map<NodeId, AgentState>, n: NodeId, p: Proc, t: Tag)
    requires n in agents && OneProcess(agents[n]) && p in agents[n].live
    ensures Alive(agents, t) == Alive(agents[n := End(agents[n], p)], t) + (if t == Tag(n, p.job) then 1 else 0)
  {
    assert forall q :: q in agents[n].live ==> q == p;
  }

  /** The agents' books balance over a step. */
  ghost predicate Balanced(w: World, w': World, taken: bool, t: Tag) {
    && Arrived(w', t) == Arrived(w, t) + (if taken then 1 else 0)
    && w'.started[t] + Alive(w.agents, t) + w.ended[t] == w.started[t] + Alive(w'.agents, t) + w'.ended[t]
    && w'.ended[t] + Settled(w, t) == w.ended[t] + Settled(w', t)
  }

  lemma BalancedDeliver(w: World, n: NodeId, t: Tag)
    requires Possible(w, Deliver(n)) && OneProcess(w.agents[n])
    ensures Balanced(w, AgentsNext(w, Deliver(n)), Takes(w.s, DoTake(n), t), t)
  {
    ReceiveAlive(w.agents, n, w.s.m.commands[n][0].job, t);
  }

  lemma BalancedExit(w: World, n: NodeId, p: Proc, code: int, t: Tag)
    requires Possible(w, Exit(n, p, code)) && OneProcess(w.agents[n])
    ensures Balanced(w, AgentsNext(w, Exit(n, p, code)), false, t)
  {
    EndAlive(w.agents, n, p, t);
  }

  lemma BalancedVanish(w: World, n: NodeId, p: Proc, t: Tag)
    requires Possible(w, Vanish(n, p)) && OneProcess(w.agents[n])
    ensures Balanced(w, AgentsNext(w, Vanish(n, p)), false, t)
  {
    EndAlive(w.agents, n, p, t);
  }

  lemma BalancedElse(w: World, step: WorldStep, t: Tag)
    requires Possible(w, step) && !step.Deliver? && !step.Exit? && !step.Vanish? && !step.LoseCommand?
    ensures Balanced(w, AgentsNext(w, step), false, t)
  {
    match step
    case LoseReport(u, outcome) => BalancedReport(w, u, outcome, t);
    case ActOnReport(u, outcome) => BalancedReport(w, u, outcome, t);
    case BreakStream(n) =>
    case Join(row) =>
    case Manage(inner) =>
    case Beat(n) =>
  }

  lemma BalancedReport(w: World, u: Tag, outcome: Outcome, t: Tag)
    requires Underway(w, u, outcome)
    ensures Balanced(w, AgentsNext(w, LoseReport(u, outcome)), false, t)
    ensures Balanced(w, AgentsNext(w, ActOnReport(u, outcome)), false, t)
  {
  }

  lemma AgentLedger(w: World, step: WorldStep, t: Tag)
    requires Possible(w, step) && forall n :: n in w.agents ==> OneProcess(w.agents[n])
    ensures Balanced(w, AgentsNext(w, step), Takes(w.s, ManagerPart(w, step), t), t)
  {
    match step
    case Deliver(n) => BalancedDeliver(w, n, t);
    case Exit(n, p, code) => BalancedExit(w, n, p, code, t);
    case Vanish(n, p) => BalancedVanish(w, n, p, t);
    case LoseCommand(n) =>
    case Manage(inner) => assert AgentsNext(w, step) == w;
    case _ => BalancedElse(w, step, t);
  }

  lemma CombineLedgers(w: World, a: World, s': System, taken: bool, t: Tag)
    requires Conserved(w, t) && Balanced(w, a, taken, t)
    requires Outstanding(s', t) == Outstanding(w.s, t) + (if taken then 1 else 0)
    ensures Conserved(a.(s := s'), t)
  {
  }

  lemma ConservedStep(w: World, step: WorldStep, t: Tag)
    requires WorldInv(w)
    ensures Conserved(WorldNext(w, step), t)
  {
    assert Conserved(w, t);
    if Possible(w, step) {
      var share := ManagerPart(w, step);
      LedgerStep(w.s, share, t);
      AgentLedger(w, step, t);
      CombineLedgers(w, AgentsNext(w, step), Next(w.s, share), Takes(w.s, share, t), t);
    }
  }

  lemma NodesStay(s: System, step: Step, n: NodeId)
    requires n in s.m.nodes
    ensures n in Next(s, step).m.nodes
  {
    if Enabled(s, step) && step.DoMonitor? {
      FailOverAllFrame(s.m, step.rows, Detected(s.m.nodes, s.clock - step.timeout));
    }
  }

  lemma OneProcessStep(w: World, step: WorldStep, n: NodeId)
    requires Possible(w, step) && n in AgentsNext(w, step).agents
    requires n in w.agents ==> OneProcess(w.agents[n])
    ensures OneProcess(AgentsNext(w, step).agents[n])
    ensures n !in w.agents ==> step.Join? && step.row.id == n
  {
    match step
    case Deliver(k) => OneProcessDeliver(w, k, n);
    case Exit(k, p, code) => OneProcessEnd(w, k, p, code, n);
    case Vanish(k, p) => OneProcessEnd(w, k, p, 0, n);
    case _ => OneProcessElse(w, step, n);
  }

  lemma OneProcessDeliver(w: World, k: NodeId, n: NodeId)
    requires Possible(w, Deliver(k)) && n in AgentsNext(w, Deliver(k)).agents
    requires n in w.agents ==> OneProcess(w.agents[n])
    ensures n in w.agents && OneProcess(AgentsNext(w, Deliver(k)).agents[n])
  {
  }

  lemma OneProcessEnd(w: World, k: NodeId, p: Proc, code: int, n: NodeId)
    requires Possible(w, Exit(k, p, code)) && (n in w.agents ==> OneProcess(w.agents[n]))
    ensures var agents := AgentsNext(w, Exit(k, p, code)).agents;
            agents == AgentsNext(w, Vanish(k, p)).agents
            && (n in agents ==> n in w.agents && OneProcess(agents[n]))
  {
  }

  lemma OneProcessElse(w: World, step: WorldStep, n: NodeId)
    requires Possible(w, step) && n in AgentsNext(w, step).agents
    requires !step.Deliver? && !step.Exit? && !step.Vanish?
    requires n in w.agents ==> OneProcess(w.agents[n])
    ensures OneProcess(AgentsNext(w, step).agents[n])
    ensures n !in w.agents ==> step.Join? && step.row.id == n
  {
    if step.BreakStream? || step.Join? { OneProcessStatus(w, step, n); } else { SameAgents(w, step); }
  }

  lemma OneProcessStatus(w: World, step: WorldStep, n: NodeId)
    requires Possible(w, step) && n in AgentsNext(w, step).agents && (step.BreakStream? || step.Join?)
    requires n in w.agents ==> OneProcess(w.agents[n])
    ensures OneProcess(AgentsNext(w, step).agents[n])
    ensures n !in w.agents ==> step.Join? && step.row.id == n
  {
  }

  lemma SameAgents(w: World, step: WorldStep)
    requires Possible(w, step)
    requires step.Manage? || step.Beat? || step.LoseCommand? || step.LoseReport? || step.ActOnReport?
    ensures AgentsNext(w, step).agents == w.agents
  {
  }

  lemma AgentsStep(w: World, step: WorldStep, n: NodeId)
    requires WorldInv(w) && n in WorldNext(w, step).agents
    ensures n in WorldNext(w, step).s.m.nodes && OneProcess(WorldNext(w, step).agents[n])
  {
    if Possible(w, step) {
      OneProcessStep(w, step, n);
      if n in w.agents { NodesStay(w.s, ManagerPart(w, step), n); }
    }
  }

  lemma WorldInvStep(w: World, step: WorldStep)
    requires WorldInv(w)
    ensures WorldInv(WorldNext(w, step))
  {
    InvStep(w.s, ManagerPart(w, step));
    forall n | n in WorldNext(w, step).agents
      ensures n in WorldNext(w, step).s.m.nodes && OneProcess(WorldNext(w, step).agents[n])
    {
      AgentsStep(w, step, n);
    }
    forall t ensures Conserved(WorldNext(w, step), t) { ConservedStep(w, step, t); }
  }

  lemma {:induction false} WorldInvRun(w: World, steps: seq<WorldStep>)
    requires WorldInv(w)
    ensures WorldInv(WorldRun(w, steps))
    decreases |steps|
  {
    if steps != [] {
      WorldInvStep(w, steps[0]);
      WorldInvRun(WorldNext(w, steps[0]), steps[1..]);
    }
  }

  lemma BeginInv(nodes: NodeTable, jobs: JobTable, rows: seq<JobRow>, clock: real)
    requires GoodStart(nodes, jobs, rows)
    ensures WorldInv(Begin(nodes, jobs, rows, clock))
  {
    StartInv(nodes, jobs, rows, clock);
    forall t ensures Conserved(Begin(nodes, jobs, rows, clock), t) { NothingYet(Begin(nodes, jobs, rows, clock), t); }
  }

  lemma NothingYet(w: World, t: Tag)
    requires w.s.m.commands == map[] && w.agents == map[] && w.s.h.issued == multiset{} && w.s.h.dropped == multiset{}
    requires w.lost == multiset{} && w.refused == multiset{} && w.started == multiset{} && w.ended == multiset{}
    requires w.reports == multiset{} && w.processed == multiset{} && w.unreported == multiset{}
    ensures Conserved(w, t)
  {
  }

  /** Over every run, for every node and job: each launch issued is still queued, dropped with its
      queue, lost on the stream, refused, running, or ended; each ended process is being reported, was
      reported once, or never will be; no agent has two live processes; and a node is never sent, nor
      does it ever report, more attempts of a job than the job's budget allows. */
  lemma CommandConservation(
      nodes: NodeTable, jobs: JobTable, rows: seq<JobRow>, clock: real, steps: seq<WorldStep>, t: Tag)
    requires GoodStart(nodes, jobs, rows)
    ensures var w := WorldRun(Begin(nodes, jobs, rows, clock), steps);
            && Conserved(w, t)
            && (t.node in w.agents ==>
                  forall p, q :: p in w.agents[t.node].live && q in w.agents[t.node].live ==> p == q)
            && w.processed[t] + InField(w, t) <= w.s.h.issued[t] <= w.s.h.dispatched[t.job]
            && (t.job in w.s.m.jobs ==>
                w.s.h.issued[t] <= 1 + w.s.m.jobs[t.job].retries <= 1 + Budget(w.s.m.jobs[t.job]))
  {
    BeginInv(nodes, jobs, rows, clock);
    WorldInvRun(Begin(nodes, jobs, rows, clock), steps);
    var w := WorldRun(Begin(nodes, jobs, rows, clock), steps);
    assert Conserved(w, t);
    assert Paid(Shadow(w.s)) && FineInv(Shadow(w.s));
  }
}
