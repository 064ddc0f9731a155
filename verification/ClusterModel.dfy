/** The manager together with its agents: commands travel to agents, processes run and end, and
    each ended process is reported at most once. */
module ClusterModel {
  import opened ClusterTypes
  import opened Agents
  import opened ManagerModel

  datatype World = World(
    s: System,
    agents: map<NodeId, AgentState>,
    reports: multiset<Tag>,     // status reports on their way to the manager
    good: multiset<Tag>,        //   those of them that say "completed"
    // accounts, per node and job:
    refused: multiset<Tag>,     // commands delivered while a process was alive
    started: multiset<Tag>,     // commands that started a process
    lost: multiset<Tag>,        // commands lost on a broken stream
    ended: multiset<Tag>,       // processes that ended
    processed: multiset<Tag>,   // reports the manager has acted on
    unreported: multiset<Tag>,  // ended processes that will never be reported
    exitedZero: multiset<Tag>,  // processes that ended with exit code 0 and were reported
    confirmed: multiset<Tag>)   // "completed" reports the manager has acted on

  datatype WorldStep =
    | Manage(step: Step)               // the manager on its own, or a client submitting
    | Join(row: NodeRow)               // an agent registers and gets a new identifier
    | Beat(n: NodeId)                  // an agent's heartbeat, carrying the agent's status
    | Deliver(n: NodeId)               // the next command reaches its agent
    | LoseCommand(n: NodeId)           // ... or is lost with the stream
    | BreakStream(n: NodeId)
    | Exit(n: NodeId, p: Proc, code: int)  // a process ends and its report sets out
    | Vanish(n: NodeId, p: Proc)       // a process ends and nobody reports it
    | LoseReport(t: Tag, outcome: Outcome)
    | ActOnReport(t: Tag, outcome: Outcome)  // the manager acts on a report

  /** A report with this content is on its way. */
  predicate Underway(w: World, t: Tag, outcome: Outcome) {
    && t in w.reports && outcome != Unknown
    && (if outcome == Success then t in w.good else w.good[t] < w.reports[t])
  }

  ghost predicate Possible(w: World, step: WorldStep) {
    match step
    case Manage(inner) =>
      Enabled(w.s, inner) && !inner.DoReport? && !inner.DoHeartbeat? && !inner.DoTake? && !inner.DoRegister?
    case Join(row) => row.id !in w.agents && row.id !in w.s.m.nodes
    case Beat(n) => n in w.agents
    case Deliver(n) => n in w.agents && Enabled(w.s, DoTake(n))
    case LoseCommand(n) => Enabled(w.s, DoTake(n))
    case BreakStream(n) => n in w.agents
    case Exit(n, p, _) => n in w.agents && p in w.agents[n].live
    case Vanish(n, p) => n in w.agents && p in w.agents[n].live
    case LoseReport(t, outcome) => Underway(w, t, outcome)
    case ActOnReport(t, outcome) => Underway(w, t, outcome)
  }

  /** The manager's share of a step. */
  ghost function ManagerPart(w: World, step: WorldStep): Step
  {
    match step
    case Manage(inner) => inner
    case Join(row) => DoRegister(row)
    case Beat(n) => DoHeartbeat(n, if n in w.agents then w.agents[n].status else Idle)
    case Deliver(n) => DoTake(n)
    case LoseCommand(n) => DoTake(n)
    case ActOnReport(t, outcome) => DoReport(t.node, t.job, outcome)
    case _ => DoWait(0.0)
  }

  /** The agents' share of a step. */
  ghost function AgentsNext(w: World, step: WorldStep): World
    requires Possible(w, step)
  {
    match step
    case Join(row) => w.(agents := w.agents[row.id := NEW_AGENT])
    case Deliver(n) =>
      var c := w.s.m.commands[n][0];
      var w' := w.(agents := w.agents[n := Receive(w.agents[n], c.job)]);
      if Occupied(w.agents[n]) then w'.(refused := w.refused + multiset{Tag(n, c.job)})
      else w'.(started := w.started + multiset{Tag(n, c.job)})
    case LoseCommand(n) => w.(lost := w.lost + multiset{Tag(n, w.s.m.commands[n][0].job)})
    case BreakStream(n) => w.(agents := w.agents[n := w.agents[n].(status := Other("OFFLINE"))])
    case Exit(n, p, code) =>
      var w' := w.(agents := w.agents[n := End(w.agents[n], p)],
                   ended := w.ended + multiset{Tag(n, p.job)}, reports := w.reports + multiset{Tag(n, p.job)});
      if ExitReport(code) != Success then w'
      else w'.(good := w.good + multiset{Tag(n, p.job)}, exitedZero := w.exitedZero + multiset{Tag(n, p.job)})
    case Vanish(n, p) =>
      w.(agents := w.agents[n := End(w.agents[n], p)],
         ended := w.ended + multiset{Tag(n, p.job)}, unreported := w.unreported + multiset{Tag(n, p.job)})
    case LoseReport(t, outcome) =>
      var w' := w.(reports := w.reports - multiset{t}, unreported := w.unreported + multiset{t});
      if outcome == Success then w'.(good := w.good - multiset{t}) else w'
    case ActOnReport(t, outcome) =>
      var w' := w.(reports := w.reports - multiset{t}, processed := w.processed + multiset{t});
      if outcome == Success then w'.(good := w.good - multiset{t}, confirmed := w.confirmed + multiset{t}) else w'
    case _ => w
  }

  ghost function WorldNext(w: World, step: WorldStep): World {
    if !Possible(w, step) then w
    else AgentsNext(w, step).(s := Next(w.s, ManagerPart(w, step)))
  }

  ghost function WorldRun(w: World, steps: seq<WorldStep>): World
    decreases |steps|
  {
    if steps == [] then w else WorldRun(WorldNext(w, steps[0]), steps[1..])
  }

  /** A manager that comes up on existing tables, before any agent has joined. */
  ghost function Begin(nodes: NodeTable, jobs: JobTable, rows: seq<JobRow>, clock: real): World {
    World(Start(nodes, jobs, rows, clock), map[], multiset{}, multiset{}, multiset{}, multiset{}, multiset{},
          multiset{}, multiset{}, multiset{}, multiset{}, multiset{})
  }
}
