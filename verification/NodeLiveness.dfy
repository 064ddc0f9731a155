/** What the manager knows about a node: registration, heartbeats, silence, and the queue through which it is
    reached. */
module NodeLiveness {
  import opened ClusterTypes
  import opened Queueing
  import opened Allocation
  import opened ManagerModel
  import opened ManagerRuns
  import opened ManagerTheorems
  import opened StrandedJobs

  // ---------- One event ----------

  /** A registration files the node as given, idle and just heard from, with an empty command queue. */
  lemma RegistrationFiled(s: System, row: NodeRow)
    ensures var s' := Next(s, DoRegister(row));
            && s'.m.nodes == s.m.nodes[row.id :=
                 NodeRow(row.id, row.ip, row.cpuCount, row.gpuModel, row.ramTotal, Idle, s.clock)]
            && s'.m.commands == s.m.commands[row.id := []]
            && s'.m.jobs == s.m.jobs && s'.m.queue == s.m.queue && s'.hand == s.hand
  {
  }

  /** A heartbeat sets status and time of a known node and nothing else. */
  lemma HeartbeatFiled(s: System, n: NodeId, status: NodeStatus)
    ensures var s' := Next(s, DoHeartbeat(n, status));
            && s'.m.nodes.Keys == s.m.nodes.Keys
            && (forall k :: k in s.m.nodes ==>
                  s'.m.nodes[k] ==
                  if k != n then s.m.nodes[k]
                  else NodeRow(s.m.nodes[n].id, s.m.nodes[n].ip, s.m.nodes[n].cpuCount, s.m.nodes[n].gpuModel,
                               s.m.nodes[n].ramTotal, status, s.clock))
            && s'.m.commands == s.m.commands && s'.m.jobs == s.m.jobs && s'.m.queue == s.m.queue
  {
  }

  /** A dispatch reserves exactly the chosen nodes, after the marking that any listing does. */
  lemma DispatchReserves(s: System, w: Weights, available: seq<NodeRow>, n: NodeId)
    requires Enabled(s, DoPlace(w, available)) && n in s.m.nodes
    ensures var row := s.m.nodes[n];
            && n in Next(s, DoPlace(w, available)).m.nodes
            && Next(s, DoPlace(w, available)).m.nodes[n] == row.(status :=
                 if ReservesNode(s, DoPlace(w, available), n) then Reserved
                 else if LongSilent(row, s.clock) then Disconnected else row.status)
  {
    ReservesOn(s, Allocate(w, available, s.hand.value.requiredNodes), n);
  }

  lemma ReservesOn(s: System, chosen: seq<NodeRow>, n: NodeId)
    requires s.hand.Some? && n in s.m.nodes
    ensures var row := s.m.nodes[n];
            && n in PlaceStep(s, s.hand.value, chosen).m.nodes
            && PlaceStep(s, s.hand.value, chosen).m.nodes[n] == row.(status :=
                 if exists i :: 0 <= i < |chosen| && chosen[i].id == n then Reserved
                 else if LongSilent(row, s.clock) then Disconnected else row.status)
  {
  }

  /** A restart keeps both tables and forgets commands, gauges and the job in hand. */
  lemma RestartForgets(s: System, rows: seq<JobRow>)
    requires Enabled(s, DoRestart(rows))
    ensures var s' := Next(s, DoRestart(rows));
            && s'.m.nodes == s.m.nodes && s'.m.jobs == s.m.jobs && s'.clock == s.clock
            && s'.m.commands == map[] && s'.m.queued == 0 && s'.m.running == 0 && s'.hand == None
            && s'.m.queue == Recovered(rows)
  {
  }

  // ---------- Silence over runs ----------

  /** The manager hears from the node: a heartbeat or a registration. */
  predicate Hears(step: Step, n: NodeId) {
    (step.DoHeartbeat? && step.n == n) || (step.DoRegister? && step.row.id == n)
  }

  lemma ClockStep(s: System, step: Step)
    ensures Next(s, step).clock >= s.clock
  {
  }

  /** A step that does not hear from the node leaves all its columns but the status. */
  lemma UnheardStep(s: System, step: Step, n: NodeId)
    requires n in s.m.nodes && !Hears(step, n)
    ensures n in Next(s, step).m.nodes
    ensures Next(s, step).m.nodes[n] == s.m.nodes[n].(status := Next(s, step).m.nodes[n].status)
  {
    if Enabled(s, step) {
      match step
      case DoPlace(w, available) => DispatchReserves(s, w, available, n);
      case DoMonitor(timeout, rows) => ListingMarks(s, timeout, rows, n);
      case DoReport(k, j, outcome) =>
      case DoHeartbeat(k, status) =>
      case DoRegister(row) =>
      case DoRefresh =>
      case _ => assert Next(s, step).m.nodes == s.m.nodes;
    }
  }

  lemma {:induction false} UnheardRun(s: System, steps: seq<Step>, n: NodeId)
    requires n in s.m.nodes && forall i :: 0 <= i < |steps| ==> !Hears(steps[i], n)
    ensures n in Run(s, steps).m.nodes && Run(s, steps).clock >= s.clock
    ensures Run(s, steps).m.nodes[n] == s.m.nodes[n].(status := Run(s, steps).m.nodes[n].status)
    decreases |steps|
  {
    if steps != [] {
      UnheardStep(s, steps[0], n);
      ClockStep(s, steps[0]);
      UnheardRun(Next(s, steps[0]), steps[1..], n);
    }
  }

  /** Exactly how long a heartbeat lasts: whatever else happens since, as long as nothing is heard from the
      node, a listing finds it gone if and only if more than 15 seconds have passed, and a tick gives it up
      if and only if more than the configured timeout has; maintenance apart. */
  lemma HeartbeatLasts(s: System, n: NodeId, status: NodeStatus, steps: seq<Step>, timeout: real)
    requires n in s.m.nodes && forall i :: 0 <= i < |steps| ==> !Hears(steps[i], n)
    ensures var s' := Run(Next(s, DoHeartbeat(n, status)), steps);
            && n in s'.m.nodes
            && (s'.m.nodes[n].status != Disconnected && s'.m.nodes[n].status != Maintenance ==>
                  && n in Next(s', DoRefresh).m.nodes
                  && (Next(s', DoRefresh).m.nodes[n].status == Disconnected <==> s'.clock - s.clock > 15.0)
                  && (Overdue(s', timeout, n) <==> s'.clock - s.clock > timeout))
  {
    UnheardRun(Next(s, DoHeartbeat(n, status)), steps, n);
    var s' := Run(Next(s, DoHeartbeat(n, status)), steps);
    if s'.m.nodes[n].status != Disconnected
        && s'.m.nodes[n].status != Maintenance { SilentFor(s', n, timeout, s.clock); }
  }

  lemma SilentFor(s: System, n: NodeId, timeout: real, since: real)
    requires n in s.m.nodes && s.m.nodes[n].lastHeartbeat == since
    requires s.m.nodes[n].status != Disconnected && s.m.nodes[n].status != Maintenance
    ensures n in Next(s, DoRefresh).m.nodes
    ensures Next(s, DoRefresh).m.nodes[n].status == Disconnected <==> s.clock - since > 15.0
    ensures Overdue(s, timeout, n) <==> s.clock - since > timeout
  {
  }

  /** In every state of the run the node has been heard from within the last 15 seconds. */
  ghost predicate Regular(s: System, steps: seq<Step>, n: NodeId)
    decreases |steps|
  {
    && n in s.m.nodes && s.clock - s.m.nodes[n].lastHeartbeat <= 15.0
    && (steps == [] || Regular(Next(s, steps[0]), steps[1..], n))
  }

  /** The step does not itself say that the node is gone, and ticks with no less than 15 seconds. */
  predicate Fair(step: Step, n: NodeId) {
    && (step.DoHeartbeat? && step.n == n ==> step.status != Disconnected)
    && (step.DoMonitor? ==> step.timeout >= 15.0)
  }

  lemma RegularStep(s: System, step: Step, n: NodeId)
    requires n in s.m.nodes && s.clock - s.m.nodes[n].lastHeartbeat <= 15.0 && s.m.nodes[n].status != Disconnected
    requires n !in s.h.detected && Fair(step, n)
    ensures n in Next(s, step).m.nodes && Next(s, step).m.nodes[n].status != Disconnected
    ensures n !in Next(s, step).h.detected
  {
    if Enabled(s, step) {
      match step
      case DoPlace(w, available) => DispatchReserves(s, w, available, n);
      case DoMonitor(timeout, rows) => ListingMarks(s, timeout, rows, n);
      case DoReport(k, j, outcome) =>
      case DoHeartbeat(k, status) =>
      case DoRegister(row) =>
      case DoRefresh =>
      case _ => assert Next(s, step).m.nodes == s.m.nodes;
    }
  }

  /** A node that keeps sending heartbeats at most 15 seconds apart is never marked by any listing and never
      given up by any tick with a timeout of 15 seconds or more, whatever else happens. */
  lemma {:induction false} RegularStaysConnected(s: System, steps: seq<Step>, n: NodeId)
    requires Regular(s, steps, n) && s.m.nodes[n].status != Disconnected && n !in s.h.detected
    requires forall i :: 0 <= i < |steps| ==> Fair(steps[i], n)
    ensures n in Run(s, steps).m.nodes && Run(s, steps).m.nodes[n].status != Disconnected
    ensures n !in Run(s, steps).h.detected
    decreases |steps|
  {
    if steps != [] {
      RegularStep(s, steps[0], n);
      RegularStaysConnected(Next(s, steps[0]), steps[1..], n);
    }
  }

  // ---------- Reaching a node ----------

  /** Opening the stream gives a node a queue if it has none, and keeps what waits in it otherwise. */
  lemma ListeningOpens(s: System, n: NodeId)
    ensures var s' := Next(s, DoListen(n));
            && n in s'.m.commands
            && (n in s.m.commands ==> s' == s)
            && (n !in s.m.commands ==> s'.m == s.m.(commands := s.m.commands[n := []]))
  {
  }

  /** From then on, until the manager restarts, every dispatch on the node puts its launch behind whatever
      waits for the node: none is dropped. */
  lemma ListenerIsReached(s: System, n: NodeId, steps: seq<Step>, w: Weights, available: seq<NodeRow>)
    requires Inv(s) && forall i :: 0 <= i < |steps| ==> !steps[i].DoRestart?
    requires ReservesNode(Run(Next(s, DoListen(n)), steps), DoPlace(w, available), n)
    ensures var s1 := Run(Next(s, DoListen(n)), steps);
            var s2 := Next(s1, DoPlace(w, available));
            && n in s1.m.commands && n in s2.m.commands
            && |s2.m.commands[n]| == |s1.m.commands[n]| + 1
            && s2.m.commands[n][..|s1.m.commands[n]|] == s1.m.commands[n]
            && s2.m.commands[n][|s1.m.commands[n]|].job == s1.hand.value.id
  {
    StillListening(s, n, steps);
    LaunchJoinsQueue(Run(Next(s, DoListen(n)), steps), w, available, n);
  }

  lemma StillListening(s: System, n: NodeId, steps: seq<Step>)
    requires Inv(s) && forall i :: 0 <= i < |steps| ==> !steps[i].DoRestart?
    ensures Inv(Run(Next(s, DoListen(n)), steps)) && n in Run(Next(s, DoListen(n)), steps).m.commands
  {
    ListeningOpens(s, n);
    InvStep(s, DoListen(n));
    StaysReachable(Next(s, DoListen(n)), n, steps);
  }

  lemma StaysReachable(s: System, n: NodeId, steps: seq<Step>)
    requires Inv(s) && n in s.m.commands && forall i :: 0 <= i < |steps| ==> !steps[i].DoRestart?
    ensures Inv(Run(s, steps)) && n in Run(s, steps).m.commands
  {
    InvRun(s, steps);
    QueueStays(s, steps, n);
  }
}
