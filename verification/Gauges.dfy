/** What the two job gauges count, and what a scaling decision based on them means. */
module Gauges {
  import opened ClusterTypes
  import opened Allocation
  import opened Interleaving
  import opened ManagerModel
  import opened ManagerRuns
  import opened ManagerTheorems
  import opened Autoscaling

  /** The jobs that really wait: queued, or in the scheduler's hand. */
  function Backlog(s: System): nat { |s.m.queue| + |HandSeq(s.hand)| }

  /** In every run the autoscaler asks for more nodes because of the queue exactly when the backlog exceeds the
      threshold plus the jobs recovered at start-up and the retries since: a scale-out is always
      warranted, but recovered and retried jobs never cause one. */
  lemma QueueScaleOutIff(
      nodes: NodeTable, jobs: JobTable, rows: seq<JobRow>, clock: real, steps: seq<Step>, p: Policy,
      x: Sample, lastIn: real)
    requires GoodStart(nodes, jobs, rows)
    requires x.pending == Run(Start(nodes, jobs, rows, clock), steps).m.queued
    requires Average(x.cpuIdle) <= p.cpuHigh && Average(x.gpuIdle) <= p.gpuHigh
    ensures var s := Run(Start(nodes, jobs, rows, clock), steps);
            && (Decide(p, lastIn, x) == ScaleOut <==> Backlog(s) > p.queueHigh + s.h.recovered + s.h.retried)
            && (Decide(p, lastIn, x) == ScaleOut ==> Backlog(s) > p.queueHigh)
  {
    QueueScaleOutWarranted(nodes, jobs, rows, clock, steps, p.queueHigh);
  }

  /** The completion reports acted on. */
  function Completions(steps: seq<Step>): nat {
    if steps == [] then 0
    else (if steps[0].DoReport? && steps[0].outcome == Success then 1 else 0) + Completions(steps[1..])
  }

  lemma RunningPlace(s: System, chosen: seq<NodeRow>)
    requires s.hand.Some?
    ensures var s' := PlaceStep(s, s.hand.value, chosen);
            s'.m.running - s.m.running == |s'.h.dispatched| - |s.h.dispatched|
  {
  }

  lemma RunningStep(s: System, step: Step)
    requires !step.DoRestart?
    ensures var s' := Next(s, step);
            s'.m.running - s.m.running == |s'.h.dispatched| - |s.h.dispatched| - Completions([step])
  {
    assert [step][1..] == [];
    match step
    case DoPlace(w, available) =>
      if Enabled(s, step) { RunningPlace(s, Allocate(w, available, s.hand.value.requiredNodes)); }
    case DoMonitor(timeout, rows) =>
      if Enabled(s, step) { FailOverAllFrame(s.m, rows, Detected(s.m.nodes, s.clock - timeout)); }
    case DoRestart(_) =>
    case _ =>
  }

  /** The running gauge counts dispatches minus completion reports. Failed attempts and fail-overs are never
      taken off it, and a job on several nodes is taken off once per node. */
  lemma {:induction false} RunningGauge(s: System, steps: seq<Step>)
    requires forall i :: 0 <= i < |steps| ==> !steps[i].DoRestart?
    ensures var s' := Run(s, steps);
            s'.m.running - s.m.running == |s'.h.dispatched| - |s.h.dispatched| - Completions(steps)
    decreases |steps|
  {
    if steps != [] {
      RunningStep(s, steps[0]);
      RunningGauge(Next(s, steps[0]), steps[1..]);
      assert [steps[0]][1..] == [];
    }
  }
}
