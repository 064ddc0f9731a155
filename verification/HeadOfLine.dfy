/** A job the allocator will never place holds up every job behind it: the scheduler puts it back in
    front, and re-sorting leaves it there. */
module HeadOfLine {
  import opened ClusterTypes
  import opened StableSorting
  import opened Queueing
  import opened Allocation
  import opened ManagerModel
  import opened ManagerRuns
  import opened ManagerTheorems

  /** No entry has to stand in front of a first submission. */
  predicate Ordinary(e: Entry) { e.priority.GetOr(0) <= 0 && e.createdAt.GetOr(0.0) >= 0.0 }

  /** Rows as the submit handler writes them: it never sets a priority, and the clock is not negative. */
  ghost predicate OrdinaryTable(jobs: JobTable) {
    forall j :: j in jobs ==> jobs[j].priority <= 0 && jobs[j].createdAt >= 0.0
  }

  /** A first submission of a job for zero nodes is at the front, or in the scheduler's hand. */
  ghost predicate Blocked(s: System, e: Entry) {
    && IsFresh(e) && e.requiredNodes == 0
    && s.clock >= 0.0 && OrdinaryTable(s.m.jobs) && Keyed(s.m.jobs)
    && (forall i :: 0 <= i < |s.m.queue| ==> Ordinary(s.m.queue[i]))
    && (if s.hand.Some? then s.hand.value == e else s.m.queue != [] && s.m.queue[0] == e)
  }

  lemma FrontStays(q: seq<Entry>, x: Entry)
    requires forall i :: 0 <= i < |q| ==> Ordinary(q[i])
    requires Ordinary(x)
    ensures forall i :: 0 <= i < |Enqueue(q, x)| ==> Ordinary(Enqueue(q, x)[i])
    ensures q != [] && IsFresh(q[0]) ==> Enqueue(q, x) != [] && Enqueue(q, x)[0] == q[0]
  {
    var s := q + [x];
    SortElements(s, EntryKey);
    forall i | 0 <= i < |Enqueue(q, x)| ensures Ordinary(Enqueue(q, x)[i]) {
      assert Enqueue(q, x)[i] in multiset(s);
    }
    if q != [] && IsFresh(q[0]) {
      var rest := Sort(s[1..], EntryKey);
      SortElements(s[1..], EntryKey);
      if rest != [] {
        assert rest[0] in multiset(s[1..]);
        assert Ordinary(rest[0]);
      }
    }
  }

  lemma {:induction false} BlockedFailOver(m: Manager, rows: seq<JobRow>, offline: set<NodeId>)
    requires Current(rows, m.jobs) && OrdinaryTable(m.jobs) && forall i :: 0 <= i < |m.queue| ==> Ordinary(m.queue[i])
    ensures var r := FailOverAll(m, rows, offline);
            && OrdinaryTable(r.jobs) && (forall i :: 0 <= i < |r.queue| ==> Ordinary(r.queue[i]))
            && (m.queue != [] && IsFresh(m.queue[0]) ==> r.queue != [] && r.queue[0] == m.queue[0])
    decreases |rows|
  {
    if rows != [] {
      assert m.jobs[rows[0].id] == rows[0];
      FrontStays(m.queue, Retried(FromRow(rows[0])));
      FailOverCurrent(m, rows, offline);
      BlockedFailOver(FailOver(m, rows[0], offline), rows[1..], offline);
    }
  }

  lemma BlockedPlace(s: System, e: Entry, w: Weights, available: seq<NodeRow>)
    requires Blocked(s, e) && Enabled(s, DoPlace(w, available))
    ensures Blocked(Next(s, DoPlace(w, available)), e)
    ensures Next(s, DoPlace(w, available)).h.dispatched == s.h.dispatched
  {
    AllocateSize(w, available, e.requiredNodes);
    assert Allocate(w, available, e.requiredNodes) == [];
  }

  lemma BlockedTick(s: System, e: Entry, timeout: real, rows: seq<JobRow>)
    requires Blocked(s, e) && Enabled(s, DoMonitor(timeout, rows))
    ensures Blocked(Next(s, DoMonitor(timeout, rows)), e)
  {
    BlockedFailOver(s.m, rows, Detected(s.m.nodes, s.clock - timeout));
    FailOverKeyed(s.m, rows, Detected(s.m.nodes, s.clock - timeout));
  }

  lemma {:induction false} FailOverKeyed(m: Manager, rows: seq<JobRow>, offline: set<NodeId>)
    requires Keyed(m.jobs)
    ensures Keyed(FailOverAll(m, rows, offline).jobs)
    decreases |rows|
  {
    if rows != [] { FailOverKeyed(FailOver(m, rows[0], offline), rows[1..], offline); }
  }

  lemma BlockedSubmit(s: System, e: Entry, id: JobId, request: JobRequest)
    requires Blocked(s, e)
    ensures Blocked(Next(s, DoSubmit(id, request)), e)
  {
    FrontStays(s.m.queue, FromRequest(id, request));
  }

  lemma BlockedReport(s: System, e: Entry, n: NodeId, j: JobId, outcome: Outcome)
    requires Blocked(s, e)
    ensures Blocked(Next(s, DoReport(n, j, outcome)), e)
  {
    if j in s.m.jobs { FrontStays(s.m.queue, Retried(FromRow(s.m.jobs[j]))); }
  }

  lemma BlockedStep(s: System, e: Entry, step: Step)
    requires Blocked(s, e) && !step.DoRestart?
    ensures Blocked(Next(s, step), e) && Next(s, step).h.dispatched == s.h.dispatched
  {
    match step
    case DoSubmit(id, request) => BlockedSubmit(s, e, id, request);
    case DoReport(n, j, outcome) => BlockedReport(s, e, n, j, outcome);
    case DoPlace(w, available) => if Enabled(s, step) { BlockedPlace(s, e, w, available); }
    case DoMonitor(timeout, rows) => if Enabled(s, step) { BlockedTick(s, e, timeout, rows); }
    case DoPop =>
    case DoRestart(_) =>
    case _ => QueueUntouched(s, step);
  }

  /** Once a first submission that asks for zero nodes is at the front, no job is dispatched any more for the
      rest of the manager's lifetime, whatever is submitted, reported, registered or detected: the
      allocator's empty answer for zero nodes is taken for "not enough nodes". */
  lemma {:induction false} ZeroNodesBlockForever(s: System, e: Entry, steps: seq<Step>)
    requires Blocked(s, e) && forall i :: 0 <= i < |steps| ==> !steps[i].DoRestart?
    ensures Blocked(Run(s, steps), e) && Run(s, steps).h.dispatched == s.h.dispatched
    decreases |steps|
  {
    if steps != [] {
      BlockedStep(s, e, steps[0]);
      ZeroNodesBlockForever(Next(s, steps[0]), e, steps[1..]);
    }
  }

  /** The scheduler dispatches the job in its hand exactly when the listing of idle nodes holds enough for
      it and the answer is not the empty list. */
  lemma DispatchedIff(s: System, w: Weights, available: seq<NodeRow>)
    requires Enabled(s, DoPlace(w, available))
    ensures var k := s.hand.value.requiredNodes;
            Next(s, DoPlace(w, available)).h.dispatched != s.h.dispatched <==>
            (if k >= 0 then 1 <= k <= |available| else |available| + k >= 1)
  {
    var e := s.hand.value;
    AllocateSize(w, available, e.requiredNodes);
    assert (s.h.dispatched + multiset{e.id})[e.id] == s.h.dispatched[e.id] + 1;
  }
}
