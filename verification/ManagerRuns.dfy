/** Handlers that run without interruption are a special case of the interleaved machine, so
    its invariants carry over to every run of the manager. */
module ManagerRuns {
  import opened ClusterTypes
  import opened StableSorting
  import opened Registry
  import opened Queueing
  import opened Allocation
  import opened Interleaving
  import opened ManagerModel

  /** The interleaved machine's view of a state between two uninterrupted steps. */
  ghost function Shadow(s: System): Fine {
    Fine(s.m.jobs, s.m.queue, s.hand, [], [], s.h.dispatched, s.h.appended, s.h.firstOut)
  }

  // ---------- Each uninterrupted step is a sequence of fine steps, none on an outdated row ----------

  lemma Trace1(f: Fine, a: FineStep)
    ensures FineRun(f, [a]) == FineNext(f, a)
    ensures NeverStale(f, [a]) <==> !Stale(f, a)
  {
    assert [a][1..] == [];
  }

  lemma Trace2(f: Fine, a: FineStep, b: FineStep)
    ensures FineRun(f, [a, b]) == FineNext(FineNext(f, a), b)
    ensures NeverStale(f, [a, b]) <==> !Stale(f, a) && !Stale(FineNext(f, a), b)
  {
    assert [a, b][1..] == [b];
    Trace1(FineNext(f, a), b);
  }

  lemma Trace3(f: Fine, a: FineStep, b: FineStep, c: FineStep)
    ensures FineRun(f, [a, b, c]) == FineNext(FineNext(FineNext(f, a), b), c)
    ensures NeverStale(f, [a, b, c]) <==>
            !Stale(f, a) && !Stale(FineNext(f, a), b) && !Stale(FineNext(FineNext(f, a), b), c)
  {
    assert [a, b, c][1..] == [b, c];
    Trace2(FineNext(f, a), b, c);
  }

  lemma {:induction false} NeverStaleConcat(f: Fine, a: seq<FineStep>, b: seq<FineStep>)
    requires NeverStale(f, a) && NeverStale(FineRun(f, a), b)
    ensures NeverStale(f, a + b)
    decreases |a|
  {
    if a == [] {
      assert a + b == b;
    } else {
      NeverStaleConcat(FineNext(f, a[0]), a[1..], b);
      assert (a + b)[0] == a[0] && (a + b)[1..] == a[1..] + b;
    }
  }

  lemma SubmitTrace(f: Fine, id: JobId, request: JobRequest, now: real)
    requires f.owed == [] && id !in f.jobs
    ensures var fs := [InsertRow(id, request, now), AppendEntry(0)];
            && FineRun(f, fs) == f.(jobs := f.jobs[id := NewRow(FromRequest(id, request), now)],
                                    queue := Enqueue(f.queue, FromRequest(id, request)), appended := f.appended + [id])
            && NeverStale(f, fs)
  {
    Trace2(f, InsertRow(id, request, now), AppendEntry(0));
    var f1 := FineNext(f, InsertRow(id, request, now));
    assert f1.owed == [FromRequest(id, request)];
    assert Without(f1.owed, 0) == [];
  }

  lemma RetryTrace(f: Fine, j: JobId)
    requires f.seen == [] && f.owed == [] && j in f.jobs && f.jobs[j].id == j
    requires f.jobs[j].retries < f.jobs[j].maxRetries
    ensures var fs := [ReadRow(j), WriteRetry(0), AppendEntry(0)];
            && FineRun(f, fs) == f.(jobs := SetJobRetries(f.jobs, j, Pending, f.jobs[j].retries + 1),
                                    queue := Enqueue(f.queue, Retried(FromRow(f.jobs[j]))))
            && NeverStale(f, fs)
  {
    Trace3(f, ReadRow(j), WriteRetry(0), AppendEntry(0));
    var f1 := FineNext(f, ReadRow(j));
    var f2 := FineNext(f1, WriteRetry(0));
    assert f1.seen == [f.jobs[j]] && Without(f1.seen, 0) == [];
    assert f2.owed == [Retried(FromRow(f.jobs[j]))] && Without(f2.owed, 0) == [];
  }

  lemma FailTrace(f: Fine, j: JobId)
    requires f.seen == [] && j in f.jobs && f.jobs[j].id == j
    requires f.jobs[j].retries >= f.jobs[j].maxRetries
    ensures var fs := [ReadRow(j), WriteFailed(0)];
            FineRun(f, fs) == f.(jobs := SetJobStatus(f.jobs, j, Failed, None)) && NeverStale(f, fs)
  {
    Trace2(f, ReadRow(j), WriteFailed(0));
    var f1 := FineNext(f, ReadRow(j));
    assert f1.seen == [f.jobs[j]] && Without(f1.seen, 0) == [];
  }

  /** The listed rows are the table's own, each listed once. */
  ghost predicate Current(rows: seq<JobRow>, jobs: JobTable) {
    && (forall i, k :: 0 <= i < k < |rows| ==> rows[i].id != rows[k].id)
    && (forall i :: 0 <= i < |rows| ==> rows[i].id in jobs && jobs[rows[i].id] == rows[i])
  }

  lemma FailOverCurrent(m: Manager, rows: seq<JobRow>, offline: set<NodeId>)
    requires rows != [] && Current(rows, m.jobs)
    ensures Current(rows[1..], FailOver(m, rows[0], offline).jobs)
  {
    var later := FailOver(m, rows[0], offline).jobs;
    forall i | 0 <= i < |rows| - 1 ensures rows[1..][i].id in later && later[rows[1..][i].id] == rows[1..][i] {
      assert rows[1..][i] == rows[i + 1] && rows[i + 1].id != rows[0].id;
    }
  }

  /** Counting a failure of a job whose row has just been read. */
  lemma FailureTrace(f: Fine, m: Manager, row: JobRow) returns (fs: seq<FineStep>)
    requires f.seen == [] && f.owed == [] && f.jobs == m.jobs && f.queue == m.queue
    requires row.id in m.jobs && m.jobs[row.id] == row
    ensures var m' := if row.retries < row.maxRetries then Retry(m, row) else Fail(m, row.id);
            FineRun(f, fs) == f.(jobs := m'.jobs, queue := m'.queue)
    ensures NeverStale(f, fs)
  {
    if row.retries < row.maxRetries {
      RetryTrace(f, row.id);
      fs := [ReadRow(row.id), WriteRetry(0), AppendEntry(0)];
    } else {
      FailTrace(f, row.id);
      fs := [ReadRow(row.id), WriteFailed(0)];
    }
  }

  lemma FailOverTrace(f: Fine, m: Manager, row: JobRow, offline: set<NodeId>) returns (fs: seq<FineStep>)
    requires f.seen == [] && f.owed == [] && f.jobs == m.jobs && f.queue == m.queue
    requires row.id in m.jobs && m.jobs[row.id] == row
    ensures FineRun(f, fs) == f.(jobs := FailOver(m, row, offline).jobs, queue := FailOver(m, row, offline).queue)
    ensures NeverStale(f, fs)
  {
    fs := [];
    if Affected(row, offline) { fs := FailureTrace(f, m, row); }
  }

  lemma {:induction false} MonitorTrace(f: Fine, m: Manager, rows: seq<JobRow>, offline: set<NodeId>)
    returns (fs: seq<FineStep>)
    requires f.seen == [] && f.owed == [] && f.jobs == m.jobs && f.queue == m.queue
    requires Current(rows, m.jobs)
    ensures var m' := FailOverAll(m, rows, offline); FineRun(f, fs) == f.(jobs := m'.jobs, queue := m'.queue)
    ensures NeverStale(f, fs)
    decreases |rows|
  {
    fs := [];
    if rows != [] {
      var m' := FailOver(m, rows[0], offline);
      fs := FailOverTrace(f, m, rows[0], offline);
      var f' := f.(jobs := m'.jobs, queue := m'.queue);
      FailOverCurrent(m, rows, offline);
      var rest := MonitorTrace(f', m', rows[1..], offline);
      FineRunConcat(f, fs, rest);
      NeverStaleConcat(f, fs, rest);
      fs := fs + rest;
    }
  }

  /** The simulation. */
  lemma Simulate(s: System, step: Step) returns (fs: seq<FineStep>)
    requires Keyed(s.m.jobs)
    ensures FineRun(Shadow(s), fs) == Shadow(Next(s, step))
    ensures NeverStale(Shadow(s), fs)
  {
    fs := [];
    var f := Shadow(s);
    if Enabled(s, step) {
      match step
      case DoSubmit(id, request) =>
        if id !in s.m.jobs {
          SubmitTrace(f, id, request, s.clock);
          fs := [InsertRow(id, request, s.clock), AppendEntry(0)];
        }
      case DoReport(n, j, outcome) =>
        fs := SimulateReport(s, n, j, outcome);
      case DoPop =>
        Trace1(f, PopTop);
        fs := [PopTop];
      case DoPlace(w, available) =>
        fs := SimulatePlace(s, Allocate(w, available, s.hand.value.requiredNodes));
      case DoMonitor(timeout, rows) =>
        fs := MonitorTrace(f, s.m, rows, Detected(s.m.nodes, s.clock - timeout));
        FailOverAllFrame(s.m, rows, Detected(s.m.nodes, s.clock - timeout));
      case DoRestart(rows) =>
        Trace1(f, Recover(rows));
        fs := [Recover(rows)];
      case _ =>
    }
  }

  lemma SimulateReport(s: System, n: NodeId, j: JobId, outcome: Outcome) returns (fs: seq<FineStep>)
    requires Keyed(s.m.jobs)
    ensures FineRun(Shadow(s), fs) == Shadow(Next(s, DoReport(n, j, outcome)))
    ensures NeverStale(Shadow(s), fs)
  {
    fs := [];
    if outcome == Success {
      Trace1(Shadow(s), WriteCompleted(j));
      fs := [WriteCompleted(j)];
    } else if outcome == Failure && j in s.m.jobs {
      fs := SimulateFailure(s, n, j);
    }
  }

  lemma SimulateFailure(s: System, n: NodeId, j: JobId) returns (fs: seq<FineStep>)
    requires Keyed(s.m.jobs) && j in s.m.jobs
    ensures FineRun(Shadow(s), fs) == Shadow(Next(s, DoReport(n, j, Failure)))
    ensures NeverStale(Shadow(s), fs)
  {
    FailureShadow(s, n, j);
    fs := FailureTrace(Shadow(s), s.m, s.m.jobs[j]);
  }

  lemma FailureShadow(s: System, n: NodeId, j: JobId)
    requires j in s.m.jobs
    ensures var m' := if s.m.jobs[j].retries < s.m.jobs[j].maxRetries then Retry(s.m, s.m.jobs[j]) else Fail(s.m, j);
            Shadow(Next(s, DoReport(n, j, Failure))) == Shadow(s).(jobs := m'.jobs, queue := m'.queue)
  {
  }

  lemma SimulatePlace(s: System, chosen: seq<NodeRow>) returns (fs: seq<FineStep>)
    requires s.hand.Some?
    ensures FineRun(Shadow(s), fs) == Shadow(PlaceStep(s, s.hand.value, chosen))
    ensures NeverStale(Shadow(s), fs)
  {
    if chosen == [] {
      Trace1(Shadow(s), PutBack);
      fs := [PutBack];
    } else {
      Trace1(Shadow(s), WriteRunning(NodeIds(chosen)));
      fs := [WriteRunning(NodeIds(chosen))];
    }
  }

  lemma {:induction false} FailOverAllFrame(m: Manager, rows: seq<JobRow>, offline: set<NodeId>)
    ensures var r := FailOverAll(m, rows, offline);
            r.nodes == m.nodes && r.commands == m.commands && r.queued == m.queued && r.running == m.running
    decreases |rows|
  {
    if rows != [] { FailOverAllFrame(FailOver(m, rows[0], offline), rows[1..], offline); }
  }

  // ---------- The invariant of uninterrupted runs ----------

  /** The queue gauge misses exactly the jobs that entered the queue without being counted. */
  ghost predicate GaugeExact(s: System) {
    s.m.queued + s.h.recovered + s.h.retried == |s.m.queue| + |HandSeq(s.hand)|
  }

  /** No node has been sent more launches of a job than the job has been dispatched. */
  ghost predicate IssuedByDispatch(s: System) {
    forall t :: s.h.issued[t] <= s.h.dispatched[t.job]
  }

  ghost predicate Inv(s: System) {
    && FineInv(Shadow(s)) && Paid(Shadow(s))
    && (forall n :: n in s.m.nodes ==> s.m.nodes[n].id == n)
    && GaugeExact(s)
    && IssuedByDispatch(s)
  }

  lemma EnqueueLength(q: seq<Entry>, e: Entry)
    ensures |Enqueue(q, e)| == |q| + 1
  {
    SortElements(q + [e], EntryKey);
  }

  lemma {:induction false} GaugeMonitor(m: Manager, rows: seq<JobRow>, offline: set<NodeId>)
    ensures |FailOverAll(m, rows, offline).queue| == |m.queue| + RetriesIn(rows, offline)
    decreases |rows|
  {
    if rows != [] {
      EnqueueLength(m.queue, Retried(FromRow(rows[0])));
      GaugeMonitor(FailOver(m, rows[0], offline), rows[1..], offline);
    }
  }

  lemma GaugeSubmit(s: System, id: JobId, request: JobRequest)
    requires GaugeExact(s)
    ensures GaugeExact(Next(s, DoSubmit(id, request)))
  {
    EnqueueLength(s.m.queue, FromRequest(id, request));
  }

  lemma GaugeReport(s: System, n: NodeId, j: JobId, outcome: Outcome)
    requires GaugeExact(s)
    ensures GaugeExact(Next(s, DoReport(n, j, outcome)))
  {
    if j in s.m.jobs { EnqueueLength(s.m.queue, Retried(FromRow(s.m.jobs[j]))); }
  }

  lemma GaugePlace(s: System, chosen: seq<NodeRow>)
    requires GaugeExact(s) && s.hand.Some?
    ensures GaugeExact(PlaceStep(s, s.hand.value, chosen))
  {
  }

  lemma GaugeTick(s: System, timeout: real, rows: seq<JobRow>)
    requires GaugeExact(s)
    ensures GaugeExact(Next(s, DoMonitor(timeout, rows)))
  {
    GaugeMonitor(s.m, rows, Detected(s.m.nodes, s.clock - timeout));
    FailOverAllFrame(s.m, rows, Detected(s.m.nodes, s.clock - timeout));
  }

  lemma GaugeRestart(s: System, rows: seq<JobRow>)
    requires GaugeExact(s)
    ensures GaugeExact(Next(s, DoRestart(rows)))
  {
    SortElements(Entries(rows), EntryKey);
  }

  lemma GaugeStep(s: System, step: Step)
    requires GaugeExact(s)
    ensures GaugeExact(Next(s, step))
  {
    match step
    case DoSubmit(id, request) => GaugeSubmit(s, id, request);
    case DoReport(n, j, outcome) => GaugeReport(s, n, j, outcome);
    case DoPlace(w, available) =>
      if Enabled(s, step) { GaugePlace(s, Allocate(w, available, s.hand.value.requiredNodes)); }
    case DoMonitor(timeout, rows) => GaugeTick(s, timeout, rows);
    case DoRestart(rows) => GaugeRestart(s, rows);
    case _ =>
  }

  lemma {:induction false} SentOnce(commands: CommandQueues, j: JobId, chosen: seq<NodeRow>, rank: nat, t: Tag)
    requires rank <= |chosen|
    requires forall i, k :: 0 <= i < k < |chosen| ==> chosen[i].id != chosen[k].id
    ensures SentFrom(commands, j, chosen, rank)[t] <= 1
    ensures SentFrom(commands, j, chosen, rank)[t] == 1 ==>
      t.job == j && exists i :: rank <= i < |chosen| && chosen[i].id == t.node && t.node in commands
    decreases |chosen| - rank
  {
    if rank < |chosen| { SentOnce(commands, j, chosen, rank + 1, t); }
  }

  lemma ChosenDistinct(s: System, w: Weights, available: seq<NodeRow>)
    requires Enabled(s, DoPlace(w, available))
    ensures var chosen := Allocate(w, available, s.hand.value.requiredNodes);
            && (forall i, k :: 0 <= i < k < |chosen| ==> chosen[i].id != chosen[k].id)
            && (forall i :: 0 <= i < |chosen| ==> chosen[i] in available)
  {
    AllocateDistinct(w, available, s.hand.value.requiredNodes);
  }

  lemma IssuedPlace(s: System, chosen: seq<NodeRow>)
    requires IssuedByDispatch(s) && s.hand.Some?
    requires forall i, k :: 0 <= i < k < |chosen| ==> chosen[i].id != chosen[k].id
    ensures IssuedByDispatch(PlaceStep(s, s.hand.value, chosen))
  {
    var s' := PlaceStep(s, s.hand.value, chosen);
    forall t ensures s'.h.issued[t] <= s'.h.dispatched[t.job] {
      SentOnce(s.m.commands, s.hand.value.id, chosen, 0, t);
    }
  }

  lemma IssuedStep(s: System, step: Step)
    requires IssuedByDispatch(s)
    ensures IssuedByDispatch(Next(s, step))
  {
    match step
    case DoPlace(w, available) =>
      if Enabled(s, step) {
        ChosenDistinct(s, w, available);
        IssuedPlace(s, Allocate(w, available, s.hand.value.requiredNodes));
      }
    case _ => assert Next(s, step).h.issued == s.h.issued && Next(s, step).h.dispatched == s.h.dispatched;
  }

  lemma InvStep(s: System, step: Step)
    requires Inv(s)
    ensures Inv(Next(s, step))
  {
    var fs := Simulate(s, step);
    FineInvRun(Shadow(s), fs);
    PaidRun(Shadow(s), fs);
    GaugeStep(s, step);
    IssuedStep(s, step);
    NodesKeyed(s, step);
  }

  lemma NodesKeyed(s: System, step: Step)
    requires forall n :: n in s.m.nodes ==> s.m.nodes[n].id == n
    ensures forall n :: n in Next(s, step).m.nodes ==> Next(s, step).m.nodes[n].id == n
  {
    if Enabled(s, step) && step.DoMonitor? {
      FailOverAllFrame(s.m, step.rows, Detected(s.m.nodes, s.clock - step.timeout));
    }
  }

  lemma {:induction false} InvRun(s: System, steps: seq<Step>)
    requires Inv(s)
    ensures Inv(Run(s, steps))
    decreases |steps|
  {
    if steps != [] {
      InvStep(s, steps[0]);
      InvRun(Next(s, steps[0]), steps[1..]);
    }
  }

  /** Tables a manager may start on. */
  ghost predicate GoodStart(nodes: NodeTable, jobs: JobTable, rows: seq<JobRow>) {
    (forall n :: n in nodes ==> nodes[n].id == n) && GoodTable(jobs) && ListsJobs(rows, jobs, Pending)
  }

  lemma StartInv(nodes: NodeTable, jobs: JobTable, rows: seq<JobRow>, clock: real)
    requires GoodStart(nodes, jobs, rows)
    ensures Inv(Start(nodes, jobs, rows, clock))
  {
    BootInv(jobs, rows);
    assert Shadow(Start(nodes, jobs, rows, clock)) == Boot(jobs, rows);
    SortElements(Entries(rows), EntryKey);
  }
}
