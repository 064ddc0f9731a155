/** Jobs submitted in one manager lifetime are dispatched for the first time in the order of their
    submission. The dictionary from the submit handler sorts in front of every copy that a retry
    makes of the same job, so the first dispatch of a job is always that of this dictionary. */
module FirstDispatch {
  import opened ClusterTypes
  import opened StableSorting
  import opened TopSelection
  import opened Queueing
  import opened Allocation
  import opened Interleaving
  import opened ManagerModel
  import opened ManagerRuns
  import opened HeadOfLine

  // ---------- The copies of one job ----------

  /** The copies of a job, front to back: the one in the scheduler's hand first. */
  function CopiesOf(hand: Option<Entry>, queue: seq<Entry>, j: JobId): seq<Entry> {
    Filter(HandSeq(hand) + queue, IsFor(j))
  }

  /** No copy but the foremost is from the submit handler, and none outranks such a copy. */
  ghost predicate FreshFirst(c: seq<Entry>) {
    forall i :: 0 <= i < |c| ==> Ordinary(c[i]) && (i > 0 ==> !IsFresh(c[i]))
  }

  predicate HeadFresh(c: seq<Entry>) { c != [] && IsFresh(c[0]) }

  ghost predicate NoneFreshIn(c: seq<Entry>) { forall x :: x in c ==> Ordinary(x) && !IsFresh(x) }

  lemma SortNoneFresh(c: seq<Entry>)
    requires NoneFreshIn(c)
    ensures NoneFreshIn(Sort(c, EntryKey)) && |Sort(c, EntryKey)| == |c|
  {
    SortElements(c, EntryKey);
    forall x | x in Sort(c, EntryKey) ensures x in c { assert x in multiset(c); }
  }

  lemma SortFreshFirst(c: seq<Entry>)
    requires FreshFirst(c)
    ensures FreshFirst(Sort(c, EntryKey)) && (HeadFresh(Sort(c, EntryKey)) <==> HeadFresh(c))
  {
    if HeadFresh(c) {
      assert forall x :: x in c[1..] ==> exists i :: 1 <= i < |c| && c[i] == x;
      SortNoneFresh(c[1..]);
      var rest := Sort(c[1..], EntryKey);
      assert rest != [] ==> rest[0] in rest;
      assert Sort(c, EntryKey) == [c[0]] + rest;
    } else {
      SortNoneFresh(c);
    }
  }

  function IfOwn(x: Entry, j: JobId): seq<Entry> { if x.id == j then [x] else [] }

  lemma SelectOne(x: Entry, j: JobId)
    ensures Filter([x], IsFor(j)) == IfOwn(x, j)
  {
    assert [x][1..] == [];
    assert Filter([x][1..], IsFor(j)) == [];
  }

  lemma SelectEnqueue(queue: seq<Entry>, x: Entry, j: JobId)
    ensures Filter(Enqueue(queue, x), IsFor(j)) == Sort(Filter(queue, IsFor(j)) + IfOwn(x, j), EntryKey)
  {
    SelectSorted(queue + [x], EntryKey, IsFor(j));
    FilterConcat(queue, [x], IsFor(j));
    SelectOne(x, j);
  }

  /** The copies before and after appending and re-sorting. */
  lemma CopiesAfterEnqueue(hand: Option<Entry>, queue: seq<Entry>, x: Entry, j: JobId)
    ensures CopiesOf(hand, queue, j) == Filter(HandSeq(hand), IsFor(j)) + Filter(queue, IsFor(j))
    ensures CopiesOf(hand, Enqueue(queue, x), j)
         == Filter(HandSeq(hand), IsFor(j)) + Sort(Filter(queue, IsFor(j)) + IfOwn(x, j), EntryKey)
  {
    FilterConcat(HandSeq(hand), queue, IsFor(j));
    FilterConcat(HandSeq(hand), Enqueue(queue, x), IsFor(j));
    SelectEnqueue(queue, x, j);
  }

  lemma FreshFirstSplit(a: seq<Entry>, b: seq<Entry>, b': seq<Entry>)
    requires FreshFirst(a + b) && FreshFirst(b') && (HeadFresh(b') ==> HeadFresh(b)) && |a| <= 1
    ensures FreshFirst(a + b')
    ensures a != [] ==> (HeadFresh(a + b') <==> HeadFresh(a + b))
  {
    if a != [] {
      assert (a + b)[0] == a[0];
      assert b != [] ==> (a + b)[1] == b[0];
    }
  }

  lemma FreshFirstTail(a: seq<Entry>, b: seq<Entry>)
    requires FreshFirst(a + b)
    ensures FreshFirst(b)
  {
    forall i | 0 <= i < |b| ensures Ordinary(b[i]) && (i > 0 ==> !IsFresh(b[i])) { assert (a + b)[|a| + i] == b[i]; }
  }

  lemma FreshFirstAppend(b: seq<Entry>, x: Entry)
    requires FreshFirst(b) && Ordinary(x) && !IsFresh(x)
    ensures FreshFirst(b + [x]) && (HeadFresh(b + [x]) <==> HeadFresh(b))
  {
  }

  /** Sending any job back to the queue keeps a job's fresh copy in front of its other copies. */
  lemma EnqueueKeeps(hand: Option<Entry>, queue: seq<Entry>, x: Entry, j: JobId)
    requires FreshFirst(CopiesOf(hand, queue, j)) && (x.id == j ==> Ordinary(x) && !IsFresh(x))
    ensures var c := CopiesOf(hand, Enqueue(queue, x), j);
            FreshFirst(c) && (HeadFresh(c) <==> HeadFresh(CopiesOf(hand, queue, j)))
  {
    var a, b := Filter(HandSeq(hand), IsFor(j)), Filter(queue, IsFor(j));
    var more := b + IfOwn(x, j);
    CopiesAfterEnqueue(hand, queue, x, j);
    FreshFirstTail(a, b);
    if x.id == j { FreshFirstAppend(b, x); } else { assert more == b; }
    SortFreshFirst(more);
    FreshFirstSplit(a, b, Sort(more, EntryKey));
    if a == [] {
      assert a + b == b && a + Sort(more, EntryKey) == Sort(more, EntryKey);
    }
  }

  lemma EnqueueNew(hand: Option<Entry>, queue: seq<Entry>, x: Entry)
    requires CopiesOf(hand, queue, x.id) == [] && IsFresh(x)
    ensures CopiesOf(hand, Enqueue(queue, x), x.id) == [x]
  {
    CopiesAfterEnqueue(hand, queue, x, x.id);
    assert Filter(HandSeq(hand), IsFor(x.id)) == [] && Filter(queue, IsFor(x.id)) == [];
    assert [] + [x] == [x] && [x][1..] == [];
  }

  // ---------- The invariant ----------

  /** What is known of a job submitted since the last restart: its copies keep the fresh one in front,
      which still waits exactly as long as the job has not been dispatched. */
  ghost predicate Followed(s: System, j: JobId) {
    var c := CopiesOf(s.hand, s.m.queue, j);
    && j in s.m.jobs && s.m.jobs[j].priority <= 0 && s.m.jobs[j].createdAt >= 0.0
    && FreshFirst(c) && (HeadFresh(c) <==> s.h.dispatched[j] == 0)
  }

  ghost predicate FifoInv(s: System) {
    && s.clock >= 0.0
    && (forall j :: j in s.h.appended ==> Followed(s, j))
    && (forall i, k :: 0 <= i < k < |s.h.appended| ==> s.h.appended[i] != s.h.appended[k])
    && s.h.firstRuns == s.h.firstOut
  }

  lemma {:induction false} FreshCopy(q: seq<Entry>, i: nat)
    requires i < |q| && IsFresh(q[i])
    ensures q[i].id in FreshIds(q)
  {
    if i == 0 {
      assert FreshIds(q)[0] == q[0].id;
    } else {
      FreshCopy(q[1..], i - 1);
      FreshConcat([q[0]], q[1..]);
      assert q == [q[0]] + q[1..];
    }
  }

  lemma {:induction false} FreshHolder(q: seq<Entry>, j: JobId) returns (i: nat)
    requires j in FreshIds(q)
    ensures i < |q| && IsFresh(q[i]) && q[i].id == j
  {
    assert q != [];
    if IsFresh(q[0]) && q[0].id == j { return 0; }
    FreshConcat([q[0]], q[1..]);
    FreshOne(q[0]);
    assert q == [q[0]] + q[1..];
    i := FreshHolder(q[1..], j);
    i := i + 1;
  }

  /** The job in hand is a first submission exactly when it is submitted since the restart and never
      dispatched yet. */
  lemma HandFreshIff(s: System)
    requires FirstInFirstOut(Shadow(s)) && FifoInv(s) && s.hand.Some?
    ensures FirstRun(s.h, s.hand.value.id) == FreshTag(s.hand.value)
  {
    var e := s.hand.value;
    var c := CopiesOf(s.hand, s.m.queue, e.id);
    assert (HandSeq(s.hand) + s.m.queue)[0] == e;
    assert c != [] && c[0] == e;
    if IsFresh(e) {
      FreshCopy(HandSeq(s.hand) + s.m.queue, 0);
      assert e.id in s.h.appended;
    }
    if e.id in s.h.appended { assert Followed(s, e.id); }
  }

  // ---------- Preservation ----------

  lemma FollowedSubmit(s: System, id: JobId, request: JobRequest)
    requires Coherent(Shadow(s)) && s.clock >= 0.0 && id !in s.m.jobs
    ensures Followed(Next(s, DoSubmit(id, request)), id)
  {
    UnknownNotInPlay(Shadow(s), id);
    NoCopies(HandSeq(s.hand) + s.m.queue, id);
    CountConcat(HandSeq(s.hand), s.m.queue, IsFor(id));
    EnqueueNew(s.hand, s.m.queue, FromRequest(id, request));
    assert Known(Shadow(s).dispatched, s.m.jobs);
  }

  lemma {:induction false} NoCopies(q: seq<Entry>, j: JobId)
    ensures |Filter(q, IsFor(j))| == Count(q, IsFor(j))
  {
    if q != [] { NoCopies(q[1..], j); }
  }

  lemma FollowedSubmitOther(s: System, id: JobId, request: JobRequest, j: JobId)
    requires Followed(s, j) && id != j
    ensures Followed(Next(s, DoSubmit(id, request)), j)
  {
    EnqueueKeeps(s.hand, s.m.queue, FromRequest(id, request), j);
  }

  /** The part of `Followed` that failing over can touch. */
  ghost predicate Placed(m: Manager, hand: Option<Entry>, j: JobId, waits: bool) {
    var c := CopiesOf(hand, m.queue, j);
    && j in m.jobs && m.jobs[j].priority <= 0 && m.jobs[j].createdAt >= 0.0
    && FreshFirst(c) && (HeadFresh(c) <==> waits)
  }

  lemma PlacedFailOver(m: Manager, row: JobRow, offline: set<NodeId>, hand: Option<Entry>, j: JobId, waits: bool)
    requires row.id in m.jobs && m.jobs[row.id] == row && Placed(m, hand, j, waits)
    ensures Placed(FailOver(m, row, offline), hand, j, waits)
  {
    EnqueueKeeps(hand, m.queue, Retried(FromRow(row)), j);
  }

  lemma {:induction false} PlacedFailOverAll(
    m: Manager, rows: seq<JobRow>, offline: set<NodeId>, hand: Option<Entry>, j: JobId, waits: bool)
    requires Current(rows, m.jobs) && Placed(m, hand, j, waits)
    ensures Placed(FailOverAll(m, rows, offline), hand, j, waits)
    decreases |rows|
  {
    if rows != [] {
      assert rows[0].id in m.jobs && m.jobs[rows[0].id] == rows[0];
      PlacedFailOver(m, rows[0], offline, hand, j, waits);
      FailOverCurrent(m, rows, offline);
      PlacedFailOverAll(FailOver(m, rows[0], offline), rows[1..], offline, hand, j, waits);
    }
  }

  lemma FollowedReport(s: System, n: NodeId, k: JobId, outcome: Outcome, j: JobId)
    requires Keyed(s.m.jobs) && Followed(s, j)
    ensures Followed(Next(s, DoReport(n, k, outcome)), j)
  {
    PlacedReport(s.m, n, k, outcome, s.hand, j, s.h.dispatched[j] == 0);
  }

  lemma PlacedReport(
    m: Manager, n: NodeId, k: JobId, outcome: Outcome, hand: Option<Entry>, j: JobId, waits: bool)
    requires Keyed(m.jobs) && Placed(m, hand, j, waits)
    ensures Placed(Report(m, n, k, outcome), hand, j, waits)
  {
    if k in m.jobs { EnqueueKeeps(hand, m.queue, Retried(FromRow(m.jobs[k])), j); }
  }

  lemma FollowedTick(s: System, timeout: real, rows: seq<JobRow>, j: JobId)
    requires Keyed(s.m.jobs) && Enabled(s, DoMonitor(timeout, rows)) && Followed(s, j)
    ensures Followed(Next(s, DoMonitor(timeout, rows)), j)
  {
    PlacedFailOverAll(s.m, rows, Detected(s.m.nodes, s.clock - timeout), s.hand, j, s.h.dispatched[j] == 0);
  }

  lemma FollowedPop(s: System, j: JobId)
    requires Enabled(s, DoPop) && Followed(s, j)
    ensures Followed(Next(s, DoPop), j)
  {
    assert HandSeq(s.hand) + s.m.queue == HandSeq(Some(s.m.queue[0])) + s.m.queue[1..];
  }

  /** The copies of a job when one entry stands in front of a queue. */
  lemma CopiesBehind(e: Entry, queue: seq<Entry>, j: JobId)
    ensures CopiesOf(Some(e), queue, j) == IfOwn(e, j) + CopiesOf(None, queue, j)
    ensures CopiesOf(None, [e] + queue, j) == CopiesOf(Some(e), queue, j)
  {
    FilterConcat([e], queue, IsFor(j));
    SelectOne(e, j);
    assert HandSeq(None) + queue == queue && HandSeq(None) + ([e] + queue) == [e] + queue;
  }

  lemma RestNotFresh(e: Entry, rest: seq<Entry>)
    requires FreshFirst([e] + rest)
    ensures FreshFirst(rest) && !HeadFresh(rest)
  {
    FreshFirstTail([e], rest);
    assert rest != [] ==> ([e] + rest)[1] == rest[0];
  }

  lemma FollowedPlace(s: System, chosen: seq<NodeRow>, j: JobId)
    requires s.hand.Some? && Followed(s, j)
    ensures Followed(PlaceStep(s, s.hand.value, chosen), j)
  {
    var e := s.hand.value;
    var rest := CopiesOf(None, s.m.queue, j);
    CopiesBehind(e, s.m.queue, j);
    if e.id == j { RestNotFresh(e, rest); } else { assert IfOwn(e, j) + rest == rest; }
  }

  lemma FollowedStep(s: System, step: Step, j: JobId)
    requires Coherent(Shadow(s)) && s.clock >= 0.0 && (j in s.h.appended ==> Followed(s, j))
    requires j in Next(s, step).h.appended && !(step.DoRestart? && Enabled(s, step))
    ensures Followed(Next(s, step), j)
  {
    if Enabled(s, step) {
      match step
      case DoSubmit(id, request) =>
        if j in s.h.appended { KnownSubmit(s, id, request, j); } else { FollowedSubmit(s, id, request); }
      case DoReport(n, k, outcome) => FollowedReport(s, n, k, outcome, j);
      case DoPop => FollowedPop(s, j);
      case DoPlace(w, available) => FollowedPlace(s, Allocate(w, available, s.hand.value.requiredNodes), j);
      case DoMonitor(timeout, rows) => FollowedTick(s, timeout, rows, j);
      case DoRestart(_) =>
      case _ => assert Followed(s, j);
    }
  }

  lemma KnownSubmit(s: System, id: JobId, request: JobRequest, j: JobId)
    requires Followed(s, j)
    ensures Followed(Next(s, DoSubmit(id, request)), j)
  {
    if id != j { FollowedSubmitOther(s, id, request, j); }
  }

  lemma BooksStep(s: System, step: Step)
    requires FirstInFirstOut(Shadow(s)) && FifoInv(s)
    ensures Next(s, step).clock >= 0.0 && Next(s, step).h.firstRuns == Next(s, step).h.firstOut
    ensures forall i, k :: 0 <= i < k < |Next(s, step).h.appended| ==>
              Next(s, step).h.appended[i] != Next(s, step).h.appended[k]
  {
    if Enabled(s, step) && step.DoPlace? { HandFreshIff(s); }
    if step.DoSubmit? {
      forall i | 0 <= i < |s.h.appended| ensures s.h.appended[i] in s.m.jobs { assert Followed(s, s.h.appended[i]); }
    }
  }

  lemma FifoInvStep(s: System, step: Step)
    requires Inv(s) && FifoInv(s)
    ensures FifoInv(Next(s, step))
  {
    BooksStep(s, step);
    if Enabled(s, step) && step.DoRestart? {
      assert Next(s, step).h.appended == [];
    } else {
      forall j | j in Next(s, step).h.appended ensures Followed(Next(s, step), j) { FollowedStep(s, step, j); }
    }
  }

  lemma {:induction false} FifoInvRun(s: System, steps: seq<Step>)
    requires Inv(s) && FifoInv(s)
    ensures Inv(Run(s, steps)) && FifoInv(Run(s, steps))
    decreases |steps|
  {
    if steps != [] {
      FifoInvStep(s, steps[0]);
      InvStep(s, steps[0]);
      FifoInvRun(Next(s, steps[0]), steps[1..]);
    }
  }

  // ---------- The theorem ----------

  /** A job's submission still waits exactly when its foremost copy is that submission. */
  lemma SubmissionWaits(q: seq<Entry>, j: JobId)
    requires FreshFirst(Filter(q, IsFor(j)))
    ensures j in FreshIds(q) <==> HeadFresh(Filter(q, IsFor(j)))
  {
    var c := Filter(q, IsFor(j));
    if j in FreshIds(q) {
      var i := FreshHolder(q, j);
      FilterMembers(q, IsFor(j), q[i]);
      var k :| 0 <= k < |c| && c[k] == q[i];
    }
    if HeadFresh(c) {
      FilterMembers(q, IsFor(j), c[0]);
      var i :| 0 <= i < |q| && q[i] == c[0];
      FreshCopy(q, i);
    }
  }

  /** The jobs submitted since the last restart, each listed once, have had their first dispatches in the
      order of their submissions and without a gap. */
  ghost predicate InSubmissionOrder(h: History) {
    && h.firstRuns <= h.appended
    && (forall i, k :: 0 <= i < k < |h.appended| ==> h.appended[i] != h.appended[k])
    && (forall i :: |h.firstRuns| <= i < |h.appended| ==> h.dispatched[h.appended[i]] == 0)
    && (forall i :: 0 <= i < |h.firstRuns| ==> h.dispatched[h.firstRuns[i]] > 0)
  }

  lemma InOrder(s: System)
    requires FirstInFirstOut(Shadow(s)) && FifoInv(s)
    ensures InSubmissionOrder(s.h)
  {
    var q, d := HandSeq(s.hand) + s.m.queue, |s.h.firstRuns|;
    assert s.h.appended == s.h.firstRuns + FreshIds(q);
    forall i | 0 <= i < |s.h.appended|
      ensures s.h.dispatched[s.h.appended[i]] == 0 <==> s.h.appended[i] in FreshIds(q)
    {
      assert Followed(s, s.h.appended[i]);
      SubmissionWaits(q, s.h.appended[i]);
    }
    forall i | d <= i < |s.h.appended| ensures s.h.dispatched[s.h.appended[i]] == 0 {
      assert s.h.appended[i] == FreshIds(q)[i - d];
    }
    forall i | 0 <= i < d ensures s.h.dispatched[s.h.firstRuns[i]] > 0 {
      assert s.h.appended[i] == s.h.firstRuns[i];
      forall l | 0 <= l < |FreshIds(q)| ensures FreshIds(q)[l] != s.h.appended[i] {
        assert s.h.appended[d + l] == FreshIds(q)[l];
      }
    }
  }

  /** Through failed selections, requeues, retries of any job, ticks and restarts, jobs are dispatched for
      the first time in the order of their submissions. `firstRuns` lists each job when it is dispatched
      for the first time, from whatever copy; the clock of the machine is not negative. */
  lemma FirstDispatchFifo(nodes: NodeTable, jobs: JobTable, rows: seq<JobRow>, clock: real, steps: seq<Step>)
    requires GoodStart(nodes, jobs, rows) && clock >= 0.0
    ensures InSubmissionOrder(Run(Start(nodes, jobs, rows, clock), steps).h)
  {
    StartInv(nodes, jobs, rows, clock);
    FifoInvRun(Start(nodes, jobs, rows, clock), steps);
    InOrder(Run(Start(nodes, jobs, rows, clock), steps));
  }
}
