/** The job lifecycle with every thread free to run between any two of its accesses to the
    shared state: the job table, the queue, and the one job in the scheduler's hand.
    `seen` holds the handlers and monitor iterations that have read a row and not acted on it
    yet; `owed` those that have written the table and not appended to the queue yet. A row in
    `seen` may be arbitrarily out of date when it is acted on. */
module Interleaving {
  import opened ClusterTypes
  import opened StableSorting
  import opened TopSelection
  import opened Registry
  import opened Queueing

  datatype Fine = Fine(
    jobs: JobTable,
    queue: seq<Entry>,
    hand: Option<Entry>,
    seen: seq<JobRow>,
    owed: seq<Entry>,
    dispatched: multiset<JobId>,  // every dispatch so far, across restarts
    appended: seq<JobId>,         // first submissions in the order they entered the queue, since the last restart
    firstOut: seq<JobId>)         // first submissions in the order they were dispatched, since the last restart

  datatype FineStep =
    | InsertRow(id: JobId, request: JobRequest, now: real)  // submit: the row is written
    | AppendEntry(i: nat)                                   // submit or retry: the entry joins the queue
    | ReadRow(id: JobId)                                    // failure report or monitor: the row is read
    | WriteRetry(i: nat)                                    // ... and sent back to PENDING
    | WriteFailed(i: nat)                                   // ... or given up
    | WriteCompleted(id: JobId)                             // completion report
    | PopTop                                                // scheduler: take the front job
    | PutBack                                               // scheduler: no nodes, put it back in front
    | WriteRunning(nodes: seq<NodeId>)                      // scheduler: dispatch
    | Recover(rows: seq<JobRow>)                            // crash and restart: every thread is gone

  ghost predicate Can(f: Fine, step: FineStep) {
    match step
    case InsertRow(id, _, _) => id !in f.jobs
    case AppendEntry(i) => i < |f.owed|
    case ReadRow(id) => id in f.jobs
    case WriteRetry(i) => i < |f.seen| && f.seen[i].retries < f.seen[i].maxRetries
    case WriteFailed(i) => i < |f.seen| && f.seen[i].retries >= f.seen[i].maxRetries
    case WriteCompleted(_) => true
    case PopTop => f.hand.None? && f.queue != []
    case PutBack => f.hand.Some?
    case WriteRunning(_) => f.hand.Some?
    case Recover(rows) => ListsJobs(rows, f.jobs, Pending)
  }

  function IfFresh(e: Entry): seq<JobId> { if IsFresh(e) then [e.id] else [] }

  /** A step that cannot happen changes nothing. */
  ghost function FineNext(f: Fine, step: FineStep): Fine {
    if !Can(f, step) then f
    else match step
      case InsertRow(id, request, now) =>
        f.(jobs := f.jobs[id := NewRow(FromRequest(id, request), now)], owed := f.owed + [FromRequest(id, request)])
      case AppendEntry(i) =>
        f.(queue := Enqueue(f.queue, f.owed[i]), owed := Without(f.owed, i),
           appended := f.appended + IfFresh(f.owed[i]))
      case ReadRow(id) => f.(seen := f.seen + [f.jobs[id]])
      case WriteRetry(i) =>
        var row := f.seen[i];
        f.(jobs := SetJobRetries(f.jobs, row.id, Pending, row.retries + 1),
           seen := Without(f.seen, i), owed := f.owed + [Retried(FromRow(row))])
      case WriteFailed(i) =>
        f.(jobs := SetJobStatus(f.jobs, f.seen[i].id, Failed, None), seen := Without(f.seen, i))
      case WriteCompleted(id) => f.(jobs := SetJobStatus(f.jobs, id, Completed, None))
      case PopTop => f.(hand := Some(f.queue[0]), queue := f.queue[1..])
      case PutBack => f.(hand := None, queue := [f.hand.value] + f.queue)
      case WriteRunning(nodes) =>
        var e := f.hand.value;
        f.(hand := None, jobs := SetJobStatus(f.jobs, e.id, Running, Some(nodes)),
           dispatched := f.dispatched + multiset{e.id}, firstOut := f.firstOut + IfFresh(e))
      case Recover(rows) =>
        Fine(f.jobs, Recovered(rows), None, [], [], f.dispatched, [], [])
  }

  ghost function FineRun(f: Fine, steps: seq<FineStep>): Fine
    decreases |steps|
  {
    if steps == [] then f else FineRun(FineNext(f, steps[0]), steps[1..])
  }

  lemma {:induction false} FineRunConcat(f: Fine, a: seq<FineStep>, b: seq<FineStep>)
    ensures FineRun(f, a + b) == FineRun(FineRun(f, a), b)
    decreases |a|
  {
    if a == [] {
      assert a + b == b;
    } else {
      FineRunConcat(FineNext(f, a[0]), a[1..], b);
      assert (a + b)[0] == a[0] && (a + b)[1..] == a[1..] + b;
    }
  }

  /** The manager as it comes up on a job table, before any other step. */
  ghost function Boot(jobs: JobTable, rows: seq<JobRow>): Fine {
    Fine(jobs, Recovered(rows), None, [], [], multiset{}, [], [])
  }

  // ---------- The invariant ----------

  function HandSeq(hand: Option<Entry>): seq<Entry> { if hand.Some? then [hand.value] else [] }

  /** The copies of a job that are queued, in the scheduler's hand, or about to be appended. */
  function InPlay(f: Fine, j: JobId): nat {
    Copies(f.queue, j) + Copies(HandSeq(f.hand), j) + Copies(f.owed, j)
  }

  ghost predicate GoodTable(jobs: JobTable) {
    Keyed(jobs) && forall j :: j in jobs ==> 0 <= jobs[j].retries <= Budget(jobs[j])
  }

  ghost predicate GoodReads(seen: seq<JobRow>, jobs: JobTable) {
    forall i :: 0 <= i < |seen| ==>
      seen[i].id in jobs && Agrees(FromRow(seen[i]), jobs[seen[i].id]) && 0 <= seen[i].retries <= Budget(seen[i])
  }

  ghost predicate GoodEntries(q: seq<Entry>, jobs: JobTable) {
    forall i :: 0 <= i < |q| ==> q[i].id in jobs && Agrees(q[i], jobs[q[i].id])
  }

  /** The queue is sorted while a job is in hand; otherwise all of it behind the front is. */
  ghost predicate QueueSorted(f: Fine) {
    Sorted(if f.hand.Some? || f.queue == [] then f.queue else f.queue[1..], EntryKey)
  }

  /** Each pending job is somewhere on its way to the scheduler. */
  ghost predicate NothingLost(f: Fine) {
    forall j :: j in f.jobs && f.jobs[j].status == Pending ==> InPlay(f, j) >= 1
  }

  /** What has entered the queue for the first time is what has left it, followed by what still waits. */
  ghost predicate FirstInFirstOut(f: Fine) {
    f.appended == f.firstOut + FreshIds(HandSeq(f.hand) + f.queue)
  }

  ghost predicate Known(ids: multiset<JobId>, jobs: JobTable) {
    forall j :: ids[j] > 0 ==> j in jobs
  }

  /** The part of the invariant about what is in the table and agrees with it. */
  ghost predicate Coherent(f: Fine) {
    && GoodTable(f.jobs)
    && GoodReads(f.seen, f.jobs)
    && GoodEntries(f.queue, f.jobs) && GoodEntries(HandSeq(f.hand), f.jobs) && GoodEntries(f.owed, f.jobs)
    && Known(f.dispatched, f.jobs)
  }

  ghost predicate FineInv(f: Fine) {
    && Coherent(f)
    && QueueSorted(f)
    && NothingLost(f)
    && FirstInFirstOut(f)
  }

  /** One attempt plus the counted retries pay for every dispatch and every copy in play. */
  ghost predicate Paid(f: Fine) {
    forall j :: j in f.jobs ==> f.dispatched[j] + InPlay(f, j) <= 1 + f.jobs[j].retries
  }

  // ---------- Supporting facts ----------

  lemma UnknownNotInPlay(f: Fine, j: JobId)
    requires Coherent(f) && j !in f.jobs
    ensures InPlay(f, j) == 0
  {
    CountNone(f.queue, IsFor(j));
    CountNone(HandSeq(f.hand), IsFor(j));
    CountNone(f.owed, IsFor(j));
  }

  lemma CopiesOne(e: Entry, j: JobId)
    ensures Copies([e], j) == if e.id == j then 1 else 0
  {
    assert [e][1..] == [];
    assert Count([e][1..], IsFor(j)) == 0;
  }

  lemma EnqueueGood(q: seq<Entry>, e: Entry, jobs: JobTable)
    requires GoodEntries(q, jobs) && e.id in jobs && Agrees(e, jobs[e.id])
    ensures GoodEntries(Enqueue(q, e), jobs)
  {
    SortElements(q + [e], EntryKey);
    forall i | 0 <= i < |Enqueue(q, e)|
      ensures Enqueue(q, e)[i].id in jobs && Agrees(Enqueue(q, e)[i], jobs[Enqueue(q, e)[i].id])
    {
      assert Enqueue(q, e)[i] in multiset(q + [e]);
    }
  }

  lemma RecoveredGood(rows: seq<JobRow>, jobs: JobTable)
    requires Keyed(jobs) && ListsJobs(rows, jobs, Pending)
    ensures GoodEntries(Recovered(rows), jobs)
  {
    SortElements(Entries(rows), EntryKey);
    forall i | 0 <= i < |Recovered(rows)|
      ensures Recovered(rows)[i].id in jobs && Agrees(Recovered(rows)[i], jobs[Recovered(rows)[i].id])
    {
      assert Recovered(rows)[i] in multiset(Entries(rows));
    }
  }

  lemma SortedTail(q: seq<Entry>)
    requires Sorted(q, EntryKey)
    ensures Sorted(q[if q == [] then 0 else 1..], EntryKey)
  {
  }

  // ---------- How each step moves the copies ----------

  /** By how much a step changes the copies in play of job `j`, other than a restart. */
  ghost function Created(f: Fine, step: FineStep, j: JobId): int {
    if !Can(f, step) then 0
    else match step
      case InsertRow(id, _, _) => if id == j then 1 else 0
      case WriteRetry(i) => if f.seen[i].id == j then 1 else 0
      case WriteRunning(_) => if f.hand.value.id == j then -1 else 0
      case _ => 0
  }

  /** Copies are made by submissions and retries only, and used up by dispatches only. */
  lemma CopiesMove(f: Fine, step: FineStep, j: JobId)
    requires !step.Recover?
    ensures InPlay(FineNext(f, step), j) == InPlay(f, j) + Created(f, step, j)
  {
    if Can(f, step) {
      match step
      case InsertRow(id, request, _) =>
        CountConcat(f.owed, [FromRequest(id, request)], IsFor(j));
        CopiesOne(FromRequest(id, request), j);
      case AppendEntry(i) =>
        CopiesEnqueue(f.queue, f.owed[i], j);
        CountWithout(f.owed, IsFor(j), i);
      case WriteRetry(i) =>
        CountConcat(f.owed, [Retried(FromRow(f.seen[i]))], IsFor(j));
        CopiesOne(Retried(FromRow(f.seen[i])), j);
      case PopTop =>
        assert f.queue == [f.queue[0]] + f.queue[1..];
        CopiesPrepend(f.queue[1..], f.queue[0], j);
        CopiesOne(f.queue[0], j);
      case PutBack =>
        CopiesPrepend(f.queue, f.hand.value, j);
        CopiesOne(f.hand.value, j);
      case WriteRunning(_) =>
        CopiesOne(f.hand.value, j);
      case _ =>
    }
  }

  lemma RecoverCopies(f: Fine, rows: seq<JobRow>, j: JobId)
    requires Keyed(f.jobs) && Can(f, Recover(rows))
    ensures InPlay(FineNext(f, Recover(rows)), j) == if j in f.jobs && f.jobs[j].status == Pending then 1 else 0
  {
    RecoveredOnce(rows, f.jobs, j);
  }

  // ---------- Preservation ----------

  /** Rows are never removed, and their immutable columns never change. */
  ghost predicate Extends(later: JobTable, jobs: JobTable) {
    forall j :: j in jobs ==> j in later && Agrees(FromRow(jobs[j]), later[j])
  }

  lemma StatusKeepsTable(jobs: JobTable, j: JobId, status: JobStatus, assignedNodes: Option<seq<NodeId>>)
    requires GoodTable(jobs)
    ensures GoodTable(SetJobStatus(jobs, j, status, assignedNodes))
    ensures Extends(SetJobStatus(jobs, j, status, assignedNodes), jobs)
  {
  }

  lemma RetriesKeepTable(jobs: JobTable, j: JobId, retries: int)
    requires GoodTable(jobs)
    requires j in jobs ==> 0 <= retries <= Budget(jobs[j])
    ensures GoodTable(SetJobRetries(jobs, j, Pending, retries))
    ensures Extends(SetJobRetries(jobs, j, Pending, retries), jobs)
  {
  }

  lemma InsertKeepsTable(jobs: JobTable, id: JobId, request: JobRequest, now: real)
    requires GoodTable(jobs) && id !in jobs
    ensures GoodTable(jobs[id := NewRow(FromRequest(id, request), now)])
    ensures Extends(jobs[id := NewRow(FromRequest(id, request), now)], jobs)
  {
  }

  lemma TableStep(f: Fine, step: FineStep)
    requires Coherent(f)
    ensures GoodTable(FineNext(f, step).jobs) && Extends(FineNext(f, step).jobs, f.jobs)
  {
    if Can(f, step) {
      match step
      case InsertRow(id, request, now) => InsertKeepsTable(f.jobs, id, request, now);
      case WriteRetry(i) => RetriesKeepTable(f.jobs, f.seen[i].id, f.seen[i].retries + 1);
      case WriteFailed(i) => StatusKeepsTable(f.jobs, f.seen[i].id, Failed, None);
      case WriteCompleted(id) => StatusKeepsTable(f.jobs, id, Completed, None);
      case WriteRunning(nodes) => StatusKeepsTable(f.jobs, f.hand.value.id, Running, Some(nodes));
      case _ =>
    }
  }

  lemma QueueStep(f: Fine, step: FineStep, later: JobTable)
    requires Coherent(f) && later == FineNext(f, step).jobs && Extends(later, f.jobs)
    ensures GoodEntries(FineNext(f, step).queue, later)
  {
    GoodEntriesKept(f.queue, f.jobs, later);
    GoodEntriesKept(HandSeq(f.hand), f.jobs, later);
    GoodEntriesKept(f.owed, f.jobs, later);
    if Can(f, step) {
      match step
      case AppendEntry(i) => EnqueueGood(f.queue, f.owed[i], later);
      case PutBack => assert HandSeq(f.hand)[0] == f.hand.value;
      case Recover(rows) => RecoveredGood(rows, f.jobs);
      case _ =>
    }
  }

  lemma HandStep(f: Fine, step: FineStep, later: JobTable)
    requires Coherent(f) && later == FineNext(f, step).jobs && Extends(later, f.jobs)
    ensures GoodEntries(HandSeq(FineNext(f, step).hand), later)
  {
    GoodEntriesKept(HandSeq(f.hand), f.jobs, later);
    GoodEntriesKept(f.queue, f.jobs, later);
  }

  lemma OwedStep(f: Fine, step: FineStep, later: JobTable)
    requires Coherent(f) && later == FineNext(f, step).jobs && Extends(later, f.jobs)
    ensures GoodEntries(FineNext(f, step).owed, later)
  {
    GoodEntriesKept(f.owed, f.jobs, later);
    if Can(f, step) {
      match step
      case InsertRow(id, request, _) => GoodEntriesWith(f.owed, FromRequest(id, request), later);
      case AppendEntry(i) => GoodEntriesWithout(f.owed, later, i);
      case WriteRetry(i) =>
        assert Agrees(FromRow(f.jobs[f.seen[i].id]), later[f.seen[i].id]);
        GoodEntriesWith(f.owed, Retried(FromRow(f.seen[i])), later);
      case _ =>
    }
  }

  lemma GoodEntriesWith(q: seq<Entry>, e: Entry, jobs: JobTable)
    requires GoodEntries(q, jobs) && e.id in jobs && Agrees(e, jobs[e.id])
    ensures GoodEntries(q + [e], jobs)
  {
  }

  lemma GoodEntriesWithout(q: seq<Entry>, jobs: JobTable, i: nat)
    requires GoodEntries(q, jobs) && i < |q|
    ensures GoodEntries(Without(q, i), jobs)
  {
  }

  lemma GoodEntriesKept(q: seq<Entry>, jobs: JobTable, later: JobTable)
    requires GoodEntries(q, jobs)
    requires Extends(later, jobs)
    ensures GoodEntries(q, later)
  {
    forall i | 0 <= i < |q| ensures q[i].id in later && Agrees(q[i], later[q[i].id]) {
      assert Agrees(FromRow(jobs[q[i].id]), later[q[i].id]);
    }
  }

  lemma GoodReadsKept(seen: seq<JobRow>, jobs: JobTable, later: JobTable)
    requires GoodReads(seen, jobs) && Extends(later, jobs)
    ensures GoodReads(seen, later)
  {
    forall i | 0 <= i < |seen|
      ensures seen[i].id in later && Agrees(FromRow(seen[i]), later[seen[i].id])
    {
      assert Agrees(FromRow(jobs[seen[i].id]), later[seen[i].id]);
    }
  }

  lemma GoodReadsWithout(seen: seq<JobRow>, jobs: JobTable, i: nat)
    requires GoodReads(seen, jobs) && i < |seen|
    ensures GoodReads(Without(seen, i), jobs)
  {
  }

  lemma ReadsStep(f: Fine, step: FineStep, later: JobTable)
    requires Coherent(f) && later == FineNext(f, step).jobs && Extends(later, f.jobs)
    ensures GoodReads(FineNext(f, step).seen, later)
  {
    GoodReadsKept(f.seen, f.jobs, later);
    if Can(f, step) {
      match step
      case WriteRetry(i) => GoodReadsWithout(f.seen, later, i);
      case WriteFailed(i) => GoodReadsWithout(f.seen, later, i);
      case _ =>
    }
  }

  lemma SortedStep(f: Fine, step: FineStep)
    requires QueueSorted(f)
    ensures QueueSorted(FineNext(f, step))
  {
    if Can(f, step) {
      match step
      case AppendEntry(i) =>
        SortSorted(f.queue + [f.owed[i]], EntryKey);
        SortedTail(Enqueue(f.queue, f.owed[i]));
      case Recover(rows) =>
        SortSorted(Entries(rows), EntryKey);
        SortedTail(Recovered(rows));
      case PutBack =>
        assert ([f.hand.value] + f.queue)[1..] == f.queue;
      case WriteRunning(_) =>
        SortedTail(f.queue);
      case _ =>
    }
  }

  /** A job that is pending after a step was pending before, or the step has just made a copy of it. */
  lemma PendingMove(f: Fine, step: FineStep, j: JobId)
    requires Coherent(f) && !step.Recover?
    requires j in FineNext(f, step).jobs && FineNext(f, step).jobs[j].status == Pending
    ensures Created(f, step, j) >= 0
    ensures (j in f.jobs && f.jobs[j].status == Pending) || Created(f, step, j) == 1
  {
  }

  lemma LostStep(f: Fine, step: FineStep)
    requires FineInv(f)
    ensures NothingLost(FineNext(f, step))
  {
    forall j | j in FineNext(f, step).jobs && FineNext(f, step).jobs[j].status == Pending
      ensures InPlay(FineNext(f, step), j) >= 1
    {
      if step.Recover? {
        if Can(f, step) { RecoverCopies(f, step.rows, j); }
      } else {
        CopiesMove(f, step, j);
        PendingMove(f, step, j);
      }
    }
  }

  lemma FreshAppend(front: seq<Entry>, queue: seq<Entry>, e: Entry)
    ensures FreshIds(front + Enqueue(queue, e)) == FreshIds(front + queue) + IfFresh(e)
  {
    FreshEnqueue(queue, e);
    FreshConcat(front, queue);
    FreshConcat(front, Enqueue(queue, e));
  }

  lemma FifoAppend(f: Fine, i: nat)
    requires FirstInFirstOut(f) && Can(f, AppendEntry(i))
    ensures FirstInFirstOut(FineNext(f, AppendEntry(i)))
  {
    FreshAppend(HandSeq(f.hand), f.queue, f.owed[i]);
  }

  lemma FifoPop(f: Fine)
    requires FirstInFirstOut(f) && Can(f, PopTop)
    ensures FirstInFirstOut(FineNext(f, PopTop))
  {
    assert HandSeq(None) + f.queue == HandSeq(Some(f.queue[0])) + f.queue[1..];
  }

  lemma FifoPutBack(f: Fine)
    requires FirstInFirstOut(f) && Can(f, PutBack)
    ensures FirstInFirstOut(FineNext(f, PutBack))
  {
    assert HandSeq(f.hand) + f.queue == HandSeq(None) + ([f.hand.value] + f.queue);
  }

  lemma FifoDispatch(f: Fine, nodes: seq<NodeId>)
    requires FirstInFirstOut(f) && Can(f, WriteRunning(nodes))
    ensures FirstInFirstOut(FineNext(f, WriteRunning(nodes)))
  {
    FreshConcat(HandSeq(f.hand), f.queue);
    FreshOne(f.hand.value);
    assert HandSeq(None) + f.queue == f.queue;
  }

  lemma FifoRecover(f: Fine, rows: seq<JobRow>)
    requires Can(f, Recover(rows))
    ensures FirstInFirstOut(FineNext(f, Recover(rows)))
  {
    RecoveredNotFresh(rows);
    assert HandSeq(None) + Recovered(rows) == Recovered(rows);
  }

  lemma FifoStep(f: Fine, step: FineStep)
    requires FirstInFirstOut(f)
    ensures FirstInFirstOut(FineNext(f, step))
  {
    if Can(f, step) {
      match step
      case AppendEntry(i) => FifoAppend(f, i);
      case PopTop => FifoPop(f);
      case PutBack => FifoPutBack(f);
      case WriteRunning(nodes) => FifoDispatch(f, nodes);
      case Recover(rows) => FifoRecover(f, rows);
      case _ =>
    }
  }

  lemma KnownKept(ids: multiset<JobId>, jobs: JobTable, later: JobTable)
    requires Known(ids, jobs) && Extends(later, jobs)
    ensures Known(ids, later)
  {
  }

  lemma KnownWith(ids: multiset<JobId>, jobs: JobTable, id: JobId)
    requires Known(ids, jobs) && id in jobs
    ensures Known(ids + multiset{id}, jobs)
  {
  }

  lemma DispatchedStep(f: Fine, step: FineStep, later: JobTable)
    requires Coherent(f) && later == FineNext(f, step).jobs && Extends(later, f.jobs)
    ensures Known(FineNext(f, step).dispatched, later)
  {
    KnownKept(f.dispatched, f.jobs, later);
    if Can(f, step) && step.WriteRunning? {
      assert HandSeq(f.hand)[0] == f.hand.value;
      KnownWith(f.dispatched, later, f.hand.value.id);
    }
  }

  lemma CoherentStep(f: Fine, step: FineStep)
    requires Coherent(f)
    ensures Coherent(FineNext(f, step))
  {
    var later := FineNext(f, step).jobs;
    TableStep(f, step);
    ReadsStep(f, step, later);
    QueueStep(f, step, later);
    HandStep(f, step, later);
    OwedStep(f, step, later);
    DispatchedStep(f, step, later);
  }

  /** Every step of every thread keeps the invariant. */
  lemma FineInvStep(f: Fine, step: FineStep)
    requires FineInv(f)
    ensures FineInv(FineNext(f, step))
  {
    CoherentStep(f, step);
    SortedStep(f, step);
    LostStep(f, step);
    FifoStep(f, step);
  }

  lemma {:induction false} FineInvRun(f: Fine, steps: seq<FineStep>)
    requires FineInv(f)
    ensures FineInv(FineRun(f, steps))
    decreases |steps|
  {
    if steps != [] {
      FineInvStep(f, steps[0]);
      FineInvRun(FineNext(f, steps[0]), steps[1..]);
    }
  }

  lemma BootInv(jobs: JobTable, rows: seq<JobRow>)
    requires GoodTable(jobs) && ListsJobs(rows, jobs, Pending)
    ensures FineInv(Boot(jobs, rows)) && Paid(Boot(jobs, rows))
  {
    RecoveredGood(rows, jobs);
    BootSorted(rows);
    FifoRecover(Boot(jobs, rows), rows);
    forall j ensures InPlay(Boot(jobs, rows), j) == if j in jobs && jobs[j].status == Pending then 1 else 0 {
      RecoveredOnce(rows, jobs, j);
    }
  }

  lemma BootSorted(rows: seq<JobRow>)
    ensures Sorted(Recovered(rows)[if Recovered(rows) == [] then 0 else 1..], EntryKey)
  {
    SortSorted(Entries(rows), EntryKey);
    SortedTail(Recovered(rows));
  }

  // ---------- Whole runs ----------

  /** Whatever the interleaving and however often the manager restarts: no accepted job that is
      still pending is lost, no retry counter leaves its budget although handlers act on outdated
      rows, the queue keeps its order, and the dictionaries that submissions have put into the queue since
      the last restart are dispatched in the order in which they entered it. */
  lemma EveryInterleaving(jobs: JobTable, rows: seq<JobRow>, steps: seq<FineStep>)
    requires GoodTable(jobs) && ListsJobs(rows, jobs, Pending)
    ensures var f := FineRun(Boot(jobs, rows), steps);
            && (forall j :: j in f.jobs && f.jobs[j].status == Pending ==> InPlay(f, j) >= 1)
            && (forall j :: j in f.jobs ==>
                  0 <= f.jobs[j].retries <= if f.jobs[j].maxRetries >= 0 then f.jobs[j].maxRetries else 0)
            && OldestFirst(if f.hand.Some? || f.queue == [] then f.queue else f.queue[1..])
            && f.firstOut <= f.appended
            && f.appended[|f.firstOut|..] == FreshIds(HandSeq(f.hand) + f.queue)
  {
    BootInv(jobs, rows);
    FineInvRun(Boot(jobs, rows), steps);
    var f := FineRun(Boot(jobs, rows), steps);
    SortedMeans(if f.hand.Some? || f.queue == [] then f.queue else f.queue[1..]);
  }

  /** A restart, at any point of any run, leaves each pending job in the queue exactly once and
      every other job out of it. */
  lemma RestartExactlyOnce(jobs: JobTable, rows: seq<JobRow>, steps: seq<FineStep>, again: seq<JobRow>, j: JobId)
    requires GoodTable(jobs) && ListsJobs(rows, jobs, Pending)
    requires Can(FineRun(Boot(jobs, rows), steps), Recover(again))
    ensures var f := FineNext(FineRun(Boot(jobs, rows), steps), Recover(again));
            && f.hand == None && f.owed == []
            && Copies(f.queue, j) == if j in f.jobs && f.jobs[j].status == Pending then 1 else 0
  {
    BootInv(jobs, rows);
    FineInvRun(Boot(jobs, rows), steps);
    RecoveredOnce(again, FineRun(Boot(jobs, rows), steps).jobs, j);
  }

  // ---------- The dispatch bound and stale rows ----------

  /** The step acts on a row whose retry counter is no longer what the table says. */
  ghost predicate Stale(f: Fine, step: FineStep) {
    Can(f, step) && step.WriteRetry? && f.seen[step.i].id in f.jobs
        && f.seen[step.i].retries != f.jobs[f.seen[step.i].id].retries
  }

  ghost predicate StaleFor(f: Fine, step: FineStep, j: JobId) { Stale(f, step) && f.seen[step.i].id == j }

  ghost predicate NeverStale(f: Fine, steps: seq<FineStep>)
    decreases |steps|
  {
    steps == [] || (!Stale(f, steps[0]) && NeverStale(FineNext(f, steps[0]), steps[1..]))
  }

  /** A retry is paid for by the counter exactly when the row it acts on is current. */
  lemma RetryCountedIffCurrent(f: Fine, i: nat)
    requires FineInv(f) && Can(f, WriteRetry(i))
    ensures var j := f.seen[i].id;
            var g := FineNext(f, WriteRetry(i));
            g.jobs[j].retries == f.jobs[j].retries + (InPlay(g, j) - InPlay(f, j)) <==> !Stale(f, WriteRetry(i))
  {
    CopiesMove(f, WriteRetry(i), f.seen[i].id);
  }

  /** A known job's retry counter moves with its copies, and its dispatch count against them. */
  lemma CountersMove(f: Fine, step: FineStep, j: JobId)
    requires Coherent(f) && !StaleFor(f, step, j) && !step.Recover? && j in f.jobs
    ensures j in FineNext(f, step).jobs
    ensures FineNext(f, step).jobs[j].retries == f.jobs[j].retries + (if Created(f, step, j) > 0 then 1 else 0)
    ensures FineNext(f, step).dispatched[j] == f.dispatched[j] + (if Created(f, step, j) < 0 then 1 else 0)
  {
  }

  lemma NewJob(f: Fine, step: FineStep, j: JobId)
    requires Coherent(f) && !step.Recover? && j !in f.jobs && j in FineNext(f, step).jobs
    ensures Created(f, step, j) == 1
    ensures FineNext(f, step).jobs[j].retries == 0 && FineNext(f, step).dispatched[j] == 0
  {
    assert f.dispatched[j] == 0;
    match step
    case InsertRow(id, _, _) => assert id == j;
    case WriteRetry(i) =>
    case WriteFailed(i) =>
    case WriteCompleted(id) =>
    case WriteRunning(nodes) =>
    case _ =>
  }

  lemma PaidStep(f: Fine, step: FineStep)
    requires FineInv(f) && Paid(f) && !Stale(f, step)
    ensures Paid(FineNext(f, step))
  {
    forall j | j in FineNext(f, step).jobs
      ensures FineNext(f, step).dispatched[j] + InPlay(FineNext(f, step), j) <= 1 + FineNext(f, step).jobs[j].retries
    {
      if step.Recover? {
        PaidRecover(f, step.rows, j);
      } else {
        CopiesMove(f, step, j);
        if j in f.jobs {
          CountersMove(f, step, j);
        } else {
          UnknownNotInPlay(f, j);
          NewJob(f, step, j);
        }
      }
    }
  }

  lemma PaidRecover(f: Fine, rows: seq<JobRow>, j: JobId)
    requires FineInv(f) && Paid(f) && j in f.jobs
    ensures var g := FineNext(f, Recover(rows)); g.dispatched[j] + InPlay(g, j) <= 1 + f.jobs[j].retries
  {
    if Can(f, Recover(rows)) { RecoverCopies(f, rows, j); }
  }

  lemma {:induction false} PaidRun(f: Fine, steps: seq<FineStep>)
    requires FineInv(f) && Paid(f) && NeverStale(f, steps)
    ensures Paid(FineRun(f, steps))
    decreases |steps|
  {
    if steps != [] {
      PaidStep(f, steps[0]);
      FineInvStep(f, steps[0]);
      PaidRun(FineNext(f, steps[0]), steps[1..]);
    }
  }

  /** Over every interleaving, with any number of restarts, in which no retry acts on an outdated
      row, a job is dispatched at most 1 + max_retries times, copies in play included. */
  lemma DispatchBound(jobs: JobTable, rows: seq<JobRow>, steps: seq<FineStep>, j: JobId)
    requires GoodTable(jobs) && ListsJobs(rows, jobs, Pending)
    requires NeverStale(Boot(jobs, rows), steps)
    ensures var f := FineRun(Boot(jobs, rows), steps);
            j in f.jobs ==> f.dispatched[j] + InPlay(f, j) <= 1 + f.jobs[j].retries <= 1 + Budget(f.jobs[j])
  {
    BootInv(jobs, rows);
    FineInvRun(Boot(jobs, rows), steps);
    PaidRun(Boot(jobs, rows), steps);
  }

  /** The job's account is exactly balanced. */
  ghost predicate Exact(f: Fine, j: JobId) {
    j in f.jobs && f.dispatched[j] + InPlay(f, j) == 1 + f.jobs[j].retries
  }

  lemma ExactStep(f: Fine, step: FineStep, j: JobId)
    requires FineInv(f) && !Stale(f, step) && !step.Recover? && Exact(f, j)
    ensures Exact(FineNext(f, step), j)
  {
    CopiesMove(f, step, j);
    CountersMove(f, step, j);
  }

  lemma ExactSubmit(f: Fine, j: JobId, request: JobRequest, now: real)
    requires FineInv(f) && j !in f.jobs
    ensures Exact(FineNext(f, InsertRow(j, request, now)), j)
  {
    UnknownNotInPlay(f, j);
    CopiesMove(f, InsertRow(j, request, now), j);
    assert f.dispatched[j] == 0;
  }

  lemma {:induction false} ExactRun(f: Fine, steps: seq<FineStep>, j: JobId)
    requires FineInv(f) && Exact(f, j)
    requires NeverStale(f, steps) && forall i :: 0 <= i < |steps| ==> !steps[i].Recover?
    ensures Exact(FineRun(f, steps), j)
    decreases |steps|
  {
    if steps != [] {
      ExactStep(f, steps[0], j);
      FineInvStep(f, steps[0]);
      ExactRun(FineNext(f, steps[0]), steps[1..], j);
    }
  }

  /** Between restarts the bound is an equality: from its submission on, a job's dispatches and its copies
      in play add up to one attempt plus its counted retries, so copies are neither lost nor duplicated. */
  lemma AccountsExact(f: Fine, j: JobId, request: JobRequest, now: real, steps: seq<FineStep>)
    requires FineInv(f) && j !in f.jobs
    requires NeverStale(FineNext(f, InsertRow(j, request, now)), steps)
    requires forall i :: 0 <= i < |steps| ==> !steps[i].Recover?
    ensures Exact(FineRun(FineNext(f, InsertRow(j, request, now)), steps), j)
  {
    ExactSubmit(f, j, request, now);
    FineInvStep(f, InsertRow(j, request, now));
    ExactRun(FineNext(f, InsertRow(j, request, now)), steps, j);
  }

  lemma ExactStepIff(f: Fine, step: FineStep, j: JobId)
    requires FineInv(f) && !step.Recover? && Exact(f, j)
    ensures Exact(FineNext(f, step), j) <==> !StaleFor(f, step, j)
  {
    CopiesMove(f, step, j);
    if StaleFor(f, step, j) {
      RetryCountedIffCurrent(f, step.i);
    } else {
      CountersMove(f, step, j);
    }
  }

  /** The job's account is balanced before and after every step of the run. */
  ghost predicate ExactThroughout(f: Fine, steps: seq<FineStep>, j: JobId)
    decreases |steps|
  {
    Exact(f, j) && (steps == [] || ExactThroughout(FineNext(f, steps[0]), steps[1..], j))
  }

  /** No retry of the job acts on an outdated row. */
  ghost predicate NeverStaleFor(f: Fine, steps: seq<FineStep>, j: JobId)
    decreases |steps|
  {
    steps == [] || (!StaleFor(f, steps[0], j) && NeverStaleFor(FineNext(f, steps[0]), steps[1..], j))
  }

  /** The exact condition over runs: between restarts a job's account stays balanced if and only if no retry
      of that job acts on an outdated row, whatever happens to other jobs. */
  lemma {:induction false} ExactThroughoutIff(f: Fine, steps: seq<FineStep>, j: JobId)
    requires FineInv(f) && Exact(f, j) && forall i :: 0 <= i < |steps| ==> !steps[i].Recover?
    ensures ExactThroughout(f, steps, j) <==> NeverStaleFor(f, steps, j)
    decreases |steps|
  {
    if steps != [] {
      ExactStepIff(f, steps[0], j);
      FineInvStep(f, steps[0]);
      if !StaleFor(f, steps[0], j) { ExactThroughoutIff(FineNext(f, steps[0]), steps[1..], j); }
    }
  }

  /** When a retry does act on an outdated row the bound fails. Two failure handlers that read the row of a running
      job one after the other, before either writes, send the job back twice for one counted retry. */
  lemma StaleRowsOverspend(f: Fine, j: JobId)
    requires FineInv(f) && f.seen == [] && f.owed == [] && j in f.jobs
    requires f.jobs[j].retries < f.jobs[j].maxRetries
    requires f.dispatched[j] + InPlay(f, j) == 1 + f.jobs[j].retries
    ensures var g := FineRun(f, [ReadRow(j), ReadRow(j), WriteRetry(0), WriteRetry(0)]);
            && j in g.jobs && g.jobs[j].retries == f.jobs[j].retries + 1
            && g.dispatched[j] + InPlay(g, j) == 1 + g.jobs[j].retries + 1
  {
    var steps := [ReadRow(j), ReadRow(j), WriteRetry(0), WriteRetry(0)];
    var f1 := FineNext(f, steps[0]);
    var f2 := FineNext(f1, steps[1]);
    var f3 := FineNext(f2, steps[2]);
    var f4 := FineNext(f3, steps[3]);
    var row := f.jobs[j];
    assert f2.seen == [row, row];
    assert f3.seen == [row];
    CopiesMove(f, steps[0], j);
    CopiesMove(f1, steps[1], j);
    CopiesMove(f2, steps[2], j);
    CopiesMove(f3, steps[3], j);
    assert steps[1..][1..][1..] == [WriteRetry(0)] && steps[1..][1..] == [WriteRetry(0), WriteRetry(0)];
    assert steps[1..] == [ReadRow(j), WriteRetry(0), WriteRetry(0)];
    assert FineRun(f3, [WriteRetry(0)]) == FineRun(f4, []) by { assert [WriteRetry(0)][1..] == []; }
    assert FineRun(f2, [WriteRetry(0), WriteRetry(0)]) == FineRun(f3, [WriteRetry(0)]);
    assert FineRun(f1, steps[1..]) == FineRun(f2, [WriteRetry(0), WriteRetry(0)]);
  }
}
