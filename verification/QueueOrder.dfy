/** In which order waiting jobs are dispatched, whatever their origin: by priority, then by age. */
module QueueOrder {
  import opened ClusterTypes
  import opened StableSorting
  import opened TopSelection
  import opened Queueing
  import opened Interleaving

  // ---------- Between two entries ----------

  function Either(a: Entry, b: Entry): Entry -> bool { (e: Entry) => e == a || e == b }

  /** What still waits of the two, front to back, the job in hand first. */
  function WaitingOf(f: Fine, a: Entry, b: Entry): seq<Entry> { Filter(HandSeq(f.hand) + f.queue, Either(a, b)) }

  /** `a` waits in front of `b`, or has been dispatched. */
  ghost predicate Precedes(f: Fine, a: Entry, b: Entry) {
    WaitingOf(f, a, b) == [a, b] || WaitingOf(f, a, b) == [b] || WaitingOf(f, a, b) == []
  }

  /** The step is no restart and queues no further copy of the two. */
  ghost predicate NoCopy(f: Fine, step: FineStep, a: Entry, b: Entry) {
    && !step.Recover?
    && (Can(f, step) && step.AppendEntry? ==> f.owed[step.i] != a && f.owed[step.i] != b)
  }

  ghost predicate NoCopies(f: Fine, steps: seq<FineStep>, a: Entry, b: Entry)
    decreases |steps|
  {
    steps == [] || (NoCopy(f, steps[0], a, b) && NoCopies(FineNext(f, steps[0]), steps[1..], a, b))
  }

  lemma SelectOther(e: Entry, a: Entry, b: Entry)
    ensures Filter([e], Either(a, b)) == if e == a || e == b then [e] else []
  {
    assert [e][1..] == [];
    assert Filter([e][1..], Either(a, b)) == [];
  }

  lemma PairSorted(a: Entry, b: Entry)
    requires NotAfter(a, b)
    ensures Sort([a, b], EntryKey) == [a, b] && Sort([b], EntryKey) == [b] && Sort([a], EntryKey) == [a]
    ensures Sort([], EntryKey) == []
  {
    AheadMeans(a, b);
    assert [a, b][1..] == [b] && [b][1..] == [] && [a][1..] == [];
    assert Sort([b], EntryKey) == Insert(b, Sort([], EntryKey), EntryKey);
    assert Sort([a], EntryKey) == Insert(a, Sort([], EntryKey), EntryKey);
    assert Sort([a, b], EntryKey) == Insert(a, [b], EntryKey);
  }

  /** Queueing anything else leaves the two as they are. */
  lemma OvertakeNot(front: seq<Entry>, queue: seq<Entry>, x: Entry, a: Entry, b: Entry)
    requires NotAfter(a, b) && x != a && x != b
    requires var c := Filter(front + queue, Either(a, b)); c == [a, b] || c == [b] || c == []
    ensures Filter(front + Enqueue(queue, x), Either(a, b)) == Filter(front + queue, Either(a, b))
  {
    var keep := Either(a, b);
    SelectSorted(queue + [x], EntryKey, keep);
    FilterConcat(queue, [x], keep);
    SelectOther(x, a, b);
    FilterConcat(front, queue, keep);
    FilterConcat(front, Enqueue(queue, x), keep);
    assert Filter(queue + [x], keep) == Filter(queue, keep) + [] == Filter(queue, keep);
    Suffix(Filter(front, keep), Filter(queue, keep), a, b);
    PairSorted(a, b);
  }

  lemma Suffix(c: seq<Entry>, d: seq<Entry>, a: Entry, b: Entry)
    requires c + d == [a, b] || c + d == [b] || c + d == []
    ensures d == [a, b] || d == [b] || d == []
  {
    assert d == (c + d)[|c|..];
  }

  lemma PrecedesAppend(f: Fine, i: nat, a: Entry, b: Entry)
    requires NotAfter(a, b) && Precedes(f, a, b) && NoCopy(f, AppendEntry(i), a, b) && Can(f, AppendEntry(i))
    ensures Precedes(FineNext(f, AppendEntry(i)), a, b)
  {
    OvertakeNot(HandSeq(f.hand), f.queue, f.owed[i], a, b);
  }

  lemma PrecedesDispatch(f: Fine, nodes: seq<NodeId>, a: Entry, b: Entry)
    requires Precedes(f, a, b) && Can(f, WriteRunning(nodes))
    ensures Precedes(FineNext(f, WriteRunning(nodes)), a, b)
  {
    FilterConcat(HandSeq(f.hand), f.queue, Either(a, b));
    Suffix(Filter(HandSeq(f.hand), Either(a, b)), Filter(f.queue, Either(a, b)), a, b);
    assert HandSeq(None) + f.queue == f.queue;
  }

  lemma SameLine(f: Fine, step: FineStep)
    requires !step.AppendEntry? && !step.Recover? && !step.WriteRunning?
    ensures HandSeq(FineNext(f, step).hand) + FineNext(f, step).queue == HandSeq(f.hand) + f.queue
  {
  }

  lemma PrecedesStep(f: Fine, step: FineStep, a: Entry, b: Entry)
    requires NotAfter(a, b) && Precedes(f, a, b) && NoCopy(f, step, a, b)
    ensures Precedes(FineNext(f, step), a, b)
  {
    if Can(f, step) {
      match step
      case AppendEntry(i) => PrecedesAppend(f, i, a, b);
      case WriteRunning(nodes) => PrecedesDispatch(f, nodes, a, b);
      case _ => SameLine(f, step);
    }
  }

  /** Under every interleaving, submissions, retries and failed selections included: an entry that waits in
      front of another, and has no lower priority and in case of equal priority no later creation, is
      dispatched before it. */
  lemma {:induction false} NoOvertaking(f: Fine, steps: seq<FineStep>, a: Entry, b: Entry)
    requires NotAfter(a, b) && Precedes(f, a, b) && NoCopies(f, steps, a, b)
    ensures Precedes(FineRun(f, steps), a, b)
    decreases |steps|
  {
    if steps != [] {
      PrecedesStep(f, steps[0], a, b);
      NoOvertaking(FineNext(f, steps[0]), steps[1..], a, b);
    }
  }

  lemma PairInOrder(q: seq<Entry>, a: Entry, b: Entry)
    requires OldestFirst(q) && NotAfter(a, b) && !NotAfter(b, a)
    requires Count(q, Is(a)) == 1 && Count(q, Is(b)) == 1
    ensures Filter(q, Either(a, b)) == [a, b]
  {
    SortedMeans(q);
    var c := Filter(q, Either(a, b));
    SelectionSorted(q, EntryKey, Either(a, b));
    SortedMeans(c);
    CountEither(q, a, b);
    assert c[0] == a || c[0] == b by { FilterMembers(q, Either(a, b), c[0]); }
    assert c[1] == a || c[1] == b by { FilterMembers(q, Either(a, b), c[1]); }
    TwoDifferent(c, a, b);
  }

  function Is(a: Entry): Entry -> bool { (e: Entry) => e == a }

  lemma {:induction false} CountEither(q: seq<Entry>, a: Entry, b: Entry)
    requires a != b
    ensures var c := Filter(q, Either(a, b));
            && |c| == Count(q, Is(a)) + Count(q, Is(b))
            && Count(c, Is(a)) == Count(q, Is(a)) && Count(c, Is(b)) == Count(q, Is(b))
  {
    if q != [] {
      var head := if Either(a, b)(q[0]) then [q[0]] else [];
      CountEither(q[1..], a, b);
      CountConcat(head, Filter(q[1..], Either(a, b)), Is(a));
      CountConcat(head, Filter(q[1..], Either(a, b)), Is(b));
      assert head != [] ==> head[1..] == [];
      assert Filter(q, Either(a, b)) == head + Filter(q[1..], Either(a, b));
    }
  }

  lemma TwoDifferent(c: seq<Entry>, a: Entry, b: Entry)
    requires |c| == 2 && (c[0] == a || c[0] == b) && (c[1] == a || c[1] == b)
    requires Count(c, Is(a)) == 1 && Count(c, Is(b)) == 1 && OldestFirst(c) && !NotAfter(b, a)
    ensures c == [a, b]
  {
    assert c == [c[0], c[1]] && c[1..] == [c[1]] && c[1..][1..] == [];
  }

  /** Recovered and retried jobs alike: of two entries in the sorted queue the one of higher priority, or the
      older one of equal priority, is dispatched first in any continuation of the manager's lifetime. */
  lemma OlderFirst(f: Fine, steps: seq<FineStep>, a: Entry, b: Entry)
    requires OldestFirst(f.queue) && f.hand != Some(a) && f.hand != Some(b)
    requires Count(f.queue, Is(a)) == 1 && Count(f.queue, Is(b)) == 1
    requires PriorityColumn(a) > PriorityColumn(b)
          || (PriorityColumn(a) == PriorityColumn(b) && CreatedColumn(a) < CreatedColumn(b))
    requires NoCopies(f, steps, a, b)
    ensures var rest := WaitingOf(FineRun(f, steps), a, b); a in rest ==> b in rest
  {
    PairInOrder(f.queue, a, b);
    FilterConcat(HandSeq(f.hand), f.queue, Either(a, b));
    if f.hand.Some? { SelectOther(f.hand.value, a, b); }
    assert WaitingOf(f, a, b) == [a, b];
    NoOvertaking(f, steps, a, b);
  }

  // ---------- The whole queue ----------

  /** The entries dispatched in a run, in order. */
  ghost function Dispatches(f: Fine, steps: seq<FineStep>): seq<Entry>
    decreases |steps|
  {
    if steps == [] then []
    else (if Can(f, steps[0]) && steps[0].WriteRunning? then [f.hand.value] else [])
         + Dispatches(FineNext(f, steps[0]), steps[1..])
  }

  lemma {:induction false} Drains(f: Fine, steps: seq<FineStep>)
    requires forall i :: 0 <= i < |steps| ==> !steps[i].AppendEntry? && !steps[i].Recover?
    ensures var g := FineRun(f, steps);
            HandSeq(f.hand) + f.queue == Dispatches(f, steps) + (HandSeq(g.hand) + g.queue)
    decreases |steps|
  {
    if steps != [] {
      var g := FineNext(f, steps[0]);
      Drains(g, steps[1..]);
      DrainStep(f, steps[0]);
    }
  }

  lemma DrainStep(f: Fine, step: FineStep)
    requires !step.AppendEntry? && !step.Recover?
    ensures var g := FineNext(f, step);
            HandSeq(f.hand) + f.queue ==
            (if Can(f, step) && step.WriteRunning? then [f.hand.value] else []) + (HandSeq(g.hand) + g.queue)
  {
  }

  /** After a restart, while nothing new is queued, the pending jobs are dispatched exactly in the order of
      their priority and age. */
  lemma RecoveredInOrder(jobs: JobTable, rows: seq<JobRow>, steps: seq<FineStep>)
    requires forall i :: 0 <= i < |steps| ==> !steps[i].AppendEntry? && !steps[i].Recover?
    ensures Arranges(Recovered(rows), Entries(rows))
    ensures Dispatches(Boot(jobs, rows), steps) <= Recovered(rows)
    ensures OldestFirst(Recovered(rows)) && OldestFirst(Dispatches(Boot(jobs, rows), steps))
  {
    DrainsFrom(Boot(jobs, rows), steps);
    ArrangedIff(Recovered(rows), Entries(rows));
    Prefixed(Recovered(rows), Dispatches(Boot(jobs, rows), steps));
  }

  lemma DrainsFrom(f: Fine, steps: seq<FineStep>)
    requires f.hand == None && forall i :: 0 <= i < |steps| ==> !steps[i].AppendEntry? && !steps[i].Recover?
    ensures Dispatches(f, steps) <= f.queue
  {
    Drains(f, steps);
    assert HandSeq(f.hand) + f.queue == f.queue;
  }

  lemma Prefixed(q: seq<Entry>, p: seq<Entry>)
    requires OldestFirst(q) && p <= q
    ensures OldestFirst(p)
  {
    forall i, k | 0 <= i < k < |p| ensures NotAfter(p[i], p[k]) { assert p[i] == q[i] && p[k] == q[k]; }
  }
}
