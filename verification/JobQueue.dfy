/** The in-memory job queue over the durable job table. */
module Queueing {
  import opened ClusterTypes
  import opened StableSorting
  import opened TopSelection
  import opened Registry

  /** Higher priority first, then older first; a dictionary without `created_at` counts as created at 0. */
  function EntryKey(e: Entry): Key { Key(e.priority.GetOr(0) as real, -e.createdAt.GetOr(0.0)) }

  /** Append and re-sort. */
  function Enqueue(queue: seq<Entry>, e: Entry): seq<Entry> { Sort(queue + [e], EntryKey) }

  /** The dictionary after `retry_job` has counted the failure. */
  function Retried(e: Entry): Entry { e.(retries := Some(e.retries.GetOr(0) + 1)) }

  function Entries(rows: seq<JobRow>): (r: seq<Entry>)
    ensures |r| == |rows| && forall i :: 0 <= i < |rows| ==> r[i] == FromRow(rows[i])
  {
    seq(|rows|, i requires 0 <= i < |rows| => FromRow(rows[i]))
  }

  /** The queue rebuilt at start-up from a listing of the pending rows. */
  function Recovered(rows: seq<JobRow>): seq<Entry> { Sort(Entries(rows), EntryKey) }

  // ---------- The order, column by column ----------

  /** An absent key reads as 0. */
  function PriorityColumn(e: Entry): int { if e.priority.Some? then e.priority.value else 0 }

  function CreatedColumn(e: Entry): real { if e.createdAt.Some? then e.createdAt.value else 0.0 }

  /** Higher priority first, and the older first among equal priorities. */
  predicate NotAfter(a: Entry, b: Entry) {
    PriorityColumn(a) > PriorityColumn(b) || (PriorityColumn(a) == PriorityColumn(b)
        && CreatedColumn(a) <= CreatedColumn(b))
  }

  ghost predicate OldestFirst(q: seq<Entry>) {
    forall i, k :: 0 <= i < k < |q| ==> NotAfter(q[i], q[k])
  }

  lemma AheadMeans(a: Entry, b: Entry)
    ensures Ahead(EntryKey(b), EntryKey(a)) <==> !NotAfter(a, b)
  {
  }

  lemma SortedMeans(q: seq<Entry>)
    ensures Sorted(q, EntryKey) <==> OldestFirst(q)
  {
    forall i, k | 0 <= i < k < |q| ensures Ahead(EntryKey(q[k]), EntryKey(q[i])) <==> !NotAfter(q[i], q[k]) {
      AheadMeans(q[i], q[k]);
    }
  }

  function WithColumns(priority: int, created: real): Entry -> bool {
    (e: Entry) => PriorityColumn(e) == priority && CreatedColumn(e) == created
  }

  /** `t` holds the entries of `s`, oldest first, those of equal priority and age in their order in `s`. */
  ghost predicate Arranges(t: seq<Entry>, s: seq<Entry>) {
    OldestFirst(t) && forall p, c :: Filter(t, WithColumns(p, c)) == Filter(s, WithColumns(p, c))
  }

  lemma {:induction false} ColumnsAreKey(s: seq<Entry>, p: int, c: real)
    ensures Filter(s, WithColumns(p, c)) == OfKey(s, EntryKey, Key(p as real, -c))
  {
    if s != [] { ColumnsAreKey(s[1..], p, c); }
  }

  /** Sorting arranges the queue like this, and no other arrangement is like this. */
  lemma ArrangedIff(t: seq<Entry>, s: seq<Entry>)
    ensures Arranges(t, s) <==> t == Sort(s, EntryKey)
  {
    SortedMeans(t);
    forall p, c ensures Filter(Sort(s, EntryKey), WithColumns(p, c)) == Filter(s, WithColumns(p, c)) {
      ColumnsAreKey(s, p, c);
      ColumnsAreKey(Sort(s, EntryKey), p, c);
      SortStable(s, EntryKey, Key(p as real, -c));
    }
    SortSorted(s, EntryKey);
    SortedMeans(Sort(s, EntryKey));
    if Arranges(t, s) {
      forall k ensures OfKey(t, EntryKey, k) == OfKey(s, EntryKey, k) { SameClass(t, s, k); }
      SortUnique(s, t, EntryKey);
    }
  }

  lemma SameClass(t: seq<Entry>, s: seq<Entry>, k: Key)
    requires Arranges(t, s)
    ensures OfKey(t, EntryKey, k) == OfKey(s, EntryKey, k)
  {
    var p, c := k.major.Floor, -k.minor;
    if p as real == k.major {
      assert k == Key(p as real, -c);
      ColumnsAreKey(t, p, c);
      ColumnsAreKey(s, p, c);
      assert Filter(t, WithColumns(p, c)) == Filter(s, WithColumns(p, c));
    } else {
      NoSuchKey(t, k);
      NoSuchKey(s, k);
    }
  }

  lemma {:induction false} NoSuchKey(s: seq<Entry>, k: Key)
    requires k.major.Floor as real != k.major
    ensures OfKey(s, EntryKey, k) == []
  {
    if s != [] {
      assert EntryKey(s[0]).major == PriorityColumn(s[0]) as real;
      NoSuchKey(s[1..], k);
    }
  }

  // ---------- Copies of a job ----------

  function IsFor(j: JobId): Entry -> bool { (e: Entry) => e.id == j }

  function Copies(q: seq<Entry>, j: JobId): nat { Count(q, IsFor(j)) }

  lemma CopiesEnqueue(q: seq<Entry>, e: Entry, j: JobId)
    ensures Copies(Enqueue(q, e), j) == Copies(q, j) + (if e.id == j then 1 else 0)
  {
    SortElements(q + [e], EntryKey);
    CountElements(Enqueue(q, e), q + [e], IsFor(j));
    CountConcat(q, [e], IsFor(j));
  }

  lemma CopiesPrepend(q: seq<Entry>, e: Entry, j: JobId)
    ensures Copies([e] + q, j) == Copies(q, j) + (if e.id == j then 1 else 0)
  {
    CountConcat([e], q, IsFor(j));
  }

  /** A listing of the pending rows puts each pending job into the queue exactly once, and no other job. */
  lemma RecoveredOnce(rows: seq<JobRow>, jobs: JobTable, j: JobId)
    requires Keyed(jobs) && ListsJobs(rows, jobs, Pending)
    ensures Copies(Recovered(rows), j) == if j in jobs && jobs[j].status == Pending then 1 else 0
  {
    SortElements(Entries(rows), EntryKey);
    CountElements(Recovered(rows), Entries(rows), IsFor(j));
    if j in jobs && jobs[j].status == Pending {
      var i :| 0 <= i < |rows| && rows[i] == jobs[j];
      ListedOnce(rows, i);
    } else {
      CountNone(Entries(rows), IsFor(j));
    }
  }

  lemma ListedOnce(rows: seq<JobRow>, i: nat)
    requires i < |rows|
    requires forall a, b :: 0 <= a < b < |rows| ==> rows[a].id != rows[b].id
    ensures Copies(Entries(rows), rows[i].id) == 1
  {
    var es := Entries(rows);
    CountWithout(es, IsFor(rows[i].id), i);
    forall k | 0 <= k < |es| - 1 ensures Without(es, i)[k].id != rows[i].id {
      assert Without(es, i)[k] == if k < i then es[k] else es[k + 1];
    }
    CountNone(Without(es, i), IsFor(rows[i].id));
  }

  // ---------- First submissions ----------

  /** A dictionary straight from the submit handler: neither sort key is present. */
  predicate IsFresh(e: Entry) { e.priority.None? && e.createdAt.None? }

  function Ids(q: seq<Entry>): (ids: seq<JobId>)
    ensures |ids| == |q| && forall i :: 0 <= i < |q| ==> ids[i] == q[i].id
  {
    seq(|q|, i requires 0 <= i < |q| => q[i].id)
  }

  /** The jobs whose first submission still waits, front to back. */
  function FreshIds(q: seq<Entry>): seq<JobId> { Ids(Filter(q, IsFresh)) }

  lemma IdsConcat(a: seq<Entry>, b: seq<Entry>)
    ensures Ids(a + b) == Ids(a) + Ids(b)
  {
  }

  lemma FreshConcat(a: seq<Entry>, b: seq<Entry>)
    ensures FreshIds(a + b) == FreshIds(a) + FreshIds(b)
  {
    FilterConcat(a, b, IsFresh);
    IdsConcat(Filter(a, IsFresh), Filter(b, IsFresh));
  }

  lemma FreshOne(e: Entry)
    ensures FreshIds([e]) == if IsFresh(e) then [e.id] else []
  {
    assert [e][1..] == [];
    assert Filter([e], IsFresh) == if IsFresh(e) then [e] else [];
    assert Ids([e]) == [e.id];
  }

  /** Appending and re-sorting keeps first submissions in order: a new one goes behind all others. */
  lemma FreshEnqueue(q: seq<Entry>, e: Entry)
    ensures FreshIds(Enqueue(q, e)) == FreshIds(q) + (if IsFresh(e) then [e.id] else [])
  {
    SortKeepsClass(q + [e], EntryKey, IsFresh, Key(0.0, 0.0));
    FreshConcat(q, [e]);
    FreshOne(e);
  }

  lemma {:induction false} NoneFresh(q: seq<Entry>)
    requires forall i :: 0 <= i < |q| ==> !IsFresh(q[i])
    ensures FreshIds(q) == []
  {
    if q != [] {
      NoneFresh(q[1..]);
      assert q == [q[0]] + q[1..];
      FreshConcat([q[0]], q[1..]);
      FreshOne(q[0]);
    }
  }

  lemma RecoveredNotFresh(rows: seq<JobRow>)
    ensures FreshIds(Recovered(rows)) == []
  {
    SortElements(Entries(rows), EntryKey);
    forall i | 0 <= i < |Recovered(rows)| ensures !IsFresh(Recovered(rows)[i]) {
      assert Recovered(rows)[i] in multiset(Entries(rows));
    }
    NoneFresh(Recovered(rows));
  }

  // ---------- The object ----------

  class JobQueue {
    const registry: NodeRegistry
    var queue: seq<Entry>

    /** Loads the pending jobs from the table. */
    constructor (registry: NodeRegistry)
      requires Keyed(registry.jobs)
      ensures this.registry == registry
      ensures exists rows :: ListsJobs(rows, registry.jobs, Pending) && queue == Recovered(rows)
                          && Arranges(queue, Entries(rows))
    {
      this.registry := registry;
      queue := [];
      new;
      var pending := registry.GetJobs(Pending);
      queue := Sort(Entries(pending), EntryKey);
      ArrangedIff(queue, Entries(pending));
    }

    /** Persists the job, then queues it; a taken identifier raises before anything is queued. */
    method SubmitJob(e: Entry, now: real) returns (ok: bool)
      modifies this`queue, registry`jobs
      ensures ok <==> e.id !in old(registry.jobs)
      ensures registry.jobs == if ok then old(registry.jobs)[e.id := NewRow(e, now)] else old(registry.jobs)
      ensures queue == if ok then Enqueue(old(queue), e) else old(queue)
      ensures ok ==> Arranges(queue, old(queue) + [e])
    {
      ok := registry.InsertJob(e, now);
      if ok {
        queue := queue + [e];
        queue := Sort(queue, EntryKey);
        ArrangedIff(queue, old(queue) + [e]);
      }
    }

    method PopTopJob() returns (e: Option<Entry>)
      modifies this`queue
      ensures old(queue) == [] ==> e == None && queue == []
      ensures old(queue) != [] ==> e.Some? && [e.value] + queue == old(queue)
    {
      if queue == [] {
        return None;
      }
      e := Some(queue[0]);
      queue := queue[1..];
    }

    method RequeueJob(e: Entry)
      modifies this`queue
      ensures queue == [e] + old(queue)
    {
      queue := [e] + queue;
    }

    /** Counts the failure in the dictionary and in the table, then queues the job again. */
    method RetryJob(e: Entry)
      modifies this`queue, registry`jobs
      ensures registry.jobs == SetJobRetries(old(registry.jobs), e.id, Pending, e.retries.GetOr(0) + 1)
      ensures queue == Enqueue(old(queue), Retried(e))
      ensures Arranges(queue, old(queue) + [e.(retries := Some(e.retries.GetOr(0) + 1))])
    {
      var retries := e.retries.GetOr(0) + 1;
      var data := e.(retries := Some(retries));
      registry.UpdateJobRetries(data.id, Pending, retries);
      queue := queue + [data];
      queue := Sort(queue, EntryKey);
      ArrangedIff(queue, old(queue) + [data]);
    }
  }
}
