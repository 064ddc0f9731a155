/** The node allocator: score every idle node, sort by score, take the first ones. */
module Allocation {
  import opened ClusterTypes
  import opened StableSorting
  import opened TopSelection
  import opened MemoryText

  datatype Weights = Weights(gpu: real, cpu: real, ram: real)

  predicate HasGpu(n: NodeRow) { n.gpuModel != "" && n.gpuModel != "None" }

  /** The processor and memory part of the score. */
  function BaseScore(w: Weights, n: NodeRow): real {
    n.cpuCount as real * w.cpu + RamScore(ParseMemory(n.ramTotal), w.ram)
  }

  function Score(w: Weights, n: NodeRow): real {
    (if HasGpu(n) then 1000.0 * w.gpu else 0.0) + BaseScore(w, n)
  }

  function ScoreOf(w: Weights): NodeRow -> real { n => Score(w, n) }

  function KeyOf(value: NodeRow -> real): NodeRow -> Key { n => Key(value(n), 0.0) }

  /** The slice `s[:k]` of the implementation language: a negative `k` drops that many from the end. */
  function Prefix<T>(s: seq<T>, k: int): seq<T> {
    if k > |s| then s else if k >= 0 then s[..k] else if |s| + k >= 0 then s[..|s| + k] else []
  }

  function Allocate(w: Weights, available: seq<NodeRow>, required: int): seq<NodeRow> {
    if |available| < required then [] else Prefix(Sort(available, KeyOf(ScoreOf(w))), required)
  }

  lemma SortDescending(s: seq<NodeRow>, value: NodeRow -> real)
    ensures Descending(Sort(s, KeyOf(value)), value)
  {
    var sorted := Sort(s, KeyOf(value));
    SortSorted(s, KeyOf(value));
    forall i, k | 0 <= i < k < |sorted| ensures value(sorted[i]) >= value(sorted[k]) {
      assert !Ahead(KeyOf(value)(sorted[k]), KeyOf(value)(sorted[i]));
    }
  }

  /** Exactly `required` nodes, or none when there are not enough. A negative request takes
      all but that many; a request for zero nodes gets the empty list, which reads as "not enough". */
  lemma AllocateSize(w: Weights, available: seq<NodeRow>, required: int)
    ensures |Allocate(w, available, required)| ==
            if required > |available| then 0
            else if required >= 0 then required
            else if |available| + required >= 0 then |available| + required else 0
    ensures multiset(Allocate(w, available, required)) <= multiset(available)
    ensures Allocate(w, available, required)
         == Sort(available, KeyOf(ScoreOf(w)))[..|Allocate(w, available, required)|]
  {
    SortElements(available, KeyOf(ScoreOf(w)));
    PrefixElements(Sort(available, KeyOf(ScoreOf(w))), required);
  }

  lemma PrefixElements<T>(s: seq<T>, k: int)
    ensures Prefix(s, k) == s[..|Prefix(s, k)|]
    ensures multiset(Prefix(s, k)) <= multiset(s)
  {
    var m := |Prefix(s, k)|;
    assert s == s[..m] + s[m..];
  }

  /** A listing without repetition yields distinct nodes. */
  lemma AllocateDistinct(w: Weights, available: seq<NodeRow>, required: int)
    requires forall i, k :: 0 <= i < k < |available| ==> available[i].id != available[k].id
    ensures var r := Allocate(w, available, required);
            && (forall i :: 0 <= i < |r| ==> r[i] in available)
            && (forall i, k :: 0 <= i < k < |r| ==> r[i].id != r[k].id)
  {
    AllocateSize(w, available, required);
    StillDistinct(available, Allocate(w, available, required));
  }

  /** No other choice of as many available nodes has a higher total score. */
  lemma AllocateOptimal(w: Weights, available: seq<NodeRow>, required: int, choice: seq<NodeRow>)
    requires multiset(choice) <= multiset(available)
    requires |choice| == |Allocate(w, available, required)|
    ensures Total(choice, ScoreOf(w)) <= Total(Allocate(w, available, required), ScoreOf(w))
  {
    AllocateSize(w, available, required);
    SortElements(available, KeyOf(ScoreOf(w)));
    SortDescending(available, ScoreOf(w));
    BestPrefix(Sort(available, KeyOf(ScoreOf(w))), ScoreOf(w), choice);
  }

  /** The allocated nodes come in descending score, and the first has the top score of all available nodes. */
  lemma AllocateLeader(w: Weights, available: seq<NodeRow>, required: int)
    ensures Descending(Allocate(w, available, required), ScoreOf(w))
    ensures Allocate(w, available, required) != [] ==>
      forall n :: n in available ==> ScoreOf(w)(n) <= ScoreOf(w)(Allocate(w, available, required)[0])
  {
    AllocateSize(w, available, required);
    SortDescending(available, ScoreOf(w));
    SortElements(available, KeyOf(ScoreOf(w)));
    TopOfDescending(Sort(available, KeyOf(ScoreOf(w))), ScoreOf(w), available);
  }

  lemma TopOfDescending(sorted: seq<NodeRow>, value: NodeRow -> real, s: seq<NodeRow>)
    requires Descending(sorted, value) && multiset(sorted) == multiset(s)
    ensures sorted != [] ==> forall n :: n in s ==> value(n) <= value(sorted[0])
  {
    forall n | n in s ensures sorted != [] ==> value(n) <= value(sorted[0]) {
      assert n in multiset(sorted);
      var k :| 0 <= k < |sorted| && sorted[k] == n;
    }
  }

  /** Among nodes of equal score the earliest listed are taken, in listing order. */
  lemma AllocateTies(w: Weights, available: seq<NodeRow>, required: int, score: real)
    ensures OfKey(Allocate(w, available, required), KeyOf(ScoreOf(w)), Key(score, 0.0))
         <= OfKey(available, KeyOf(ScoreOf(w)), Key(score, 0.0))
  {
    var sorted := Sort(available, KeyOf(ScoreOf(w)));
    var r := Allocate(w, available, required);
    AllocateSize(w, available, required);
    SortElements(available, KeyOf(ScoreOf(w)));
    SortStable(available, KeyOf(ScoreOf(w)), Key(score, 0.0));
    OfKeyPrefix(sorted, |r|, KeyOf(ScoreOf(w)), Key(score, 0.0));
  }

  /** When the accelerator bonus exceeds what any other node can score, and no accelerator node
      has a negative base score, the allocation uses as many accelerator nodes as it can. */
  lemma GpuNodesFirst(w: Weights, available: seq<NodeRow>, required: nat)
    requires required <= |available|
    requires forall n :: n in available && !HasGpu(n) ==> BaseScore(w, n) < 1000.0 * w.gpu
    requires forall n :: n in available && HasGpu(n) ==> BaseScore(w, n) >= 0.0
    ensures Count(Allocate(w, available, required), HasGpu)
         == if required <= Count(available, HasGpu) then required else Count(available, HasGpu)
  {
    var sorted := Sort(available, KeyOf(ScoreOf(w)));
    AllocateSize(w, available, required);
    SortElements(available, KeyOf(ScoreOf(w)));
    SortDescending(available, ScoreOf(w));
    forall i, k | 0 <= i < k < |sorted| && HasGpu(sorted[k]) ensures HasGpu(sorted[i]) {
      assert sorted[i] in multiset(sorted) && sorted[k] in multiset(sorted);
      assert ScoreOf(w)(sorted[i]) >= ScoreOf(w)(sorted[k]);
    }
    CountInFront(sorted, HasGpu, required);
    CountElements(sorted, available, HasGpu);
  }

  /** Nonnegative weights and a nonnegative processor count make the base score nonnegative. */
  lemma BaseScoreNonNegative(w: Weights, n: NodeRow)
    requires w.cpu >= 0.0 && w.ram >= 0.0 && n.cpuCount >= 0
    ensures BaseScore(w, n) >= 0.0
  {
    ParseNonNegative(n.ramTotal);
    Product(n.cpuCount as real, w.cpu);
    Product(ParseMemory(n.ramTotal) / 1024.0, w.ram);
  }

  lemma ParseNonNegative(text: string)
    ensures ParseMemory(text) >= 0.0
  {
    if text != "" { SearchNonNegative(Upper(text), 0); }
  }

  lemma {:induction false} SearchNonNegative(s: string, i: nat)
    ensures Search(s, i) >= 0.0
    decreases |s| + 1 - i
  {
    if i <= |s| { SearchNonNegative(s, i + 1); }
  }

  // ---------- What a score is ----------

  /** Every further processor adds the processor weight. */
  lemma ScoreOfProcessors(w: Weights, n: NodeRow, more: int)
    ensures Score(w, n.(cpuCount := n.cpuCount + more)) == Score(w, n) + more as real * w.cpu
  {
    var a, b := n.cpuCount as real, more as real;
    assert (a + b) * w.cpu == a * w.cpu + b * w.cpu;
  }

  /** What the memory text of an agent contributes. */
  lemma MemoryPart(bytes: nat, weight: real)
    ensures RamScore(ParseMemory(RamText(bytes)), weight) == Tenths(bytes) as real / 10.0 * weight
  {
    RoundTrip(bytes);
    PerGigabyte(ParseMemory(RamText(bytes)), Tenths(bytes) as real / 10.0, weight);
  }

  lemma PerGigabyte(megabytes: real, x: real, weight: real)
    requires megabytes == x * 1024.0
    ensures RamScore(megabytes, weight) == x * weight
  {
  }

  /** The part of the score that does not come from the memory. */
  function ScoreWithoutMemory(w: Weights, gpuModel: string, cpuCount: int): real {
    (if gpuModel == "" || gpuModel == "None" then 0.0 else 1000.0 * w.gpu) + cpuCount as real * w.cpu
  }

  lemma ScoreSplit(w: Weights, n: NodeRow)
    ensures Score(w, n) == ScoreWithoutMemory(w, n.gpuModel, n.cpuCount) + RamScore(ParseMemory(n.ramTotal), w.ram)
  {
  }

  /** Every further gigabyte of memory, to the printed tenth, adds the memory weight. */
  lemma ScoreOfMemory(w: Weights, n: NodeRow, a: nat, b: nat)
    ensures Score(w, n.(ramTotal := RamText(b))) - Score(w, n.(ramTotal := RamText(a)))
         == Tenths(b) as real / 10.0 * w.ram - Tenths(a) as real / 10.0 * w.ram
  {
    ScoreSplit(w, n.(ramTotal := RamText(a)));
    ScoreSplit(w, n.(ramTotal := RamText(b)));
    MemoryPart(a, w.ram);
    MemoryPart(b, w.ram);
  }

  /** A graphics processor of any model adds a thousand times its weight; no model and "None" mean there is none. */
  lemma ScoreOfGraphics(w: Weights, n: NodeRow, model: string, none: string)
    requires model != "" && model != "None" && (none == "" || none == "None")
    ensures Score(w, n.(gpuModel := model)) == Score(w, n.(gpuModel := none)) + 1000.0 * w.gpu
  {
  }

  /** No other column matters ... */
  lemma ScoreColumns(w: Weights, n: NodeRow, m: NodeRow)
    requires n.cpuCount == m.cpuCount && n.ramTotal == m.ramTotal && n.gpuModel == m.gpuModel
    ensures Score(w, n) == Score(w, m)
  {
    ScoreSplit(w, n);
    ScoreSplit(w, m);
  }

  /** ... and a node with nothing scores 0. */
  lemma ScoreOfNothing(w: Weights, n: NodeRow)
    requires n.cpuCount == 0 && n.ramTotal == "" && (n.gpuModel == "" || n.gpuModel == "None")
    ensures Score(w, n) == 0.0
  {
    ScoreSplit(w, n);
    assert ParseMemory("") == 0.0;
    PerGigabyte(0.0, 0.0, w.ram);
  }

  /** So the node of an agent with so much memory scores exactly this. */
  lemma ScoreExactly(w: Weights, n: NodeRow, bytes: nat)
    requires n.ramTotal == RamText(bytes)
    ensures Score(w, n) ==
            (if n.gpuModel == "" || n.gpuModel == "None" then 0.0 else 1000.0 * w.gpu)
            + n.cpuCount as real * w.cpu + Tenths(bytes) as real / 10.0 * w.ram
  {
    ScoreSplit(w, n);
    MemoryPart(bytes, w.ram);
  }

  // ---------- What that means for the choice ----------

  /** A node that scores more than a chosen one is chosen too. */
  lemma BetterIsTaken(w: Weights, available: seq<NodeRow>, required: int, better: NodeRow, chosen: NodeRow)
    requires better in available && chosen in Allocate(w, available, required)
    requires Score(w, better) > Score(w, chosen)
    ensures better in Allocate(w, available, required)
  {
    var sorted, r := Sort(available, KeyOf(ScoreOf(w))), Allocate(w, available, required);
    AllocateSize(w, available, required);
    SortElements(available, KeyOf(ScoreOf(w)));
    SortDescending(available, ScoreOf(w));
    assert better in multiset(sorted);
    var i :| 0 <= i < |sorted| && sorted[i] == better;
    var k :| 0 <= k < |r| && r[k] == chosen;
    assert sorted[k] == chosen;
    assert i >= |r| ==> ScoreOf(w)(sorted[k]) >= ScoreOf(w)(sorted[i]);
  }

  /** One node is like another but has more of one thing that carries a positive weight: more processors,
      more memory to the printed tenth, or a graphics processor where the other has none. */
  ghost predicate HasMore(w: Weights, better: NodeRow, other: NodeRow, a: nat, b: nat) {
    || (w.cpu > 0.0 && better.cpuCount > other.cpuCount
        && better.gpuModel == other.gpuModel && better.ramTotal == other.ramTotal)
    || (w.ram > 0.0 && better.ramTotal == RamText(b) && other.ramTotal == RamText(a) && Tenths(b) > Tenths(a)
        && better.cpuCount == other.cpuCount && better.gpuModel == other.gpuModel)
    || (w.gpu > 0.0 && better.gpuModel != "" && better.gpuModel != "None"
        && (other.gpuModel == "" || other.gpuModel == "None")
        && better.cpuCount == other.cpuCount && better.ramTotal == other.ramTotal)
  }

  lemma MoreScoresMore(w: Weights, better: NodeRow, other: NodeRow, a: nat, b: nat)
    requires HasMore(w, better, other, a, b)
    ensures Score(w, better) > Score(w, other)
  {
    if w.cpu > 0.0 && better.cpuCount > other.cpuCount && better.gpuModel == other.gpuModel
       && better.ramTotal == other.ramTotal {
      MoreProcessors(w, better, other);
    } else if better.gpuModel == other.gpuModel {
      MoreMemory(w, better, other, a, b);
    } else {
      ScoreOfGraphics(w, other, better.gpuModel, other.gpuModel);
      ScoreColumns(w, better, other.(gpuModel := better.gpuModel));
      assert other.(gpuModel := other.gpuModel) == other;
    }
  }

  lemma MoreProcessors(w: Weights, better: NodeRow, other: NodeRow)
    requires w.cpu > 0.0 && better.cpuCount > other.cpuCount
    requires better.gpuModel == other.gpuModel && better.ramTotal == other.ramTotal
    ensures Score(w, better) > Score(w, other)
  {
    var more := better.cpuCount - other.cpuCount;
    ScoreOfProcessors(w, other, more);
    ScoreColumns(w, better, other.(cpuCount := other.cpuCount + more));
    Positive(more as real, w.cpu);
  }

  lemma MoreMemory(w: Weights, better: NodeRow, other: NodeRow, a: nat, b: nat)
    requires w.ram > 0.0 && better.ramTotal == RamText(b) && other.ramTotal == RamText(a) && Tenths(b) > Tenths(a)
    requires better.cpuCount == other.cpuCount && better.gpuModel == other.gpuModel
    ensures Score(w, better) > Score(w, other)
  {
    ScoreSplit(w, better);
    ScoreSplit(w, other);
    MemoryOrder(other.ramTotal, better.ramTotal, a, b, w.ram);
  }

  lemma MemoryOrder(less: string, more: string, a: nat, b: nat, weight: real)
    requires less == RamText(a) && more == RamText(b) && Tenths(a) < Tenths(b) && weight > 0.0
    ensures RamScore(ParseMemory(less), weight) < RamScore(ParseMemory(more), weight)
  {
    RoundTrip(a);
    RoundTrip(b);
    RamScoreOrder(ParseMemory(less), ParseMemory(more), weight);
  }

  lemma RamScoreOrder(x: real, y: real, weight: real)
    requires x < y && weight > 0.0
    ensures RamScore(x, weight) < RamScore(y, weight)
  {
    Distribute(y / 1024.0, x / 1024.0, weight);
    Positive(y / 1024.0 - x / 1024.0, weight);
  }

  lemma Positive(x: real, y: real)
    requires x > 0.0 && y > 0.0
    ensures x * y > 0.0
  {
  }

  /** Hence whenever a node is allocated, every available node that has more than it is allocated as well. */
  lemma MoreIsTaken(
      w: Weights, available: seq<NodeRow>, required: int, better: NodeRow, chosen: NodeRow, a: nat, b: nat)
    requires better in available && chosen in Allocate(w, available, required) && HasMore(w, better, chosen, a, b)
    ensures better in Allocate(w, available, required)
  {
    MoreScoresMore(w, better, chosen, a, b);
    BetterIsTaken(w, available, required, better, chosen);
  }
}
