/** The autoscaler's rule set and its scale-in cooldown. Gauge readings, node listings, the clock and
    whether the callback returns or raises are inputs. */
module Autoscaling {
  import opened ClusterTypes

  datatype Policy = Policy(queueHigh: int, cpuHigh: real, gpuHigh: real,
                           queueLow: int, cpuLow: real, gpuLow: real, cooldown: real)

  /** What one evaluation sees: the queue gauge, the per-node gauges of the idle and of all nodes (a gauge
      may have no value), the clock, and whether the callback, if it is called, returns. */
  datatype Sample = Sample(pending: int, cpuIdle: seq<Option<real>>, gpuIdle: seq<Option<real>>,
                           cpuAll: seq<Option<real>>, gpuAll: seq<Option<real>>, now: real, callbackReturns: bool)

  datatype Action = ScaleOut | ScaleIn | Stay

  function Present(values: seq<Option<real>>): seq<real> {
    if values == [] then [] else (if values[0].Some? then [values[0].value] else []) + Present(values[1..])
  }

  function Sum(s: seq<real>): real {
    if s == [] then 0.0 else Sum(s[..|s| - 1]) + s[|s| - 1]
  }

  /** The mean of the values that are there, 0 when there are none. */
  function Average(values: seq<Option<real>>): real {
    var s := Present(values);
    if s == [] then 0.0 else Sum(s) / |s| as real
  }

  predicate WantsOut(p: Policy, x: Sample) {
    x.pending > p.queueHigh || Average(x.cpuIdle) > p.cpuHigh || Average(x.gpuIdle) > p.gpuHigh
  }

  predicate Quiet(p: Policy, x: Sample) {
    x.pending <= p.queueLow && Average(x.cpuAll) < p.cpuLow && Average(x.gpuAll) < p.gpuLow
  }

  function Decide(p: Policy, lastIn: real, x: Sample): Action {
    if WantsOut(p, x) then ScaleOut else if Quiet(p, x) && x.now - lastIn > p.cooldown then ScaleIn else Stay
  }

  /** The cooldown starts only when the callback has returned. */
  function LastIn(p: Policy, lastIn: real, x: Sample): real {
    if Decide(p, lastIn, x) == ScaleIn && x.callbackReturns then x.now else lastIn
  }

  function Actions(p: Policy, lastIn: real, xs: seq<Sample>): (actions: seq<Action>)
    ensures |actions| == |xs|
    decreases |xs|
  {
    if xs == [] then [] else [Decide(p, lastIn, xs[0])] + Actions(p, LastIn(p, lastIn, xs[0]), xs[1..])
  }

  lemma {:induction false} PresentAppend(values: seq<Option<real>>, v: Option<real>)
    ensures Present(values + [v]) == Present(values) + (if v.Some? then [v.value] else [])
  {
    if values == [] {
      assert [] + [v] == [v] && [v][1..] == [];
    } else {
      PresentAppend(values[1..], v);
      assert (values + [v])[0] == values[0] && (values + [v])[1..] == values[1..] + [v];
    }
  }

  lemma SumAppend(s: seq<real>, v: real)
    ensures Sum(s + [v]) == Sum(s) + v
  {
    assert (s + [v])[..|s|] == s;
  }

  class Autoscaler {
    const policy: Policy
    var lastScaleIn: real

    constructor (policy: Policy)
      ensures this.policy == policy && lastScaleIn == 0.0
    {
      this.policy, lastScaleIn := policy, 0.0;
    }

    static method GaugeAvg(values: seq<Option<real>>) returns (avg: real)
      ensures avg == Average(values)
    {
      var total, cnt := 0.0, 0;
      for i := 0 to |values|
        invariant cnt == |Present(values[..i])| && total == Sum(Present(values[..i]))
      {
        PresentAppend(values[..i], values[i]);
        assert values[..i + 1] == values[..i] + [values[i]];
        if values[i].Some? {
          SumAppend(Present(values[..i]), values[i].value);
          total, cnt := total + values[i].value, cnt + 1;
        } else {
          assert Present(values[..i]) + [] == Present(values[..i]);
        }
      }
      assert values[..|values|] == values;
      avg := if cnt == 0 then 0.0 else total / cnt as real;
    }

    method Evaluate(x: Sample) returns (action: Action)
      modifies this
      ensures action == Decide(policy, old(lastScaleIn), x)
      ensures lastScaleIn == LastIn(policy, old(lastScaleIn), x)
    {
      var cpuIdle := GaugeAvg(x.cpuIdle);
      var gpuIdle := GaugeAvg(x.gpuIdle);
      var cpuAll := GaugeAvg(x.cpuAll);
      var gpuAll := GaugeAvg(x.gpuAll);
      var scaleOut := x.pending > policy.queueHigh || cpuIdle > policy.cpuHigh || gpuIdle > policy.gpuHigh;
      var scaleIn := x.pending <= policy.queueLow && cpuAll < policy.cpuLow && gpuAll < policy.gpuLow
                     && x.now - lastScaleIn > policy.cooldown;
      action := Stay;
      if scaleOut {
        action := ScaleOut;
      } else if scaleIn {
        action := ScaleIn;
        if x.callbackReturns {
          lastScaleIn := x.now;
        }
      }
    }

    /** The loop; an exception from the callback is swallowed and the loop goes on. */
    method RunLoop(xs: seq<Sample>) returns (actions: seq<Action>)
      modifies this
      ensures actions == Actions(policy, old(lastScaleIn), xs)
    {
      actions := [];
      for i := 0 to |xs|
        invariant actions + Actions(policy, lastScaleIn, xs[i..]) == Actions(policy, old(lastScaleIn), xs)
      {
        assert xs[i..][0] == xs[i] && xs[i..][1..] == xs[i + 1..];
        var action := Evaluate(xs[i]);
        actions := actions + [action];
      }
      assert xs[|xs|..] == [];
    }
  }

  // ---------- Spacing of scale-ins ----------

  ghost predicate ClockForward(xs: seq<Sample>) {
    forall i, k :: 0 <= i < k < |xs| ==> xs[i].now <= xs[k].now
  }

  /** The moments of the scale-ins whose callback returned. */
  function ScaleInTimes(p: Policy, lastIn: real, xs: seq<Sample>): seq<real>
    decreases |xs|
  {
    if xs == [] then []
    else (if Decide(p, lastIn, xs[0]) == ScaleIn && xs[0].callbackReturns then [xs[0].now] else [])
         + ScaleInTimes(p, LastIn(p, lastIn, xs[0]), xs[1..])
  }

  lemma {:induction false} FirstScaleIn(p: Policy, lastIn: real, xs: seq<Sample>)
    requires ClockForward(xs)
    ensures var times := ScaleInTimes(p, lastIn, xs); times != [] ==> times[0] - lastIn > p.cooldown
    decreases |xs|
  {
    if xs != [] { FirstScaleIn(p, LastIn(p, lastIn, xs[0]), xs[1..]); }
  }

  lemma {:induction false} NextScaleIn(p: Policy, lastIn: real, xs: seq<Sample>, k: nat)
    requires ClockForward(xs) && k + 1 < |ScaleInTimes(p, lastIn, xs)|
    ensures ScaleInTimes(p, lastIn, xs)[k + 1] - ScaleInTimes(p, lastIn, xs)[k] > p.cooldown
    decreases |xs|
  {
    var last' := LastIn(p, lastIn, xs[0]);
    if !(Decide(p, lastIn, xs[0]) == ScaleIn && xs[0].callbackReturns) {
      NextScaleIn(p, last', xs[1..], k);
    } else if k > 0 {
      NextScaleIn(p, last', xs[1..], k - 1);
    } else {
      FirstScaleIn(p, last', xs[1..]);
    }
  }

  lemma {:induction false} GapsAddUp(s: seq<real>, gap: real, a: nat, b: nat)
    requires a < b < |s| && forall k :: 0 <= k < |s| - 1 ==> s[k + 1] - s[k] > gap
    ensures s[b] - s[a] > (b - a) as real * gap
    decreases b
  {
    assert s[b - 1 + 1] - s[b - 1] > gap;
    if a + 1 < b {
      GapsAddUp(s, gap, a, b - 1);
      assert (b - a) as real * gap == (b - 1 - a) as real * gap + gap;
    }
  }

  /** `b - a` scale-ins later, more than `b - a` cooldowns have passed, however scale-outs, idle ticks and
      failing callbacks interleave; so `n` of them never fit into a window of `(n - 1)` cooldowns. */
  lemma ScaleInSpacing(p: Policy, lastIn: real, xs: seq<Sample>, a: nat, b: nat)
    requires ClockForward(xs) && a < b < |ScaleInTimes(p, lastIn, xs)|
    ensures ScaleInTimes(p, lastIn, xs)[b] - ScaleInTimes(p, lastIn, xs)[a] > (b - a) as real * p.cooldown
  {
    var times := ScaleInTimes(p, lastIn, xs);
    forall k | 0 <= k < |times| - 1 ensures times[k + 1] - times[k] > p.cooldown { NextScaleIn(p, lastIn, xs, k); }
    GapsAddUp(times, p.cooldown, a, b);
  }

  /** The exact condition behind that: after a scale-in, a tick with the same readings asks for another
      one if and only if the callback had raised or the cooldown has passed. */
  lemma ScaleInAgainIff(p: Policy, lastIn: real, x: Sample, later: real)
    requires Decide(p, lastIn, x) == ScaleIn && x.now <= later
    ensures Decide(p, LastIn(p, lastIn, x), x.(now := later)) == ScaleIn
        <==> !x.callbackReturns || later - x.now > p.cooldown
  {
  }

  // ---------- What the readings mean ----------

  /** The number and the sum of the values that are there. */
  function HowMany(values: seq<Option<real>>): nat {
    if values == [] then 0 else (if values[0].Some? then 1 else 0) + HowMany(values[1..])
  }

  function Altogether(values: seq<Option<real>>): real {
    if values == [] then 0.0 else (if values[0].Some? then values[0].value else 0.0) + Altogether(values[1..])
  }

  lemma SumPrepend(v: real, s: seq<real>)
    ensures Sum([v] + s) == v + Sum(s)
    decreases |s|
  {
    if s == [] {
      assert [v] + s == [v] && [v][..0] == [];
    } else {
      SumPrepend(v, s[..|s| - 1]);
      assert ([v] + s)[..|s|] == [v] + s[..|s| - 1];
    }
  }

  lemma {:induction false} PresentTotals(values: seq<Option<real>>)
    ensures |Present(values)| == HowMany(values) && Sum(Present(values)) == Altogether(values)
  {
    if values != [] {
      PresentTotals(values[1..]);
      if values[0].Some? {
        SumPrepend(values[0].value, Present(values[1..]));
      } else {
        assert [] + Present(values[1..]) == Present(values[1..]);
      }
    }
  }

  /** The average of the values that are there, times their number, is their sum; without any it is 0. */
  lemma AverageTimesNumber(values: seq<Option<real>>)
    ensures HowMany(values) > 0 ==> Average(values) * HowMany(values) as real == Altogether(values)
    ensures HowMany(values) == 0 ==> Average(values) == 0.0
  {
    PresentTotals(values);
    if HowMany(values) > 0 { Mean(Altogether(values), HowMany(values)); }
  }

  lemma Mean(sum: real, n: nat)
    requires n > 0
    ensures sum / n as real * n as real == sum
  {
  }

  // ---------- Decisions over a run ----------

  /** The readings ask for more nodes: the queue, or the processors or accelerators of the idle nodes, are
      above their limits. */
  predicate Busy(p: Policy, x: Sample) {
    x.pending > p.queueHigh || Average(x.cpuIdle) > p.cpuHigh || Average(x.gpuIdle) > p.gpuHigh
  }

  /** The readings permit fewer: the queue is within its low limit and the processors and accelerators of all
      nodes are below theirs. */
  predicate Idle(p: Policy, x: Sample) {
    x.pending <= p.queueLow && Average(x.cpuAll) < p.cpuLow && Average(x.gpuAll) < p.gpuLow
  }

  /** The cooldown has passed at tick `i` since the start and since every scale-in whose callback returned. */
  ghost predicate Cool(p: Policy, lastIn: real, xs: seq<Sample>, i: nat)
    requires i < |xs|
  {
    && xs[i].now - lastIn > p.cooldown
    && forall k :: 0 <= k < i && Actions(p, lastIn, xs)[k] == ScaleIn && xs[k].callbackReturns ==>
         xs[i].now - xs[k].now > p.cooldown
  }

  /** Every decision of a run, without its internal state: out exactly when the readings ask for it; in exactly
      when they do not, permit fewer nodes, and the cooldown has passed since every scale-in that took effect. */
  lemma {:induction false} EveryDecision(p: Policy, lastIn: real, xs: seq<Sample>, i: nat)
    requires ClockForward(xs) && i < |xs|
    ensures Actions(p, lastIn, xs)[i] == ScaleOut <==> Busy(p, xs[i])
    ensures Actions(p, lastIn, xs)[i] == ScaleIn <==> !Busy(p, xs[i]) && Idle(p, xs[i]) && Cool(p, lastIn, xs, i)
    decreases |xs|
  {
    if i > 0 {
      var last', rest := LastIn(p, lastIn, xs[0]), xs[1..];
      EveryDecision(p, last', rest, i - 1);
      CoolSplit(p, lastIn, xs, i);
    }
  }

  lemma CoolSplit(p: Policy, lastIn: real, xs: seq<Sample>, i: nat)
    requires ClockForward(xs) && 0 < i < |xs|
    ensures Cool(p, lastIn, xs, i) <==> Cool(p, LastIn(p, lastIn, xs[0]), xs[1..], i - 1)
  {
    var last', rest := LastIn(p, lastIn, xs[0]), xs[1..];
    var all, later := Actions(p, lastIn, xs), Actions(p, last', rest);
    assert all[0] == Decide(p, lastIn, xs[0]) && forall k :: 0 <= k < |later| ==> all[k + 1] == later[k];
    if Cool(p, lastIn, xs, i) {
      forall k | 0 <= k < i - 1 && later[k] == ScaleIn && rest[k].callbackReturns
        ensures rest[i - 1].now - rest[k].now > p.cooldown
      {
        assert all[k + 1] == ScaleIn && xs[k + 1].callbackReturns;
      }
    }
    if Cool(p, last', rest, i - 1) {
      forall k | 0 <= k < i && all[k] == ScaleIn && xs[k].callbackReturns ensures xs[i].now - xs[k].now > p.cooldown {
        if k > 0 { assert later[k - 1] == ScaleIn && rest[k - 1].callbackReturns; }
      }
    }
  }
}
