/** The mutable build report: targets and the sweep over them. */
module NinjaReport {
  import opened StableSorting
  import opened NinjaSweep

  class Target {
    const start: real
    const end: real
    var targets: seq<string>
    var weightedDuration: real

    constructor (start: real, end: real)
      ensures this.start == start && this.end == end
      ensures targets == [] && weightedDuration == 0.0
    {
      this.start, this.end := start, end;
      targets, weightedDuration := [], 0.0;
    }
  }

  // ---------- Summary ----------

  /** The sweep fails on an empty list, and when it meets a stop without its start. */
  datatype Summary = NoEntries | MissingTask | Totals(length: real, weighted: real, cpu: real)

  function Intervals(entries: seq<Target>): (iv: seq<Interval>)
    ensures |iv| == |entries|
    ensures forall i :: 0 <= i < |entries| ==> iv[i] == Interval(entries[i].start, entries[i].end)
  {
    seq(|entries|, i requires 0 <= i < |entries| => Interval(entries[i].start, entries[i].end))
  }

  function Earliest(iv: seq<Interval>, n: nat): real
    requires n <= |iv|
  {
    if n == 0 then -1.0
    else
      var e := Earliest(iv, n - 1);
      if e < 0.0 || iv[n - 1].start < e then iv[n - 1].start else e
  }

  function Latest(iv: seq<Interval>, n: nat): real
    requires n <= |iv|
  {
    if n == 0 then 0.0
    else
      var l := Latest(iv, n - 1);
      if iv[n - 1].end > l then iv[n - 1].end else l
  }

  function Elapsed(iv: seq<Interval>, n: nat): real
    requires n <= |iv|
  {
    if n == 0 then 0.0 else Elapsed(iv, n - 1) + (iv[n - 1].end - iv[n - 1].start)
  }

  /** The processor time is the sum of the durations. */
  lemma {:induction false} ElapsedIsSum(iv: seq<Interval>, n: nat)
    requires n <= |iv|
    ensures Elapsed(iv, n) == SumReal(seq(n, i requires 0 <= i < n => iv[i].end - iv[i].start))
  {
    if n > 0 {
      var durations := seq(n, i requires 0 <= i < n => iv[i].end - iv[i].start);
      ElapsedIsSum(iv, n - 1);
      SumRealAppend(durations[..n - 1], durations[n - 1]);
      assert durations[..n - 1] == seq(n - 1, i requires 0 <= i < n - 1 => iv[i].end - iv[i].start);
      assert durations == durations[..n - 1] + [durations[n - 1]];
    }
  }

  ghost function SumReal(xs: seq<real>): real {
    if xs == [] then 0.0 else xs[0] + SumReal(xs[1..])
  }

  lemma {:induction false} SumRealUpdate(xs: seq<real>, i: nat, v: real)
    requires i < |xs|
    ensures SumReal(xs[i := v]) == SumReal(xs) - xs[i] + v
  {
    if i > 0 {
      SumRealUpdate(xs[1..], i - 1, v);
      assert xs[i := v][1..] == xs[1..][i - 1 := v];
    } else {
      assert xs[i := v][1..] == xs[1..];
    }
  }

  lemma {:induction false} SumRealZero(xs: seq<real>)
    requires forall k :: 0 <= k < |xs| ==> xs[k] == 0.0
    ensures SumReal(xs) == 0.0
  {
    if xs != [] { SumRealZero(xs[1..]); }
  }

  lemma {:induction false} SumRealAppend(xs: seq<real>, x: real)
    ensures SumReal(xs + [x]) == SumReal(xs) + x
  {
    if xs == [] {
      assert xs + [x] == [x];
    } else {
      SumRealAppend(xs[1..], x);
      assert (xs + [x])[1..] == xs[1..] + [x];
    }
  }

  method CollectEvents(entries: seq<Target>) returns (events: seq<Event>, length: real, cpu: real)
    ensures var iv, n := Intervals(entries), |entries|;
            events == EventsOf(iv, n) && length == Latest(iv, n) - Earliest(iv, n) && cpu == Elapsed(iv, n)
  {
    ghost var iv := Intervals(entries);
    var earliest, latest := -1.0, 0.0;
    events, cpu := [], 0.0;
    for i := 0 to |entries|
      invariant earliest == Earliest(iv, i) && latest == Latest(iv, i) && cpu == Elapsed(iv, i)
      invariant events == EventsOf(iv, i)
    {
      var target := entries[i];
      if earliest < 0.0 || target.start < earliest {
        earliest := target.start;
      }
      if target.end > latest {
        latest := target.end;
      }
      cpu := cpu + (target.end - target.start);
      events := events + [Event(target.start, Start, i)];
      events := events + [Event(target.end, Stop, i)];
    }
    length := latest - earliest;
  }

  ghost function SweepWeights(plan: Plan, acc: seq<real>): (w: seq<real>)
    requires plan.Valid() && |acc| == |plan.ev| + 1
    ensures |w| == |plan.iv|
    ensures forall i :: 0 <= i < |w| ==> w[i] == SweepWeight(plan, acc, i)
  {
    seq(|plan.iv|, i requires 0 <= i < |plan.iv| => SweepWeight(plan, acc, i))
  }

  /** Before event `j` the dictionary holds the running steps with the accumulator at their start. */
  ghost predicate Holds(plan: Plan, acc: seq<real>, j: nat, running: map<nat, real>)
    requires plan.Valid() && |acc| == |plan.ev| + 1
  {
    && running.Keys == RunningAfter(plan, j)
    && forall i :: i in running ==> plan.startAt[i] < |plan.ev| && running[i] == acc[plan.startAt[i] + 1]
  }

  /** Before event `j` the stopped steps have their weight. */
  ghost predicate Recorded(plan: Plan, acc: seq<real>, j: nat, weights: seq<real>)
    requires plan.Valid() && |acc| == |plan.ev| + 1
  {
    && |weights| == |plan.iv|
    && (forall i :: i in StoppedBefore(plan, j) ==> weights[i] == SweepWeight(plan, acc, i))
  }

  ghost function StoppedWeights(plan: Plan, acc: seq<real>, j: nat): (w: seq<real>)
    requires plan.Valid() && |acc| == |plan.ev| + 1
    ensures |w| == |plan.iv|
  {
    seq(|plan.iv|, i requires 0 <= i < |plan.iv| =>
      if i in StoppedBefore(plan, j) then SweepWeight(plan, acc, i) else 0.0)
  }

  /** Total weight of the steps stopped before event `j`. */
  ghost function StoppedTotal(plan: Plan, acc: seq<real>, j: nat): real
    requires plan.Valid() && |acc| == |plan.ev| + 1
  {
    SumReal(StoppedWeights(plan, acc, j))
  }

  lemma StartEvent(plan: Plan, acc: seq<real>, j: nat, running: map<nat, real>, weights: seq<real>)
    requires plan.Valid() && |acc| == |plan.ev| + 1
    requires j < |plan.ev| && plan.ev[j].action == Start && StopsFollowStarts(plan, j)
    requires Holds(plan, acc, j, running) && Recorded(plan, acc, j, weights)
    ensures StopsFollowStarts(plan, j + 1)
    ensures Holds(plan, acc, j + 1, running[plan.ev[j].target := acc[j + 1]])
    ensures Recorded(plan, acc, j + 1, weights)
    ensures StoppedTotal(plan, acc, j + 1) == StoppedTotal(plan, acc, j)
  {
    StartStep(plan, j);
    assert StoppedWeights(plan, acc, j + 1) == StoppedWeights(plan, acc, j);
  }

  ghost predicate SweptTo(plan: Plan, acc: seq<real>, j: nat, running: map<nat, real>, weights: seq<real>, total: real)
    requires plan.Valid() && |acc| == |plan.ev| + 1
  {
    && StopsFollowStarts(plan, j)
    && Holds(plan, acc, j, running)
    && Recorded(plan, acc, j, weights)
    && total == StoppedTotal(plan, acc, j)
  }

  lemma StopHolds(plan: Plan, acc: seq<real>, j: nat, running: map<nat, real>)
    requires plan.Valid() && |acc| == |plan.ev| + 1
    requires j < |plan.ev| && plan.ev[j].action == Stop && Holds(plan, acc, j, running)
    ensures Holds(plan, acc, j + 1, running - {plan.ev[j].target})
  {
    StopStep(plan, j);
    assert (running - {plan.ev[j].target}).Keys == running.Keys - {plan.ev[j].target};
  }

  lemma StopRecorded(plan: Plan, acc: seq<real>, j: nat, weights: seq<real>)
    requires plan.Valid() && |acc| == |plan.ev| + 1
    requires j < |plan.ev| && plan.ev[j].action == Stop && Recorded(plan, acc, j, weights)
    ensures plan.ev[j].target < |plan.iv|
    ensures var d := SweepWeight(plan, acc, plan.ev[j].target);
            && Recorded(plan, acc, j + 1, weights[plan.ev[j].target := d])
            && StoppedTotal(plan, acc, j + 1) == StoppedTotal(plan, acc, j) + d
  {
    StopStep(plan, j);
    var i, w := plan.ev[j].target, StoppedWeights(plan, acc, j);
    SumRealUpdate(w, i, SweepWeight(plan, acc, i));
    assert StoppedWeights(plan, acc, j + 1) == w[i := SweepWeight(plan, acc, i)];
  }

  lemma StopEvent(plan: Plan, acc: seq<real>, j: nat, running: map<nat, real>, weights: seq<real>, total: real)
    requires plan.Valid() && |acc| == |plan.ev| + 1
    requires j < |plan.ev| && plan.ev[j].action == Stop && SweptTo(plan, acc, j, running, weights, total)
    ensures var i := plan.ev[j].target;
            && i < |plan.iv|
            && (i in running <==> plan.iv[i].start <= plan.iv[i].end)
            && (i in running ==>
                  var d := acc[j + 1] - running[i];
                  SweptTo(plan, acc, j + 1, running - {i}, weights[i := d], total + d))
  {
    StopStep(plan, j);
    StopHolds(plan, acc, j, running);
    StopRecorded(plan, acc, j, weights);
    var i := plan.ev[j].target;
    if i in running {
      assert acc[j + 1] - running[i] == SweepWeight(plan, acc, i);
      assert StopsFollowStarts(plan, j + 1);
    }
  }

  ghost function Weights(entries: seq<Target>): (w: seq<real>)
    reads entries
    ensures |w| == |entries|
    ensures forall i :: 0 <= i < |w| ==> w[i] == entries[i].weightedDuration
  {
    seq(|entries|, i requires 0 <= i < |entries| reads entries => entries[i].weightedDuration)
  }

  method SetWeightedDuration(entries: seq<Target>, i: nat, weightedDuration: real)
    requires forall p, q :: 0 <= p < q < |entries| ==> entries[p] != entries[q]
    requires i < |entries|
    modifies entries`weightedDuration
    ensures Weights(entries) == old(Weights(entries))[i := weightedDuration]
  {
    entries[i].weightedDuration := weightedDuration;
  }

  /** Adds the time that passed, shared among the running steps. */
  method Accumulate(weightedTime: real, elapsed: real, numRunning: nat) returns (t: real)
    ensures t == weightedTime + PerTask(elapsed, numRunning)
  {
    t := weightedTime;
    if numRunning > 0 {
      t := t + elapsed / numRunning as real;
    }
  }

  lemma NothingSwept(plan: Plan, acc: seq<real>, weights: seq<real>)
    requires plan.Valid() && |acc| == |plan.ev| + 1 && |weights| == |plan.iv|
    ensures SweptTo(plan, acc, 0, map[], weights, 0.0)
  {
    SumRealZero(StoppedWeights(plan, acc, 0));
    assert RunningAfter(plan, 0) == {};
  }

  lemma EverythingSwept(plan: Plan, acc: seq<real>, running: map<nat, real>, weights: seq<real>, total: real)
    requires plan.Valid() && |acc| == |plan.ev| + 1
    requires SweptTo(plan, acc, |plan.ev|, running, weights, total)
    ensures Ordered(plan.iv) && running == map[]
    ensures weights == SweepWeights(plan, acc) && total == SumReal(weights)
  {
    AllStopped(plan);
    assert running.Keys == {};
    assert weights == StoppedWeights(plan, acc, |plan.ev|);
  }

  /** The accumulator at event `j`. */
  method AdvanceTo(weightedTime: real, lastTime: real, time: real, running: map<nat, real>,
                   ghost plan: Plan, ghost acc: seq<real>, ghost j: nat)
    returns (t: real)
    requires plan.Valid() && IsAccumulator(plan, acc) && j < |plan.ev|
    requires running.Keys == RunningAfter(plan, j) && weightedTime == acc[j]
    requires time == plan.ev[j].time && (j > 0 ==> lastTime == plan.ev[j - 1].time)
    ensures t == acc[j + 1]
  {
    var numRunning := |running|;
    assert numRunning == |running.Keys|;
    AccumulatorStep(plan, acc, j, time - lastTime, numRunning);
    t := Accumulate(weightedTime, time - lastTime, numRunning);
  }

  /** A step starts: the accumulator is remembered. */
  method StartTask(ghost weights: seq<real>, ghost j: nat, running: map<nat, real>, weightedTime: real, ghost total: real,
                   ghost plan: Plan, ghost acc: seq<real>, i: nat)
    returns (running': map<nat, real>)
    requires plan.Valid() && |acc| == |plan.ev| + 1
    requires j < |plan.ev| && plan.ev[j].action == Start && plan.ev[j].target == i && weightedTime == acc[j + 1]
    requires SweptTo(plan, acc, j, running, weights, total)
    ensures SweptTo(plan, acc, j + 1, running', weights, total)
  {
    StartEvent(plan, acc, j, running, weights);
    running' := running[i := weightedTime];
  }

  /** A step stops: it receives what the accumulator gained since its start.  Fails if the step is
      not running. */
  method StopTask(entries: seq<Target>, ghost j: nat, running: map<nat, real>, weightedTime: real, total: real,
                  ghost plan: Plan, ghost acc: seq<real>, i: nat)
    returns (ok: bool, running': map<nat, real>, total': real)
    requires forall p, q :: 0 <= p < q < |entries| ==> entries[p] != entries[q]
    requires plan.Valid() && |acc| == |plan.ev| + 1 && plan.iv == Intervals(entries)
    requires j < |plan.ev| && plan.ev[j].action == Stop && plan.ev[j].target == i && weightedTime == acc[j + 1]
    requires SweptTo(plan, acc, j, running, Weights(entries), total)
    modifies entries`weightedDuration
    ensures ok ==> SweptTo(plan, acc, j + 1, running', Weights(entries), total')
    ensures !ok ==> !Ordered(plan.iv)
  {
    StopEvent(plan, acc, j, running, Weights(entries), total);
    if i !in running {
      return false, running, total;
    }
    var weightedDuration := weightedTime - running[i];
    SetWeightedDuration(entries, i, weightedDuration);
    return true, running - {i}, total + weightedDuration;
  }

  /** One event of the sweep. */
  method SweepEvent(entries: seq<Target>, e: Event, lastTime: real, running: map<nat, real>, weightedTime: real,
                    total: real, ghost plan: Plan, ghost acc: seq<real>, ghost j: nat)
    returns (ok: bool, running': map<nat, real>, weightedTime': real, total': real)
    requires forall p, q :: 0 <= p < q < |entries| ==> entries[p] != entries[q]
    requires plan.Valid() && IsAccumulator(plan, acc) && plan.iv == Intervals(entries)
    requires j < |plan.ev| && plan.ev[j] == e && weightedTime == acc[j]
    requires j > 0 ==> lastTime == plan.ev[j - 1].time
    requires SweptTo(plan, acc, j, running, Weights(entries), total)
    modifies entries`weightedDuration
    ensures weightedTime' == acc[j + 1]
    ensures ok ==> SweptTo(plan, acc, j + 1, running', Weights(entries), total')
    ensures !ok ==> !Ordered(plan.iv)
  {
    weightedTime' := AdvanceTo(weightedTime, lastTime, e.time, running, plan, acc, j);
    if e.action == Start {
      running' := StartTask(Weights(entries), j, running, weightedTime', total, plan, acc, e.target);
      ok, total' := true, total;
    } else {
      ok, running', total' := StopTask(entries, j, running, weightedTime', total, plan, acc, e.target);
    }
  }

  /** The sweep over the events in order: one accumulator, and for each running step its value
      when the step started. */
  method Sweep(entries: seq<Target>, ev: seq<Event>, ghost plan: Plan, ghost acc: seq<real>)
    returns (ok: bool, weightedTotal: real)
    requires forall p, q :: 0 <= p < q < |entries| ==> entries[p] != entries[q]
    requires plan.Valid() && IsAccumulator(plan, acc)
    requires plan.ev == ev && plan.iv == Intervals(entries) && ev != []
    modifies entries`weightedDuration
    ensures ok <==> Ordered(plan.iv)
    ensures ok ==> Weights(entries) == SweepWeights(plan, acc)
    ensures ok ==> weightedTotal == SumReal(SweepWeights(plan, acc))
  {
    var running: map<nat, real> := map[];
    var lastTime, weightedTime := ev[0].time, 0.0;
    weightedTotal := 0.0;
    NothingSwept(plan, acc, Weights(entries));
    for j := 0 to |ev|
      invariant SweptTo(plan, acc, j, running, Weights(entries), weightedTotal)
      invariant weightedTime == acc[j]
      invariant j > 0 ==> lastTime == ev[j - 1].time
    {
      ok, running, weightedTime, weightedTotal :=
        SweepEvent(entries, ev[j], lastTime, running, weightedTime, weightedTotal, plan, acc, j);
      if !ok {
        return;
      }
      lastTime := ev[j].time;
    }
    EverythingSwept(plan, acc, running, Weights(entries), weightedTotal);
    ok := true;
  }

  // ---------- The reported length ----------

  function LeastStart(iv: seq<Interval>, n: nat): (least: real)
    requires 1 <= n <= |iv|
    ensures forall i :: 0 <= i < n ==> least <= iv[i].start
    ensures exists i :: 0 <= i < n && least == iv[i].start
  {
    if n == 1 then iv[0].start
    else
      var least := LeastStart(iv, n - 1);
      if iv[n - 1].start < least then iv[n - 1].start else least
  }

  function GreatestEnd(iv: seq<Interval>, n: nat): (greatest: real)
    requires 1 <= n <= |iv|
    ensures forall i :: 0 <= i < n ==> iv[i].end <= greatest
    ensures exists i :: 0 <= i < n && greatest == iv[i].end
  {
    if n == 1 then iv[0].end
    else
      var greatest := GreatestEnd(iv, n - 1);
      if iv[n - 1].end > greatest then iv[n - 1].end else greatest
  }

  /** The running minimum treats a negative value as unset, so any start replaces it. */
  lemma {:induction false} EarliestValue(iv: seq<Interval>, n: nat)
    requires 1 <= n <= |iv|
    ensures LeastStart(iv, n) >= 0.0 ==> Earliest(iv, n) == LeastStart(iv, n)
    ensures iv[n - 1].start < 0.0 ==> Earliest(iv, n) == iv[n - 1].start
    ensures iv[n - 1].start >= 0.0 ==> Earliest(iv, n) >= 0.0
  {
    if n > 1 { EarliestValue(iv, n - 1); }
  }

  /** No start is negative, or the last one is and none is less. */
  predicate StartsAllow(iv: seq<Interval>)
    requires iv != []
  {
    var last := iv[|iv| - 1].start;
    LeastStart(iv, |iv|) >= 0.0 || (last < 0.0 && last == LeastStart(iv, |iv|))
  }

  /** The running minimum is the least start exactly under that condition. */
  lemma EarliestIsLeast(iv: seq<Interval>)
    requires iv != []
    ensures Earliest(iv, |iv|) == LeastStart(iv, |iv|) <==> StartsAllow(iv)
  {
    EarliestValue(iv, |iv|);
  }

  lemma {:induction false} LatestValue(iv: seq<Interval>, n: nat)
    requires 1 <= n <= |iv|
    ensures Latest(iv, n) == if GreatestEnd(iv, n) >= 0.0 then GreatestEnd(iv, n) else 0.0
  {
    if n > 1 { LatestValue(iv, n - 1); }
  }

  /** The running maximum is the greatest end exactly if some end is not negative. */
  lemma LatestIsGreatest(iv: seq<Interval>)
    requires iv != []
    ensures Latest(iv, |iv|) == GreatestEnd(iv, |iv|) <==> exists i :: 0 <= i < |iv| && iv[i].end >= 0.0
  {
    LatestValue(iv, |iv|);
  }

  /** When the reported length is right: the running minimum must be, or, if every time is negative,
      its error must happen to make up for that of the running maximum. */
  predicate LengthAllows(iv: seq<Interval>)
    requires iv != []
  {
    if GreatestEnd(iv, |iv|) >= 0.0 then StartsAllow(iv)
    else iv[|iv| - 1].start == LeastStart(iv, |iv|) - GreatestEnd(iv, |iv|)
  }

  lemma SpanIs(iv: seq<Interval>)
    requires iv != [] && Ordered(iv)
    ensures var times := Times(SortedEvents(iv));
            |times| == 2 * |iv| && times[0] == LeastStart(iv, |iv|) && times[|times| - 1] == GreatestEnd(iv, |iv|)
  {
    PlanOfIsValid(iv);
    SpanOfPlan(PlanOf(iv));
  }

  /** The reported length is the time from first to last event if and only if the times allow it; in
      particular if no start is negative. */
  lemma LengthIsSpan(iv: seq<Interval>)
    requires iv != [] && Ordered(iv)
    ensures |Times(SortedEvents(iv))| == 2 * |iv|
    ensures var times := Times(SortedEvents(iv));
            Latest(iv, |iv|) - Earliest(iv, |iv|) == times[|times| - 1] - times[0] <==> LengthAllows(iv)
    ensures (forall i :: 0 <= i < |iv| ==> 0.0 <= iv[i].start) ==> LengthAllows(iv)
  {
    SpanIs(iv);
    EarliestValue(iv, |iv|);
    LatestValue(iv, |iv|);
    assert iv[0].start <= iv[0].end <= GreatestEnd(iv, |iv|);
    assert iv[|iv| - 1].start <= iv[|iv| - 1].end <= GreatestEnd(iv, |iv|);
  }

  /** The weighted total never exceeds the reported length, and equals it exactly when some step is
      running at every instant in between. */
  ghost predicate TotalFits(iv: seq<Interval>)
    requires iv != [] && Ordered(iv)
  {
    var times, length := Times(SortedEvents(iv)), Latest(iv, |iv|) - Earliest(iv, |iv|);
    && Busy(iv, times, |times|) <= length
    && (Busy(iv, times, |times|) == length <==> NoIdleGap(iv, times, |times|))
  }

  /** That holds if the reported length is right; otherwise if and only if the total is less than the
      length and there is an idle gap. */
  lemma TotalWithinLength(iv: seq<Interval>)
    requires iv != [] && Ordered(iv)
    ensures LengthAllows(iv) ==> TotalFits(iv)
    ensures !LengthAllows(iv) ==>
              var times, length := Times(SortedEvents(iv)), Latest(iv, |iv|) - Earliest(iv, |iv|);
              TotalFits(iv) <==> Busy(iv, times, |times|) < length && !NoIdleGap(iv, times, |times|)
  {
    LengthIsSpan(iv);
    SortedEventsAscend(iv);
    BusyWithinSpan(iv, Times(SortedEvents(iv)), 2 * |iv|);
  }

  function TwoStepsFromMinusOne(): seq<Interval> {
    [Interval(-1.0, 0.0), Interval(2.0, 3.0)]
  }

  lemma TwoStepTimes()
    ensures Times(SortedEvents(TwoStepsFromMinusOne())) == [-1.0, 0.0, 2.0, 3.0]
  {
    var iv := TwoStepsFromMinusOne();
    var ev := [Event(-1.0, Start, 0), Event(0.0, Stop, 0), Event(2.0, Start, 1), Event(3.0, Stop, 1)];
    assert EventsOf(iv, 1) == ev[..2];
    assert EventsOf(iv, 2) == ev;
    SortOfSorted(ev, EventKey);
  }

  /** A start that is negative: the total exceeds the reported length. */
  lemma NegativeStart()
    ensures var iv := TwoStepsFromMinusOne();
            var times := Times(SortedEvents(iv));
            && Ordered(iv) && Latest(iv, 2) - Earliest(iv, 2) == 1.0
            && Busy(iv, times, |times|) == 2.0
  {
    var iv, times := TwoStepsFromMinusOne(), [-1.0, 0.0, 2.0, 3.0];
    TwoStepTimes();
    assert 0 in Covering(iv, times[0], times[1]) && 1 in Covering(iv, times[2], times[3]);
    assert Covering(iv, times[1], times[2]) == {};
    assert Busy(iv, times, 1) == 0.0;
    assert Busy(iv, times, 2) == 1.0;
    assert Busy(iv, times, 3) == 1.0;
    assert Earliest(iv, 1) == -1.0 && Latest(iv, 1) == 0.0;
  }

  // ---------- Conservation ----------

  /** What each running step has earned so far. */
  ghost function PendingWeights(n: nat, running: map<nat, real>, weightedTime: real): (w: seq<real>)
    ensures |w| == n
    ensures forall i :: 0 <= i < n ==> w[i] == if i in running then weightedTime - running[i] else 0.0
  {
    seq(n, i => if i in running then weightedTime - running[i] else 0.0)
  }

  lemma {:induction false} SumRealPairs(a: seq<real>, b: seq<real>, c: seq<real>)
    requires |a| == |b| == |c| && forall i :: 0 <= i < |a| ==> a[i] + b[i] == c[i]
    ensures SumReal(a) + SumReal(b) == SumReal(c)
  {
    if a != [] { SumRealPairs(a[1..], b[1..], c[1..]); }
  }

  lemma {:induction false} SumRealIsSharesBefore(iv: seq<Interval>, times: seq<real>, w: seq<real>, n: nat, m: nat)
    requires n <= |times| && m <= |w| && forall i :: 0 <= i < m ==> w[i] == Share(iv, times, i, n)
    ensures SumReal(w[..m]) == SumShares(iv, times, n, m)
  {
    if m > 0 {
      SumRealIsSharesBefore(iv, times, w, n, m - 1);
      SumRealAppend(w[..m - 1], w[m - 1]);
      assert w[..m] == w[..m - 1] + [w[m - 1]];
    }
  }

  /** What a step was charged up to event `j`: its recorded weight, or what is pending. */
  lemma ShareSoFar(plan: Plan, acc: seq<real>, j: nat, i: nat)
    requires plan.Valid() && IsAccumulator(plan, acc) && j <= |plan.ev|
    requires i < |plan.iv| && plan.iv[i].start <= plan.iv[i].end
    ensures plan.startAt[i] < |plan.ev|
    ensures Share(plan.iv, Times(plan.ev), i, j)
         == if i in StoppedBefore(plan, j) then SweepWeight(plan, acc, i)
            else if i in RunningAfter(plan, j) then acc[j] - acc[plan.startAt[i] + 1]
            else 0.0
  {
    ChargesAreGains(plan, acc, i);
    assert plan.StepAt(i);
    SharesTelescope(plan.iv, Times(plan.ev), acc, i, plan.startAt[i], plan.stopAt[i], j);
  }

  /** Conservation at every event of the sweep: the total so far and what is pending for the running
      steps add up to the busy time so far. */
  lemma ConservedThroughout(plan: Plan, acc: seq<real>, j: nat, running: map<nat, real>, weights: seq<real>, total: real)
    requires plan.Valid() && IsAccumulator(plan, acc) && j <= |plan.ev| && Ordered(plan.iv)
    requires SweptTo(plan, acc, j, running, weights, total)
    ensures total + SumReal(PendingWeights(|plan.iv|, running, acc[j])) == Busy(plan.iv, Times(plan.ev), j)
  {
    var times, n := Times(plan.ev), |plan.iv|;
    var shares := seq(n, i requires 0 <= i < n => Share(plan.iv, times, i, j));
    forall i | 0 <= i < n
      ensures StoppedWeights(plan, acc, j)[i] + PendingWeights(n, running, acc[j])[i] == shares[i]
    {
      ShareSoFar(plan, acc, j, i);
      assert i in running <==> i in RunningAfter(plan, j);
    }
    SumRealPairs(StoppedWeights(plan, acc, j), PendingWeights(n, running, acc[j]), shares);
    SumRealIsSharesBefore(plan.iv, times, shares, j, n);
    assert shares[..n] == shares;
    SharesAddUp(plan.iv, times, j);
  }

  /** Every step's weight is its weighted time, which lies between zero and its duration, and the total
      is the busy time. */
  ghost predicate WeightsAreRight(iv: seq<Interval>, weights: seq<real>, total: real) {
    var times := Times(SortedEvents(iv));
    && |weights| == |iv|
    && (forall i :: 0 <= i < |iv| ==>
          weights[i] == WeightedTime(iv, times, i) && 0.0 <= weights[i] <= iv[i].end - iv[i].start)
    && total == Busy(iv, times, |times|)
  }

  lemma SweepIsRight(plan: Plan, acc: seq<real>)
    requires plan.Valid() && IsAccumulator(plan, acc) && Ordered(plan.iv) && plan.ev == SortedEvents(plan.iv)
    ensures WeightsAreRight(plan.iv, SweepWeights(plan, acc), SumReal(SweepWeights(plan, acc)))
  {
    var times, w, n := Times(plan.ev), SweepWeights(plan, acc), |plan.iv|;
    forall i | 0 <= i < n
      ensures w[i] == WeightedTime(plan.iv, times, i) && 0.0 <= w[i] <= plan.iv[i].end - plan.iv[i].start
    {
      SweepRefinesDefinition(plan, acc, i);
      WeightWithinDuration(plan, i);
    }
    SumRealIsSharesBefore(plan.iv, times, w, |plan.ev|, n);
    assert w[..n] == w;
    SharesAddUp(plan.iv, times, |plan.ev|);
  }

  /** The sweep over the sorted events. */
  method SweepEntries(entries: seq<Target>, ev: seq<Event>) returns (ok: bool, total: real)
    requires forall p, q :: 0 <= p < q < |entries| ==> entries[p] != entries[q]
    requires entries != [] && ev == SortedEvents(Intervals(entries))
    modifies entries`weightedDuration
    ensures ok <==> Ordered(Intervals(entries))
    ensures ok ==> WeightsAreRight(Intervals(entries), Weights(entries), total)
  {
    ghost var iv := Intervals(entries);
    ghost var plan := PlanOf(iv);
    PlanOfIsValid(iv);
    ghost var acc := Accumulator(plan);
    ok, total := Sweep(entries, ev, plan, acc);
    if ok { SweepIsRight(plan, acc); }
  }

  /** Computes the weighted duration of every target.  It fails on an empty list, and exactly when
      some target ends before it starts; otherwise every target receives its weighted time, which
      never exceeds its duration, and the total is the busy time of the build. */
  method SummarizeEntries(entries: seq<Target>) returns (r: Summary)
    requires forall p, q :: 0 <= p < q < |entries| ==> entries[p] != entries[q]
    modifies entries`weightedDuration
    ensures r.NoEntries? <==> entries == []
    ensures r.MissingTask? <==> !Ordered(Intervals(entries))
    ensures r.Totals? ==>
              var iv := Intervals(entries);
              && WeightsAreRight(iv, Weights(entries), r.weighted)
              && r.length == Latest(iv, |iv|) - Earliest(iv, |iv|)
              && r.cpu == Elapsed(iv, |iv|)
  {
    var events, length, cpu := CollectEvents(entries);
    var ev := Sort(events, EventKey);
    if entries == [] {
      return NoEntries;
    }
    var ok, total := SweepEntries(entries, ev);
    r := if ok then Totals(length, total, cpu) else MissingTask;
  }
}
