/** Weighted build times: every instant of the build is shared equally by the steps running then.

    The reference definition sums, over the elementary segments between consecutive start and
    stop times, the segment length divided by the number of steps running throughout it.  The
    sweep computes the same from one running accumulator. */
module NinjaSweep {
  import opened Numbers
  import opened Sequences
  import opened StableSorting

  datatype Interval = Interval(start: real, end: real)

  datatype Action = Start | Stop

  datatype Event = Event(time: real, action: Action, target: nat)

  // ---------- Reference definition ----------

  /** The steps running throughout the segment from `a` to `b`. */
  ghost function Covering(iv: seq<Interval>, a: real, b: real): set<nat> {
    set i: nat | i < |iv| && iv[i].start <= a && b <= iv[i].end
  }

  function PerTask(length: real, tasks: nat): real {
    if tasks == 0 then 0.0 else length / tasks as real
  }

  /** The part of segment `j`, between times `j - 1` and `j`, charged to step `i`. */
  ghost function Charge(iv: seq<Interval>, times: seq<real>, j: nat, i: nat): real
    requires 0 < j < |times|
  {
    var running := Covering(iv, times[j - 1], times[j]);
    if i in running then PerTask(times[j] - times[j - 1], |running|) else 0.0
  }

  /** Weighted time of step `i` over the segments before time `n`. */
  ghost function Share(iv: seq<Interval>, times: seq<real>, i: nat, n: nat): real
    requires n <= |times|
  {
    if n <= 1 then 0.0 else Share(iv, times, i, n - 1) + Charge(iv, times, n - 1, i)
  }

  ghost function WeightedTime(iv: seq<Interval>, times: seq<real>, i: nat): real {
    Share(iv, times, i, |times|)
  }

  ghost function SegmentBusy(iv: seq<Interval>, times: seq<real>, j: nat): real
    requires 0 < j < |times|
  {
    if Covering(iv, times[j - 1], times[j]) == {} then 0.0 else times[j] - times[j - 1]
  }

  /** Measure of the union of all steps: the total length of the segments in which some step runs. */
  ghost function Busy(iv: seq<Interval>, times: seq<real>, n: nat): real
    requires n <= |times|
  {
    if n <= 1 then 0.0 else Busy(iv, times, n - 1) + SegmentBusy(iv, times, n - 1)
  }

  // ---------- Conservation ----------

  ghost function SumShares(iv: seq<Interval>, times: seq<real>, n: nat, m: nat): real
    requires n <= |times|
  {
    if m == 0 then 0.0 else SumShares(iv, times, n, m - 1) + Share(iv, times, m - 1, n)
  }

  ghost function SumCharges(iv: seq<Interval>, times: seq<real>, j: nat, m: nat): real
    requires 0 < j < |times|
  {
    if m == 0 then 0.0 else SumCharges(iv, times, j, m - 1) + Charge(iv, times, j, m - 1)
  }

  ghost function Below(s: set<nat>, m: nat): set<nat> {
    set i | i in s && i < m
  }

  /** `x` added up `n` times. */
  ghost function Repeated(n: nat, x: real): real {
    if n == 0 then 0.0 else Repeated(n - 1, x) + x
  }

  lemma {:induction false} RepeatedIsProduct(n: nat, x: real)
    ensures Repeated(n, x) == n as real * x
  {
    if n > 0 { RepeatedIsProduct(n - 1, x); }
  }

  lemma {:induction false} ChargesOfSegment(iv: seq<Interval>, times: seq<real>, j: nat, m: nat)
    requires 0 < j < |times|
    ensures var running := Covering(iv, times[j - 1], times[j]);
            SumCharges(iv, times, j, m) == Repeated(|Below(running, m)|, PerTask(times[j] - times[j - 1], |running|))
  {
    var running := Covering(iv, times[j - 1], times[j]);
    if m == 0 {
      assert Below(running, 0) == {};
    } else {
      ChargesOfSegment(iv, times, j, m - 1);
      if m - 1 in running {
        assert Below(running, m) == Below(running, m - 1) + {m - 1};
      } else {
        assert Below(running, m) == Below(running, m - 1);
      }
    }
  }

  /** The parts into which a segment is divided make up the segment. */
  lemma PartsMakeUp(length: real, n: nat)
    ensures Repeated(n, PerTask(length, n)) == if n == 0 then 0.0 else length
  {
    RepeatedIsProduct(n, PerTask(length, n));
  }

  lemma SegmentIsConserved(iv: seq<Interval>, times: seq<real>, j: nat)
    requires 0 < j < |times|
    ensures SumCharges(iv, times, j, |iv|) == SegmentBusy(iv, times, j)
  {
    var running := Covering(iv, times[j - 1], times[j]);
    ChargesOfSegment(iv, times, j, |iv|);
    assert Below(running, |iv|) == running;
    PartsMakeUp(times[j] - times[j - 1], |running|);
  }

  lemma {:induction false} SumSharesStep(iv: seq<Interval>, times: seq<real>, n: nat, m: nat)
    requires 1 <= n < |times|
    ensures SumShares(iv, times, n + 1, m) == SumShares(iv, times, n, m) + SumCharges(iv, times, n, m)
  {
    if m > 0 { SumSharesStep(iv, times, n, m - 1); }
  }

  lemma {:induction false} SumSharesEmpty(iv: seq<Interval>, times: seq<real>, n: nat, m: nat)
    requires n <= |times| && n <= 1
    ensures SumShares(iv, times, n, m) == 0.0
  {
    if m > 0 { SumSharesEmpty(iv, times, n, m - 1); }
  }

  /** The weighted times of all steps add up to the busy time. */
  lemma {:induction false} SharesAddUp(iv: seq<Interval>, times: seq<real>, n: nat)
    requires n <= |times|
    ensures SumShares(iv, times, n, |iv|) == Busy(iv, times, n)
  {
    if n <= 1 {
      SumSharesEmpty(iv, times, n, |iv|);
    } else {
      SharesAddUp(iv, times, n - 1);
      SumSharesStep(iv, times, n - 1, |iv|);
      SegmentIsConserved(iv, times, n - 1);
    }
  }

  /** Some step runs in every segment of positive length up to time `n`. */
  ghost predicate NoIdleGap(iv: seq<Interval>, times: seq<real>, n: nat)
    requires n <= |times|
  {
    forall j :: 0 < j < n && times[j - 1] < times[j] ==> Covering(iv, times[j - 1], times[j]) != {}
  }

  /** The busy time never exceeds the time from first to last event, and equals it exactly when
      there is no idle gap. */
  lemma {:induction false} BusyWithinSpan(iv: seq<Interval>, times: seq<real>, n: nat)
    requires 1 <= n <= |times| && Ascending(times)
    ensures Busy(iv, times, n) <= times[n - 1] - times[0]
    ensures Busy(iv, times, n) == times[n - 1] - times[0] <==> NoIdleGap(iv, times, n)
  {
    if n > 1 {
      BusyWithinSpan(iv, times, n - 1);
      assert NoIdleGap(iv, times, n) <==>
             NoIdleGap(iv, times, n - 1) &&
             (times[n - 2] < times[n - 1] ==> Covering(iv, times[n - 2], times[n - 1]) != {});
    }
  }

  // ---------- Events ----------

  /** 'start' sorts before 'stop'. */
  function EventKey(e: Event): Key {
    Key(e.time, if e.action == Start then 0 else 1)
  }

  function StartOf(iv: seq<Interval>, i: nat): Event
    requires i < |iv|
  {
    Event(iv[i].start, Start, i)
  }

  function StopOf(iv: seq<Interval>, i: nat): Event
    requires i < |iv|
  {
    Event(iv[i].end, Stop, i)
  }

  function EventsOf(iv: seq<Interval>, n: nat): seq<Event>
    requires n <= |iv|
  {
    if n == 0 then [] else EventsOf(iv, n - 1) + [StartOf(iv, n - 1)] + [StopOf(iv, n - 1)]
  }

  ghost predicate IsEventOf(iv: seq<Interval>, e: Event) {
    e.target < |iv| && e == if e.action == Start then StartOf(iv, e.target) else StopOf(iv, e.target)
  }

  lemma {:induction false} EventsOfAt(iv: seq<Interval>, n: nat, k: nat)
    requires n <= |iv| && k < 2 * n
    ensures |EventsOf(iv, n)| == 2 * n
    ensures EventsOf(iv, n)[k] == if k % 2 == 0 then StartOf(iv, k / 2) else StopOf(iv, k / 2)
  {
    if n > 1 { EventsOfAt(iv, n - 1, if k < 2 * (n - 1) then k else 0); }
  }

  lemma EventsOfContents(iv: seq<Interval>)
    ensures |EventsOf(iv, |iv|)| == 2 * |iv|
    ensures forall e :: e in EventsOf(iv, |iv|) ==> IsEventOf(iv, e)
    ensures forall i :: 0 <= i < |iv| ==> StartOf(iv, i) in EventsOf(iv, |iv|) && StopOf(iv, i) in EventsOf(iv, |iv|)
  {
    var n, es := |iv|, EventsOf(iv, |iv|);
    if n > 0 { EventsOfAt(iv, n, 0); }
    forall e | e in es ensures IsEventOf(iv, e) {
      var k :| 0 <= k < |es| && es[k] == e;
      EventsOfAt(iv, n, k);
    }
    forall i | 0 <= i < n ensures StartOf(iv, i) in es && StopOf(iv, i) in es {
      EventsOfAt(iv, n, 2 * i);
      EventsOfAt(iv, n, 2 * i + 1);
    }
  }

  lemma EventsAreDistinct(iv: seq<Interval>)
    ensures Distinct(EventsOf(iv, |iv|))
  {
    var n, es := |iv|, EventsOf(iv, |iv|);
    if n > 0 { EventsOfAt(iv, n, 0); }
    forall j, k | 0 <= j < k < |es| ensures es[j] != es[k] {
      EventsOfAt(iv, n, j);
      EventsOfAt(iv, n, k);
    }
  }

  function Times(ev: seq<Event>): (times: seq<real>)
    ensures |times| == |ev|
    ensures forall k :: 0 <= k < |ev| ==> times[k] == ev[k].time
  {
    seq(|ev|, k requires 0 <= k < |ev| => ev[k].time)
  }

  ghost predicate Ordered(iv: seq<Interval>) {
    forall i :: 0 <= i < |iv| ==> iv[i].start <= iv[i].end
  }

  /** The events of all steps in the order in which the sweep sees them, with the position of each
      step's start and stop. */
  datatype Plan = Plan(iv: seq<Interval>, ev: seq<Event>, startAt: seq<nat>, stopAt: seq<nat>) {
    ghost predicate Valid() {
      && |startAt| == |stopAt| == |iv|
      && Ascending(Times(ev))
      && (forall k :: 0 <= k < |ev| ==> EventAt(k))
      && (forall i :: 0 <= i < |iv| ==> StepAt(i))
    }

    ghost predicate EventAt(k: nat)
      requires k < |ev| && |startAt| == |stopAt| == |iv|
    {
      && ev[k].target < |iv|
      && k == if ev[k].action == Start then startAt[ev[k].target] else stopAt[ev[k].target]
    }

    ghost predicate StepAt(i: nat)
      requires i < |iv| && |startAt| == |stopAt| == |iv|
    {
      && startAt[i] < |ev| && ev[startAt[i]] == StartOf(iv, i)
      && stopAt[i] < |ev| && ev[stopAt[i]] == StopOf(iv, i)
      && (startAt[i] < stopAt[i] <==> iv[i].start <= iv[i].end)
    }
  }

  ghost function Position(ev: seq<Event>, e: Event): (p: nat)
    requires e in ev
    ensures p < |ev| && ev[p] == e
  {
    var p :| 0 <= p < |ev| && ev[p] == e;
    p
  }

  function SortedEvents(iv: seq<Interval>): seq<Event> {
    Sort(EventsOf(iv, |iv|), EventKey)
  }

  lemma SortedEventsContents(iv: seq<Interval>)
    ensures |SortedEvents(iv)| == 2 * |iv|
    ensures SortedBy(SortedEvents(iv), EventKey) && Distinct(SortedEvents(iv))
    ensures forall k :: 0 <= k < |SortedEvents(iv)| ==> IsEventOf(iv, SortedEvents(iv)[k])
    ensures forall i :: 0 <= i < |iv| ==> StartOf(iv, i) in SortedEvents(iv) && StopOf(iv, i) in SortedEvents(iv)
  {
    var ev := SortedEvents(iv);
    EventsOfContents(iv);
    EventsAreDistinct(iv);
    SortSorted(EventsOf(iv, |iv|), EventKey);
    SortKeepsElements(EventsOf(iv, |iv|), EventKey);
    forall k | 0 <= k < |ev| ensures IsEventOf(iv, ev[k]) {
      assert ev[k] in ev;
    }
  }

  ghost function PlanOf(iv: seq<Interval>): Plan {
    SortedEventsContents(iv);
    var ev := SortedEvents(iv);
    Plan(iv, ev, seq(|iv|, i requires 0 <= i < |iv| => Position(ev, StartOf(iv, i))),
                 seq(|iv|, i requires 0 <= i < |iv| => Position(ev, StopOf(iv, i))))
  }

  lemma SortedEventsAscend(iv: seq<Interval>)
    ensures Ascending(Times(SortedEvents(iv)))
  {
    var ev := SortedEvents(iv);
    SortedEventsContents(iv);
    forall p, q | 0 <= p < q < |ev| ensures ev[p].time <= ev[q].time {
      assert Leq(EventKey(ev[p]), EventKey(ev[q]));
    }
  }

  lemma StartBeforeStop(iv: seq<Interval>, p: nat, q: nat, i: nat)
    requires p < |SortedEvents(iv)| && q < |SortedEvents(iv)| && i < |iv|
    requires SortedEvents(iv)[p] == StartOf(iv, i) && SortedEvents(iv)[q] == StopOf(iv, i)
    ensures p < q <==> iv[i].start <= iv[i].end
  {
    var ev := SortedEvents(iv);
    SortedEventsContents(iv);
    if p < q {
      assert Leq(EventKey(ev[p]), EventKey(ev[q]));
    } else {
      assert Leq(EventKey(ev[q]), EventKey(ev[p]));
    }
  }

  /** Sorting yields a valid plan; a step starts before it stops in it exactly if it does not end
      before its start. */
  lemma PlanOfIsValid(iv: seq<Interval>)
    ensures PlanOf(iv).Valid() && PlanOf(iv).iv == iv && PlanOf(iv).ev == SortedEvents(iv)
    ensures |PlanOf(iv).ev| == 2 * |iv|
  {
    SortedEventsContents(iv);
    SortedEventsAscend(iv);
    var plan := PlanOf(iv);
    forall k | 0 <= k < |plan.ev| ensures plan.EventAt(k) {
      assert IsEventOf(iv, plan.ev[k]);
      assert plan.ev[Position(plan.ev, plan.ev[k])] == plan.ev[k];
    }
    forall i | 0 <= i < |iv| ensures plan.StepAt(i) {
      StartBeforeStop(iv, plan.startAt[i], plan.stopAt[i], i);
    }
  }

  // ---------- The sweep's accumulator ----------

  /** The steps started but not stopped by the first `k` events. */
  ghost function RunningAfter(plan: Plan, k: nat): set<nat>
    requires plan.Valid()
  {
    set i: nat | i < |plan.iv| && plan.startAt[i] < k <= plan.stopAt[i]
  }

  ghost function StoppedBefore(plan: Plan, k: nat): set<nat>
    requires plan.Valid()
  {
    set i: nat | i < |plan.iv| && plan.stopAt[i] < k
  }

  /** What event `j` adds to the accumulator. */
  ghost function Gain(plan: Plan, j: nat): real
    requires plan.Valid() && j < |plan.ev|
  {
    if j == 0 then 0.0 else PerTask(plan.ev[j].time - plan.ev[j - 1].time, |RunningAfter(plan, j)|)
  }

  ghost predicate Advances(plan: Plan, acc: seq<real>, j: nat)
    requires plan.Valid() && j < |plan.ev| && |acc| == |plan.ev| + 1
  {
    acc[j + 1] == acc[j] + Gain(plan, j)
  }

  /** `acc` lists the values of the accumulator after the first 0, 1, ... events. */
  ghost predicate IsAccumulator(plan: Plan, acc: seq<real>)
    requires plan.Valid()
  {
    && |acc| == |plan.ev| + 1
    && acc[0] == 0.0
    && forall j :: 0 <= j < |plan.ev| ==> Advances(plan, acc, j)
  }

  ghost function SumGains(plan: Plan, k: nat): real
    requires plan.Valid() && k <= |plan.ev|
  {
    if k == 0 then 0.0 else SumGains(plan, k - 1) + Gain(plan, k - 1)
  }

  ghost function Accumulator(plan: Plan): (acc: seq<real>)
    requires plan.Valid()
    ensures IsAccumulator(plan, acc)
  {
    var acc := seq(|plan.ev| + 1, k requires 0 <= k <= |plan.ev| => SumGains(plan, k));
    assert forall j :: 0 <= j < |plan.ev| ==> Advances(plan, acc, j);
    acc
  }

  /** What the sweep records for step `i`, if `acc` are the values of its accumulator. */
  ghost function SweepWeight(plan: Plan, acc: seq<real>, i: nat): real
    requires plan.Valid() && |acc| == |plan.ev| + 1 && i < |plan.iv|
  {
    assert plan.StepAt(i);
    acc[plan.stopAt[i] + 1] - acc[plan.startAt[i] + 1]
  }

  /** Between two different times, the steps the sweep holds are those running throughout. */
  lemma RunningIsCovering(plan: Plan, j: nat)
    requires plan.Valid() && 0 < j < |plan.ev| && plan.ev[j - 1].time < plan.ev[j].time
    ensures RunningAfter(plan, j) == Covering(plan.iv, plan.ev[j - 1].time, plan.ev[j].time)
  {
    var times := Times(plan.ev);
    forall i: nat | i < |plan.iv|
      ensures i in RunningAfter(plan, j) <==> i in Covering(plan.iv, times[j - 1], times[j])
    {
      assert plan.StepAt(i);
      var p, q := plan.startAt[i], plan.stopAt[i];
      assert p < j ==> times[p] <= times[j - 1];
      assert p >= j ==> times[j] <= times[p];
      assert q < j ==> times[q] <= times[j - 1];
      assert q >= j ==> times[j] <= times[q];
    }
  }

  /** The charge of a segment to a step is the gain while the step is held, and nothing otherwise. */
  lemma ChargeIsGain(plan: Plan, i: nat, j: nat)
    requires plan.Valid() && i < |plan.iv| && 0 < j < |plan.ev| && plan.iv[i].start <= plan.iv[i].end
    ensures Charge(plan.iv, Times(plan.ev), j, i)
         == if plan.startAt[i] < j <= plan.stopAt[i] then Gain(plan, j) else 0.0
  {
    var times := Times(plan.ev);
    assert times[j - 1] <= times[j];
    if times[j - 1] < times[j] {
      RunningIsCovering(plan, j);
    }
  }

  /** Step `i` is charged what the accumulator gains after event `p` up to event `q`. */
  ghost predicate ChargedBetween(iv: seq<Interval>, times: seq<real>, acc: seq<real>, i: nat, p: nat, q: nat)
    requires |acc| == |times| + 1
  {
    forall j {:trigger Charge(iv, times, j, i)} :: 0 < j < |times| ==>
      Charge(iv, times, j, i) == if p < j <= q then acc[j + 1] - acc[j] else 0.0
  }

  /** Such charges add up to a difference of accumulator values. */
  lemma {:induction false} SharesTelescope(iv: seq<Interval>, times: seq<real>, acc: seq<real>,
                                           i: nat, p: nat, q: nat, n: nat)
    requires |acc| == |times| + 1 && p < q < |times| && n <= |times| && ChargedBetween(iv, times, acc, i, p, q)
    ensures Share(iv, times, i, n) == if n <= p + 1 then 0.0
                                      else if n <= q + 1 then acc[n] - acc[p + 1]
                                      else acc[q + 1] - acc[p + 1]
  {
    if n > 1 { SharesTelescope(iv, times, acc, i, p, q, n - 1); }
  }

  lemma ChargesAreGains(plan: Plan, acc: seq<real>, i: nat)
    requires plan.Valid() && IsAccumulator(plan, acc)
    requires i < |plan.iv| && plan.iv[i].start <= plan.iv[i].end
    ensures ChargedBetween(plan.iv, Times(plan.ev), acc, i, plan.startAt[i], plan.stopAt[i])
  {
    var times := Times(plan.ev);
    forall j | 0 < j < |times|
      ensures Charge(plan.iv, times, j, i)
           == if plan.startAt[i] < j <= plan.stopAt[i] then acc[j + 1] - acc[j] else 0.0
    {
      ChargeIsGain(plan, i, j);
      assert Advances(plan, acc, j);
    }
  }

  /** The sweep refines the reference definition. */
  lemma SweepRefinesDefinition(plan: Plan, acc: seq<real>, i: nat)
    requires plan.Valid() && IsAccumulator(plan, acc)
    requires i < |plan.iv| && plan.iv[i].start <= plan.iv[i].end
    ensures SweepWeight(plan, acc, i) == WeightedTime(plan.iv, Times(plan.ev), i)
  {
    ChargesAreGains(plan, acc, i);
    assert plan.StepAt(i);
    SharesTelescope(plan.iv, Times(plan.ev), acc, i, plan.startAt[i], plan.stopAt[i], |plan.ev|);
  }

  lemma PartOfLength(length: real, n: nat)
    requires length >= 0.0 && n >= 1
    ensures 0.0 <= length / n as real <= length
  {
    var part := length / n as real;
    assert part >= 0.0 && part * n as real == length;
    assert part * (n as real - 1.0) >= 0.0;
  }

  lemma {:induction false} ShareBounds(iv: seq<Interval>, times: seq<real>, i: nat, n: nat)
    requires Ascending(times) && i < |iv| && 1 <= n <= |times|
    ensures 0.0 <= Share(iv, times, i, n)
    ensures times[0] <= iv[i].start <= iv[i].end ==>
              Share(iv, times, i, n) <= (if times[n - 1] <= iv[i].start then 0.0
                                         else if times[n - 1] <= iv[i].end then times[n - 1] - iv[i].start
                                         else iv[i].end - iv[i].start)
  {
    if n > 1 {
      ShareBounds(iv, times, i, n - 1);
      var running := Covering(iv, times[n - 2], times[n - 1]);
      var length := times[n - 1] - times[n - 2];
      if i in running {
        assert running != {};
        PartOfLength(length, |running|);
      }
    }
  }

  /** A weighted duration is never negative and never more than the duration. */
  lemma WeightWithinDuration(plan: Plan, i: nat)
    requires plan.Valid() && i < |plan.iv| && plan.iv[i].start <= plan.iv[i].end
    ensures 0.0 <= WeightedTime(plan.iv, Times(plan.ev), i) <= plan.iv[i].end - plan.iv[i].start
  {
    assert plan.StepAt(i);
    var p := plan.startAt[i];
    assert p > 0 ==> Times(plan.ev)[0] <= Times(plan.ev)[p];
    ShareBounds(plan.iv, Times(plan.ev), i, |plan.ev|);
  }

  /** First and last event of an ordered plan: the least start and the greatest end. */
  lemma SpanOfPlan(plan: Plan)
    requires plan.Valid() && Ordered(plan.iv) && plan.ev != []
    ensures forall i :: 0 <= i < |plan.iv| ==> plan.ev[0].time <= plan.iv[i].start
    ensures forall i :: 0 <= i < |plan.iv| ==> plan.iv[i].end <= plan.ev[|plan.ev| - 1].time
    ensures exists i :: 0 <= i < |plan.iv| && plan.iv[i].start == plan.ev[0].time
    ensures exists i :: 0 <= i < |plan.iv| && plan.iv[i].end == plan.ev[|plan.ev| - 1].time
  {
    var times, last := Times(plan.ev), |plan.ev| - 1;
    forall k | 0 <= k < |times| ensures times[0] <= times[k] <= times[last] {
      assert k > 0 ==> times[0] <= times[k];
      assert k < last ==> times[k] <= times[last];
    }
    forall i | 0 <= i < |plan.iv|
      ensures times[0] <= plan.iv[i].start && plan.iv[i].end <= times[last]
    {
      assert plan.StepAt(i);
    }
    assert plan.EventAt(0) && plan.EventAt(last);
    var i, k := plan.ev[0].target, plan.ev[last].target;
    assert plan.StepAt(i) && plan.StepAt(k);
    assert plan.iv[i].start == times[0];
    assert plan.iv[k].end == times[last];
  }

  // ---------- One event at a time ----------

  /** Every step stopped by the first `k` events had started before it stopped. */
  ghost predicate StopsFollowStarts(plan: Plan, k: nat)
    requires plan.Valid()
  {
    forall i :: i in StoppedBefore(plan, k) ==> plan.startAt[i] < plan.stopAt[i]
  }

  /** How the accumulator moves at event `j`, given the time since the event before it and the
      number of running steps. */
  lemma AccumulatorStep(plan: Plan, acc: seq<real>, j: nat, elapsed: real, numRunning: nat)
    requires plan.Valid() && IsAccumulator(plan, acc) && j < |plan.ev| && numRunning == |RunningAfter(plan, j)|
    requires j > 0 ==> elapsed == plan.ev[j].time - plan.ev[j - 1].time
    ensures acc[j + 1] == acc[j] + PerTask(elapsed, numRunning)
  {
    assert Advances(plan, acc, j);
    if j == 0 {
      assert RunningAfter(plan, 0) == {};
    }
  }

  lemma StartStep(plan: Plan, j: nat)
    requires plan.Valid() && j < |plan.ev| && plan.ev[j].action == Start && StopsFollowStarts(plan, j)
    ensures var i := plan.ev[j].target;
            && i < |plan.iv| && i !in RunningAfter(plan, j) && plan.startAt[i] == j
            && RunningAfter(plan, j + 1) == RunningAfter(plan, j) + {i}
            && StoppedBefore(plan, j + 1) == StoppedBefore(plan, j)
  {
    assert plan.EventAt(j);
    var i := plan.ev[j].target;
    assert plan.StepAt(i);
    var stopped := StoppedBefore(plan, j);
    assert i in stopped <==> plan.stopAt[i] < j;
    forall k: nat | k < |plan.iv| && k != i ensures plan.startAt[k] != j && plan.stopAt[k] != j {
      assert plan.StepAt(k);
    }
  }

  lemma StopStep(plan: Plan, j: nat)
    requires plan.Valid() && j < |plan.ev| && plan.ev[j].action == Stop
    ensures var i := plan.ev[j].target;
            && i < |plan.iv| && i !in StoppedBefore(plan, j) && plan.stopAt[i] == j
            && (i in RunningAfter(plan, j) <==> plan.startAt[i] < j)
            && (i in RunningAfter(plan, j) <==> plan.iv[i].start <= plan.iv[i].end)
            && RunningAfter(plan, j + 1) == RunningAfter(plan, j) - {i}
            && StoppedBefore(plan, j + 1) == StoppedBefore(plan, j) + {i}
  {
    assert plan.EventAt(j);
    assert plan.StepAt(plan.ev[j].target);
    forall k: nat | k < |plan.iv| && k != plan.ev[j].target ensures plan.startAt[k] != j && plan.stopAt[k] != j {
      assert plan.StepAt(k);
    }
  }

  lemma AllStopped(plan: Plan)
    requires plan.Valid() && StopsFollowStarts(plan, |plan.ev|)
    ensures Ordered(plan.iv)
    ensures RunningAfter(plan, |plan.ev|) == {}
    ensures forall i: nat :: i < |plan.iv| ==> i in StoppedBefore(plan, |plan.ev|)
  {
    forall i: nat | i < |plan.iv|
      ensures i in StoppedBefore(plan, |plan.ev|) && plan.iv[i].start <= plan.iv[i].end
    {
      assert plan.StepAt(i);
    }
    forall i: nat | i < |plan.iv| ensures i !in RunningAfter(plan, |plan.ev|) {
      assert plan.StepAt(i);
    }
  }
}
