/** Progress of the dispatcher when admission rebalances first: every schedule after the last arrival
    ends, unless requests are moved while a running one never completes. */
module Draining {
  import opened ExtendedReals
  import opened Numbers
  import opened RequestQueues
  import opened Servers
  import opened Rebalance
  import opened DispatchRuns
  import opened DispatchBounds
  import opened ClockShift

  // ---------- A bound on the measure ----------

  lemma OneMore(n: nat, x: nat)
    ensures Product(n + 1, x) == Product(n, x) + x
  {
  }

  ghost function LatenciesOf(c: Clocked, v: Server, queues: set<Queue>): set<Latency> {
    set q | q in queues :: QueueLatency(c, v, q)
  }

  lemma {:induction false} LatenciesOfCount(c: Clocked, v: Server, queues: set<Queue>)
    ensures |LatenciesOf(c, v, queues)| <= |queues|
    decreases |queues|
  {
    if queues != {} {
      var q :| q in queues;
      var rest := queues - {q};
      LatenciesOfCount(c, v, rest);
      assert LatenciesOf(c, v, queues) == LatenciesOf(c, v, rest) + {QueueLatency(c, v, q)};
    }
  }

  lemma LatenciesOverLast(c: Clocked, sv: seq<Server>, queues: set<Queue>)
    requires sv != []
    ensures LatenciesOver(c, sv, queues)
         <= LatenciesOver(c, sv[..|sv| - 1], queues) + LatenciesOf(c, sv[|sv| - 1], queues)
  {
    var n := |sv| - 1;
    forall l | l in LatenciesOver(c, sv, queues)
      ensures l in LatenciesOver(c, sv[..n], queues) || l in LatenciesOf(c, sv[n], queues)
    {
      var i, q :| 0 <= i < |sv| && q in queues && l == QueueLatency(c, sv[i], q);
      if i < n { assert sv[..n][i] == sv[i]; }
    }
  }

  lemma UnionCount<T>(a: set<T>, b: set<T>, both: set<T>)
    requires both <= a + b
    ensures |both| <= |a| + |b|
  {
    Cardinality(both, a + b);
    assert |a + b| == |a| + |b| - |a * b|;
  }

  lemma {:induction false} LatenciesOverCount(c: Clocked, sv: seq<Server>, queues: set<Queue>)
    ensures |LatenciesOver(c, sv, queues)| <= Product(|sv|, |queues|)
  {
    if sv == [] {
      assert LatenciesOver(c, sv, queues) == {};
    } else {
      var n := |sv| - 1;
      LatenciesOverCount(c, sv[..n], queues);
      LatenciesOfCount(c, sv[n], queues);
      LatenciesOverLast(c, sv, queues);
      UnionCount(LatenciesOver(c, sv[..n], queues), LatenciesOf(c, sv[n], queues), LatenciesOver(c, sv, queues));
      OneMore(n, |queues|);
    }
  }

  lemma {:induction false} WeightBound(vs: set<Latency>, lat: seq<Latency>)
    ensures Weight(vs, lat) <= Product(|lat|, Pow2(|vs|))
  {
    if lat != [] {
      WeightBound(vs, lat[1..]);
      var below := set w | w in vs && Less(w, lat[0]);
      Cardinality(below, vs);
      Pow2Monotone(Rank(vs, lat[0]), |vs|);
      OneMore(|lat[1..]|, Pow2(|vs|));
    }
  }

  lemma {:induction false} SequencesOverElements(rs: set<Request>, n: nat, q: Queue)
    requires q in SequencesOver(rs, n)
    ensures |q| <= n && forall r :: r in q ==> r in rs
    decreases n
  {
    if n > 0 && q !in SequencesOver(rs, n - 1) {
      var r, q' :| r in rs && q' in SequencesOver(rs, n - 1) && q == [r] + q';
      SequencesOverElements(rs, n - 1, q');
    } else if n > 0 {
      SequencesOverElements(rs, n - 1, q);
    }
  }

  /** How many queues some of the requests `m` can form. */
  ghost function QueueCount(m: multiset<Request>): nat {
    |SequencesOver(Elements(m), |m|)|
  }

  lemma QueueCountMonotone(m: multiset<Request>, whole: multiset<Request>)
    requires m <= whole
    ensures QueueCount(m) <= QueueCount(whole)
  {
    assert whole == m + (whole - m);
    assert forall r :: r in m ==> r in whole;
    forall q | q in SequencesOver(Elements(m), |m|) ensures q in SequencesOver(Elements(whole), |whole|) {
      SequencesOverElements(Elements(m), |m|, q);
      SequencesOverContains(Elements(whole), |whole|, q);
    }
    Cardinality(SequencesOver(Elements(m), |m|), SequencesOver(Elements(whole), |whole|));
  }

  function Product(a: nat, b: nat): nat { a * b }

  lemma ProductMonotone(n: nat, a: nat, b: nat)
    requires a <= b
    ensures Product(n, a) <= Product(n, b)
  {
  }

  /** No distribution of requests among `whole` over that many servers has a greater measure. */
  ghost function MeasureBound(servers: nat, whole: multiset<Request>): nat {
    Product(servers, Pow2(Product(servers, QueueCount(whole))))
  }

  lemma MeasureIsBounded(c: Clocked, sv: seq<Server>, qs: seq<Queue>, whole: multiset<Request>)
    requires |sv| == |qs| && Queued(qs) <= whole
    ensures Measure(c, sv, qs) <= MeasureBound(|sv|, whole)
  {
    var m := Queued(qs);
    var vs := PossibleLatencies(c, sv, m);
    LatenciesOverCount(c, sv, SequencesOver(Elements(m), |m|));
    QueueCountMonotone(m, whole);
    ProductMonotone(|sv|, QueueCount(m), QueueCount(whole));
    WeightBound(vs, Latencies(c, sv, qs));
    Pow2Monotone(|vs|, Product(|sv|, QueueCount(whole)));
    ProductMonotone(|sv|, Pow2(|vs|), Pow2(Product(|sv|, QueueCount(whole))));
  }

  // ---------- One step ----------

  ghost predicate TokensInFlight(s: State) {
    !NoTokensInFlight(s.servers)
  }

  ghost function MeasureOf(cfg: Config, s: State, now: real): nat
    requires |s.servers| == |s.queues|
  {
    Measure(Clocked(cfg.predict, now), s.servers, s.queues)
  }

  lemma PartCount<T>(part: multiset<T>, rest: multiset<T>, whole: multiset<T>)
    requires part + rest == whole
    ensures part <= whole && |part| + |rest| == |whole|
  {
    assert |part + rest| == |part| + |rest|;
  }

  /** Popping a request that was admitted brings the end nearer by one step at least. */
  lemma AdmittedDescends(cfg: Config, s: State, i: nat, now: real, stamp: real)
    requires WellFormed(s) && i < |s.servers| && QueuesAtAdmission(cfg, s, now)[i] != []
    ensures var s' := AfterAdmit(cfg, s, i, now, stamp);
            Queued(s'.queues) <= Queued(s.queues) && Remaining(s') < Remaining(s)
  {
    var qs := QueuesAtAdmission(cfg, s, now);
    var s' := AfterAdmit(cfg, s, i, now, stamp);
    RebalancedQueued(cfg, s, now);
    PopQueued(qs, i);
    StartInFlight(s.running, i, Running(qs[i][0], stamp));
    PartCount(Queued(s'.queues), multiset{qs[i][0]}, Queued(qs));
    PartCount(Queued(qs), Queued(s.queues) - Queued(qs), Queued(s.queues));
    PartCount(InFlight(s.running), multiset{qs[i][0]}, InFlight(s'.running));
  }

  /** An admission that only rebalances loses a request or lowers the measure, at its own reading of
      the clock. */
  lemma RebalancingDescends(cfg: Config, s: State, i: nat, now: real, stamp: real)
    requires WellFormed(s) && CanAdmit(s, i) && QueuesAtAdmission(cfg, s, now)[i] == []
    ensures var s' := AfterAdmit(cfg, s, i, now, stamp);
            && Queued(s'.queues) <= Queued(s.queues)
            && s'.servers == s.servers && |s'.servers| == |s'.queues|
            && (Remaining(s') < Remaining(s)
                || (Remaining(s') == Remaining(s) && MeasureOf(cfg, s', now) < MeasureOf(cfg, s, now)))
  {
    RebalancedQueued(cfg, s, now);
    RebalanceDescends(Clocked(cfg.predict, now), s.servers, s.queues);
  }

  /** The same at a given reading, which need not be that of the step if no tokens are in flight. */
  lemma AdmitDescends(cfg: Config, s: State, i: nat, at: real, stamp: real, now: real)
    requires WellFormed(s) && CanAdmit(s, i) && (TokensInFlight(s) ==> at == now)
    ensures var s' := AfterAdmit(cfg, s, i, at, stamp);
            && |s'.servers| == |s'.queues| == |s.servers| && Queued(s'.queues) <= Queued(s.queues)
            && (Remaining(s') < Remaining(s)
                || (Remaining(s') == Remaining(s) && s'.servers == s.servers
                    && MeasureOf(cfg, s', now) < MeasureOf(cfg, s, now)))
  {
    if QueuesAtAdmission(cfg, s, at)[i] != [] {
      AdmittedDescends(cfg, s, i, at, stamp);
    } else {
      RebalancingDescends(cfg, s, i, at, stamp);
      if !TokensInFlight(s) {
        var s' := AfterAdmit(cfg, s, i, at, stamp);
        MeasureIgnoresClock(cfg.predict, s.servers, s.queues, at, now);
        MeasureIgnoresClock(cfg.predict, s'.servers, s'.queues, at, now);
      }
    }
  }

  lemma CompleteDescends(s: State, i: nat, k: nat, longest: nat)
    requires Accounted(s, longest) && CanComplete(s, i, k)
    ensures RemoveSucceeds(s, i, k) && Remaining(AfterComplete(s, i, k)) < Remaining(s)
  {
    CompleteAccounted(s, i, k, longest);
    var s' := AfterComplete(s, i, k);
    FinishInFlight(s.running, i, k);
    PartCount(InFlight(s'.running), multiset{s.running[i][k].req}, InFlight(s.running));
  }

  /** Every step that is not an arrival brings the end nearer; the clock matters only while tokens are
      in flight. */
  lemma StepDescends(cfg: Config, s: State, step: Step, s': State, longest: nat, now: real)
    requires Accounted(s, longest) && Follows(cfg, s, step, s') && !step.Arrive?
    requires step.Admit? && TokensInFlight(s) ==> step.now == now
    ensures |s'.servers| == |s'.queues| == |s.servers| && Queued(s'.queues) <= Queued(s.queues)
    ensures Remaining(s') < Remaining(s)
         || (Remaining(s') == Remaining(s) && step.Admit? && s'.servers == s.servers
             && MeasureOf(cfg, s', now) < MeasureOf(cfg, s, now))
  {
    match step
    case Admit(i, at, stamp) => AdmitDescends(cfg, s, i, at, stamp, now);
    case Complete(i, k) => CompleteDescends(s, i, k, longest);
  }

  // ---------- Whole schedules ----------

  /** While tokens are in flight, every rebalancing of the run reads the same clock. */
  ghost predicate ClockStands(run: Run, now: real) {
    run.Then? ==>
      && ClockStands(run.before, now)
      && (run.step.Admit? && TokensInFlight(Last(run.before)) ==> run.step.now == now)
  }

  /** A measure that each remaining step can raise by `bound`, and that falls by one all the same. */
  function Potential(remaining: nat, measure: nat, bound: nat): nat {
    if remaining == 0 then measure else Potential(remaining - 1, measure, bound) + bound + 1
  }

  lemma {:induction false} PotentialFalls(r: nat, m: nat, r': nat, m': nat, bound: nat)
    requires m' <= bound && (r' < r || (r' == r && m' < m))
    ensures Potential(r', m', bound) < Potential(r, m, bound)
    decreases r
  {
    if r' < r - 1 {
      PotentialFalls(r - 1, m, r', m', bound);
    } else if r' == r - 1 {
      PotentialWithin(r', m', m, bound);
    } else if r > 0 {
      PotentialFalls(r - 1, m, r' - 1, m', bound);
    }
  }

  lemma {:induction false} PotentialWithin(r: nat, m: nat, m': nat, bound: nat)
    requires m <= bound
    ensures Potential(r, m, bound) <= Potential(r, m', bound) + bound
  {
    if r > 0 { PotentialWithin(r - 1, m, m', bound); }
  }

  /** The number of steps a schedule can take from `s` at most. */
  ghost function Budget(s: State): nat {
    Potential(Remaining(s) + 1, 0, MeasureBound(|s.servers|, Queued(s.queues)))
  }

  lemma {:induction false} RunDescends(cfg: Config, run: Run, longest: nat, now: real)
    requires IsRun(cfg, run) && Accounted(First(run), longest) && NoArrival(run) && ClockStands(run, now)
    ensures Fits(run, longest) && Arrivals(run) == multiset{}
    ensures var first, last := First(run), Last(run);
            var bound := MeasureBound(|first.servers|, Queued(first.queues));
            && |last.servers| == |last.queues| == |first.servers| && Queued(last.queues) <= Queued(first.queues)
            && Potential(Remaining(last), MeasureOf(cfg, last, now), bound) + Length(run)
               <= Potential(Remaining(first), MeasureOf(cfg, first, now), bound)
    decreases run
  {
    if run.Then? {
      var first, s, s' := First(run), Last(run.before), run.state;
      var whole := Queued(first.queues);
      RunDescends(cfg, run.before, longest, now);
      RunAccounted(cfg, run.before, longest);
      StepDescends(cfg, s, run.step, s', longest, now);
      MeasureIsBounded(Clocked(cfg.predict, now), s'.servers, s'.queues, whole);
      PotentialFalls(Remaining(s), MeasureOf(cfg, s, now), Remaining(s'), MeasureOf(cfg, s', now),
                     MeasureBound(|first.servers|, whole));
    }
  }

  /** Some handler can act at the given time. */
  ghost predicate CanAct(s: State, now: real)
    requires WellFormed(s)
  {
    exists step: Step :: !step.Arrive? && (step.Admit? ==> step.now == now) && Enabled(s, step)
  }

  lemma CanActExactly(s: State, longest: nat, now: real)
    requires Accounted(s, longest)
    ensures CanAct(s, now) <==> Remaining(s) > 0
  {
    if Remaining(s) > 0 {
      NoDeadlock(s, longest);
      var step: Step :| !step.Arrive? && Enabled(s, step);
      if step.Admit? { assert Enabled(s, Admit(step.server, now, step.stamp)); }
    }
    if step: Step :| !step.Arrive? && Enabled(s, step) {
      if step.Admit? {
        QueuedUpdate(s.queues, step.server, []);
        assert s.queues[step.server][0] in multiset(s.queues[step.server]);
        assert s.queues[step.server][0] in Queued(s.queues);
      } else {
        FinishInFlight(s.running, step.server, step.handler);
      }
    }
  }

  lemma LengthWithinBudget(cfg: Config, run: Run, longest: nat, now: real)
    requires IsRun(cfg, run) && Accounted(First(run), longest) && NoArrival(run) && ClockStands(run, now)
    ensures Length(run) <= Budget(First(run))
  {
    var first := First(run);
    RunDescends(cfg, run, longest, now);
    MeasureIsBounded(Clocked(cfg.predict, now), first.servers, first.queues, Queued(first.queues));
    PotentialWithin(Remaining(first), MeasureOf(cfg, first, now), 0,
                    MeasureBound(|first.servers|, Queued(first.queues)));
  }

  /** In every dispatching mode, once arrivals stop, if the clock stands while tokens are in flight: no
      schedule takes more steps than the budget of its first state, and it can go on unless every
      request that was present is resolved or was overwritten. */
  lemma EveryScheduleEnds(cfg: Config, run: Run, longest: nat, now: real)
    requires IsRun(cfg, run) && Accounted(First(run), longest) && NoArrival(run) && ClockStands(run, now)
    ensures Length(run) <= Budget(First(run))
    ensures WellFormed(Last(run))
    ensures !CanAct(Last(run), now) <==> multiset(Last(run).done) + Lost(cfg, run) == Present(First(run))
  {
    var last, start := Last(run), Present(First(run));
    LengthWithinBudget(cfg, run, longest, now);
    RunDescends(cfg, run, longest, now);
    RunAccounted(cfg, run, longest);
    RunConserves(cfg, run, longest);
    CanActExactly(last, longest, now);
    DoneIsEverything(last);
    NothingLost(start, Arrivals(run), start + Arrivals(run));
    SameLost(Present(last), multiset(last.done), Lost(cfg, run), start);
  }

  lemma SameLost<T>(a: multiset<T>, b: multiset<T>, lost: multiset<T>, whole: multiset<T>)
    requires a + lost == whole
    ensures b == a <==> b + lost == whole
  {
    if b + lost == whole {
      assert b == whole - lost == a;
    }
  }

  // ---------- Any clock ----------

  /** Requests were moved while tokens are in flight, and nothing was admitted, completed or lost. */
  ghost predicate MovesInFlight(s: State, step: Step, s': State) {
    step.Admit? && TokensInFlight(s) && Remaining(s') == Remaining(s)
  }

  /** The number of all other steps of a run. */
  ghost function OtherSteps(run: Run): nat {
    if run.Begin? then 0
    else OtherSteps(run.before) + if MovesInFlight(Last(run.before), run.step, run.state) then 0 else 1
  }

  /** What counts for the measure under any clock: while tokens are in flight, only the bound. */
  ghost function SafeMeasure(cfg: Config, s: State, bound: nat): nat
    requires |s.servers| == |s.queues|
  {
    if TokensInFlight(s) then bound else MeasureOf(cfg, s, 0.0)
  }

  lemma AnyStepDescends(cfg: Config, s: State, step: Step, s': State, longest: nat, bound: nat)
    requires Accounted(s, longest) && Follows(cfg, s, step, s') && !step.Arrive?
    requires |s'.servers| == |s'.queues| && SafeMeasure(cfg, s', bound) <= bound
    ensures var potential := Potential(Remaining(s), SafeMeasure(cfg, s, bound), bound);
            var potential' := Potential(Remaining(s'), SafeMeasure(cfg, s', bound), bound);
            if MovesInFlight(s, step, s') then potential' == potential else potential' < potential
  {
    var at := if step.Admit? && TokensInFlight(s) then step.now else 0.0;
    StepDescends(cfg, s, step, s', longest, at);
    if !MovesInFlight(s, step, s') {
      PotentialFalls(Remaining(s), SafeMeasure(cfg, s, bound), Remaining(s'), SafeMeasure(cfg, s', bound), bound);
    }
  }

  lemma {:induction false} AnyRunDescends(cfg: Config, run: Run, longest: nat)
    requires IsRun(cfg, run) && Accounted(First(run), longest) && NoArrival(run)
    ensures Fits(run, longest)
    ensures var first, last := First(run), Last(run);
            var bound := MeasureBound(|first.servers|, Queued(first.queues));
            && |last.servers| == |last.queues| == |first.servers| && Queued(last.queues) <= Queued(first.queues)
            && Potential(Remaining(last), SafeMeasure(cfg, last, bound), bound) + OtherSteps(run)
               <= Potential(Remaining(first), SafeMeasure(cfg, first, bound), bound)
    decreases run
  {
    if run.Then? {
      var first, s, s' := First(run), Last(run.before), run.state;
      var at := if run.step.Admit? then run.step.now else 0.0;
      AnyRunDescends(cfg, run.before, longest);
      RunAccounted(cfg, run.before, longest);
      StepDescends(cfg, s, run.step, s', longest, at);
      MeasureIsBounded(Clocked(cfg.predict, 0.0), s'.servers, s'.queues, Queued(first.queues));
      AnyStepDescends(cfg, s, run.step, s', longest, MeasureBound(|first.servers|, Queued(first.queues)));
    }
  }

  /** Whenever tokens are in flight some running request can complete. */
  lemma CompletionIsEnabled(s: State, longest: nat)
    requires Accounted(s, longest) && TokensInFlight(s)
    ensures exists i, k :: CanComplete(s, i, k)
  {
    var i :| 0 <= i < |s.servers| && s.servers[i].inFlightTokens > 0;
    assert ServerAccounts(s.servers[i], s.running[i]);
    assert s.servers[i].inFlightLens != [];
    assert CanComplete(s, i, 0);
  }

  /** Under any clock, in every mode, once arrivals stop: all steps but moves made while tokens are in
      flight are at most as many as the budget of the first state.  So a schedule that goes on for
      ever is, from some step on, nothing but moves while a request that could complete does not. */
  lemma OnlyMovesGoOn(cfg: Config, run: Run, longest: nat)
    requires IsRun(cfg, run) && Accounted(First(run), longest) && NoArrival(run)
    ensures OtherSteps(run) <= Budget(First(run))
  {
    var first := First(run);
    var bound := MeasureBound(|first.servers|, Queued(first.queues));
    AnyRunDescends(cfg, run, longest);
    MeasureIsBounded(Clocked(cfg.predict, 0.0), first.servers, first.queues, Queued(first.queues));
    PotentialWithin(Remaining(first), SafeMeasure(cfg, first, bound), 0, bound);
  }
}
