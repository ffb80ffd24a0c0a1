/** Without tokens in flight a later clock adds the same amount to every estimate. */
module ClockShift {
  import opened ExtendedReals
  import opened RequestQueues
  import opened Servers
  import opened Rebalance

  /** No server has tokens in flight. */
  ghost predicate NoTokensInFlight(sv: seq<Server>) {
    forall i :: 0 <= i < |sv| ==> sv[i].inFlightTokens <= 0
  }

  function Shift(l: Latency, d: real): Latency {
    if l.NegInf? then NegInf else Fin(l.value + d)
  }

  lemma {:induction false} ServerLatencyShifts(p: Predictor, v: Server, q: Queue, n: nat, a: real, b: real)
    requires n <= |q| && v.inFlightTokens <= 0
    ensures ServerLatency(Clocked(p, b), v, q, n) == Shift(ServerLatency(Clocked(p, a), v, q, n), b - a)
  {
    if n > 0 {
      ServerLatencyShifts(p, v, q, n - 1, a, b);
      assert LatencyAt(Clocked(p, b), v, q, n - 1) == LatencyAt(Clocked(p, a), v, q, n - 1) + (b - a);
    }
  }

  lemma LatencyShifts(p: Predictor, v: Server, q: Queue, a: real, b: real)
    requires v.inFlightTokens <= 0
    ensures QueueLatency(Clocked(p, b), v, q) == Shift(QueueLatency(Clocked(p, a), v, q), b - a)
  {
    ServerLatencyShifts(p, v, q, |q|, a, b);
  }

  ghost function Shifted(vs: set<Latency>, d: real): set<Latency> {
    set w | w in vs :: Shift(w, d)
  }

  lemma {:induction false} ShiftedCount(vs: set<Latency>, d: real)
    ensures |Shifted(vs, d)| <= |vs|
    decreases |vs|
  {
    if vs != {} {
      var v :| v in vs;
      ShiftedCount(vs - {v}, d);
      assert Shifted(vs, d) == Shifted(vs - {v}, d) + {Shift(v, d)};
    }
  }

  lemma ShiftedBack(vs: set<Latency>, d: real)
    ensures Shifted(Shifted(vs, d), -d) == vs
  {
    forall w ensures w in vs <==> w in Shifted(Shifted(vs, d), -d) {
      assert Shift(Shift(w, d), -d) == w;
      if w in vs { assert Shift(w, d) in Shifted(vs, d); }
    }
  }

  lemma RankAtMost(vs: set<Latency>, v: Latency, d: real)
    ensures Rank(Shifted(vs, d), Shift(v, d)) <= Rank(vs, v)
  {
    var below := set w | w in Shifted(vs, d) && Less(w, Shift(v, d));
    var belowV := set w | w in vs && Less(w, v);
    forall w | w in below ensures w in Shifted(belowV, d) {
      var x :| x in vs && w == Shift(x, d);
      assert x in belowV;
    }
    Cardinality(below, Shifted(belowV, d));
    ShiftedCount(belowV, d);
  }

  lemma RanksAgree(vs: set<Latency>, v: Latency, d: real)
    ensures Rank(Shifted(vs, d), Shift(v, d)) == Rank(vs, v)
  {
    RankAtMost(vs, v, d);
    RankAtMost(Shifted(vs, d), Shift(v, d), -d);
    ShiftedBack(vs, d);
    assert Shift(Shift(v, d), -d) == v;
  }

  lemma {:induction false} WeightsAgree(us: set<Latency>, vs: set<Latency>, lat: seq<Latency>, lat': seq<Latency>)
    requires |lat| == |lat'| && forall i :: 0 <= i < |lat| ==> Rank(us, lat[i]) == Rank(vs, lat'[i])
    ensures Weight(us, lat) == Weight(vs, lat')
  {
    if lat != [] { WeightsAgree(us, vs, lat[1..], lat'[1..]); }
  }

  lemma PossibleShifts(p: Predictor, sv: seq<Server>, m: multiset<Request>, a: real, b: real)
    requires NoTokensInFlight(sv)
    ensures PossibleLatencies(Clocked(p, b), sv, m) == Shifted(PossibleLatencies(Clocked(p, a), sv, m), b - a)
  {
    var queues := SequencesOver(Elements(m), |m|);
    var vs, us := LatenciesOver(Clocked(p, a), sv, queues), LatenciesOver(Clocked(p, b), sv, queues);
    forall w | w in us ensures w in Shifted(vs, b - a) {
      var i, q :| 0 <= i < |sv| && q in queues && w == QueueLatency(Clocked(p, b), sv[i], q);
      LatencyShifts(p, sv[i], q, a, b);
      assert QueueLatency(Clocked(p, a), sv[i], q) in vs;
    }
    forall w | w in Shifted(vs, b - a) ensures w in us {
      var x :| x in vs && w == Shift(x, b - a);
      var i, q :| 0 <= i < |sv| && q in queues && x == QueueLatency(Clocked(p, a), sv[i], q);
      LatencyShifts(p, sv[i], q, a, b);
    }
  }

  lemma RankShifts(p: Predictor, v: Server, q: Queue, vs: set<Latency>, a: real, b: real)
    requires v.inFlightTokens <= 0
    ensures Rank(Shifted(vs, b - a), QueueLatency(Clocked(p, b), v, q)) == Rank(vs, QueueLatency(Clocked(p, a), v, q))
  {
    LatencyShifts(p, v, q, a, b);
    RanksAgree(vs, QueueLatency(Clocked(p, a), v, q), b - a);
  }

  lemma WeightShifts(p: Predictor, sv: seq<Server>, qs: seq<Queue>, vs: set<Latency>, a: real, b: real)
    requires |sv| == |qs| && NoTokensInFlight(sv)
    ensures Weight(Shifted(vs, b - a), Latencies(Clocked(p, b), sv, qs)) == Weight(vs, Latencies(Clocked(p, a), sv, qs))
  {
    var us, lat, lat' := Shifted(vs, b - a), Latencies(Clocked(p, a), sv, qs), Latencies(Clocked(p, b), sv, qs);
    forall i | 0 <= i < |sv| ensures Rank(us, lat'[i]) == Rank(vs, lat[i]) {
      RankShifts(p, sv[i], qs[i], vs, a, b);
    }
    WeightsAgree(us, vs, lat', lat);
  }

  /** So the measure of rebalancing does not depend on the clock. */
  lemma MeasureIgnoresClock(p: Predictor, sv: seq<Server>, qs: seq<Queue>, a: real, b: real)
    requires |sv| == |qs| && NoTokensInFlight(sv)
    ensures Measure(Clocked(p, a), sv, qs) == Measure(Clocked(p, b), sv, qs)
  {
    PossibleShifts(p, sv, Queued(qs), a, b);
    WeightShifts(p, sv, qs, PossibleLatencies(Clocked(p, a), sv, Queued(qs)), a, b);
  }
}
