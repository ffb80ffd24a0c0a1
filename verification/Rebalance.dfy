/** Global rebalancing of the request queues.

    One pass compares the most and the least loaded server and moves the first request of
    the former to the latter when that lowers the greater of the two estimates below the
    old maximum.  The clock is read once for the whole call. */
module Rebalance {
  import opened Numbers
  import opened ExtendedReals
  import opened RequestQueues
  import opened Servers

  predicate Matched(sv: seq<Server>, qs: seq<Queue>) {
    |sv| == |qs| > 0
  }

  function Latencies(c: Clocked, sv: seq<Server>, qs: seq<Queue>): (lat: seq<Latency>)
    requires |sv| == |qs|
    ensures |lat| == |sv|
    ensures forall i :: 0 <= i < |sv| ==> lat[i] == QueueLatency(c, sv[i], qs[i])
  {
    seq(|sv|, i requires 0 <= i < |sv| => QueueLatency(c, sv[i], qs[i]))
  }

  function High(c: Clocked, sv: seq<Server>, qs: seq<Queue>): nat
    requires Matched(sv, qs)
  {
    ArgMax(Latencies(c, sv, qs))
  }

  function Low(c: Clocked, sv: seq<Server>, qs: seq<Queue>): nat
    requires Matched(sv, qs)
  {
    ArgMin(Latencies(c, sv, qs))
  }

  /** The greatest estimate over all servers. */
  function Peak(c: Clocked, sv: seq<Server>, qs: seq<Queue>): Latency
    requires Matched(sv, qs)
  {
    Latencies(c, sv, qs)[High(c, sv, qs)]
  }

  /** Whether the pass finds a move that lowers the old maximum. */
  predicate Improves(c: Clocked, sv: seq<Server>, qs: seq<Queue>)
    requires Matched(sv, qs)
  {
    var h, l := High(c, sv, qs), Low(c, sv, qs);
    h != l && qs[h] != [] &&
    Less(MaxLatency(QueueLatency(c, sv[h], qs[h][1..]), QueueLatency(c, sv[l], Insert(qs[l], qs[h][0]))),
         Peak(c, sv, qs))
  }

  /** The queues after the move. */
  function Moved(c: Clocked, sv: seq<Server>, qs: seq<Queue>): (qs': seq<Queue>)
    requires Matched(sv, qs) && Improves(c, sv, qs)
    ensures Matched(sv, qs')
  {
    var h, l := High(c, sv, qs), Low(c, sv, qs);
    qs[h := qs[h][1..]][l := Insert(qs[l], qs[h][0])]
  }

  /** Whether another pass follows the move. */
  predicate Continues(c: Clocked, sv: seq<Server>, qs: seq<Queue>)
    requires Matched(sv, qs) && Improves(c, sv, qs)
  {
    var h, l, qs' := High(c, sv, qs), Low(c, sv, qs), Moved(c, sv, qs);
    Less(QueueLatency(c, sv[l], qs'[l]), QueueLatency(c, sv[h], qs'[h]))
  }

  /** The queues after one pass, moved or not. */
  function Passed(c: Clocked, sv: seq<Server>, qs: seq<Queue>): (qs': seq<Queue>)
    requires Matched(sv, qs)
    ensures Matched(sv, qs')
  {
    if Improves(c, sv, qs) then Moved(c, sv, qs) else qs
  }

  predicate PassesAgain(c: Clocked, sv: seq<Server>, qs: seq<Queue>)
    requires Matched(sv, qs)
  {
    Improves(c, sv, qs) && Continues(c, sv, qs)
  }

  /** The request a move overwrites in the receiving queue, if any. */
  ghost function MoveLoses(c: Clocked, sv: seq<Server>, qs: seq<Queue>): multiset<Request>
    requires Matched(sv, qs) && Improves(c, sv, qs)
  {
    Displaced(qs[Low(c, sv, qs)], qs[High(c, sv, qs)][0])
  }

  // ---------- Facts about one pass ----------

  lemma LessTransitive(a: Latency, b: Latency, d: Latency)
    ensures !Less(b, a) && Less(b, d) ==> Less(a, d)
  {
  }

  /** The two servers differ exactly when the estimates are not all equal, and then the
      higher one has a request to give away. */
  lemma HighAndLow(c: Clocked, sv: seq<Server>, qs: seq<Queue>)
    requires Matched(sv, qs)
    ensures var h, l, lat := High(c, sv, qs), Low(c, sv, qs), Latencies(c, sv, qs);
            && (h != l <==> Less(lat[l], lat[h]))
            && (h == l <==> forall i, j :: 0 <= i < |lat| && 0 <= j < |lat| ==> lat[i] == lat[j])
            && (h != l ==> qs[h] != [])
  {
    var h, l, lat := High(c, sv, qs), Low(c, sv, qs), Latencies(c, sv, qs);
    if !Less(lat[l], lat[h]) {
      forall i | 0 <= i < |lat| ensures lat[i] == lat[h] {
        assert !Less(lat[h], lat[i]) && !Less(lat[i], lat[l]);
      }
    }
    ServerLatencyIsMaximum(c, sv[h], qs[h], |qs[h]|);
  }

  /** What was simulated is what the queues show after the move; only the two servers change. */
  lemma MovedLatencies(c: Clocked, sv: seq<Server>, qs: seq<Queue>)
    requires Matched(sv, qs) && Improves(c, sv, qs)
    ensures var h, l := High(c, sv, qs), Low(c, sv, qs);
            var lat, lat' := Latencies(c, sv, qs), Latencies(c, sv, Moved(c, sv, qs));
            var highAfter := QueueLatency(c, sv[h], qs[h][1..]);
            var lowAfter := QueueLatency(c, sv[l], Insert(qs[l], qs[h][0]));
            && lat' == lat[h := highAfter][l := lowAfter]
            && Less(highAfter, lat[h]) && Less(lowAfter, lat[h])
  {
  }

  /** A move never raises the greatest estimate. */
  lemma MoveLowersPeak(c: Clocked, sv: seq<Server>, qs: seq<Queue>)
    requires Matched(sv, qs) && Improves(c, sv, qs)
    ensures !Less(Peak(c, sv, qs), Peak(c, sv, Moved(c, sv, qs)))
  {
    MovedLatencies(c, sv, qs);
    var qs' := Moved(c, sv, qs);
    var h' := High(c, sv, qs');
    assert Latencies(c, sv, qs')[h'] == Peak(c, sv, qs');
  }

  /** The servers whose estimate is `v`. */
  ghost function At(lat: seq<Latency>, v: Latency): set<nat> {
    set i: nat | i < |lat| && lat[i] == v
  }

  /** A move lowers the greatest estimate or, failing that, the number of servers attaining it. */
  lemma MoveImprovesStrictly(c: Clocked, sv: seq<Server>, qs: seq<Queue>)
    requires Matched(sv, qs) && Improves(c, sv, qs)
    ensures var peak, qs' := Peak(c, sv, qs), Moved(c, sv, qs);
            var peak' := Peak(c, sv, qs');
            || Less(peak', peak)
            || (peak' == peak && |At(Latencies(c, sv, qs'), peak)| < |At(Latencies(c, sv, qs), peak)|)
  {
    MovedLatencies(c, sv, qs);
    MoveLowersPeak(c, sv, qs);
    var h, peak := High(c, sv, qs), Peak(c, sv, qs);
    var before, after := At(Latencies(c, sv, qs), peak), At(Latencies(c, sv, Moved(c, sv, qs)), peak);
    assert after <= before - {h};
    Cardinality(after, before - {h});
  }

  lemma Transfer(q: multiset<Request>, r: Request, rest: multiset<Request>, low: multiset<Request>,
                 lowAfter: multiset<Request>, lost: multiset<Request>)
    requires multiset{r} + rest + low <= q
    requires lowAfter + lost == low + multiset{r}
    ensures (q - (multiset{r} + rest) + rest) - low + lowAfter + lost == q
  {
    calc {
      (q - (multiset{r} + rest) + rest) - low + lowAfter + lost;
      (q - (multiset{r} + rest) + rest) - low + (lowAfter + lost);
      (q - (multiset{r} + rest) + rest) - low + (low + multiset{r});
      q;
    }
  }

  /** A move changes the queued requests by exactly the request it overwrites. */
  lemma MoveContents(c: Clocked, sv: seq<Server>, qs: seq<Queue>)
    requires Matched(sv, qs) && Improves(c, sv, qs)
    ensures Queued(Moved(c, sv, qs)) + MoveLoses(c, sv, qs) == Queued(qs)
  {
    var h, l := High(c, sv, qs), Low(c, sv, qs);
    var r, rest, low := qs[h][0], qs[h][1..], Insert(qs[l], qs[h][0]);
    assert multiset(qs[h]) == multiset{r} + multiset(rest) by {
      assert qs[h] == [r] + rest;
    }
    QueuedTwice(qs, h, l);
    QueuedUpdate(qs, h, rest);
    QueuedUpdate(qs[h := rest], l, low);
    InsertContents(qs[l], r);
    Transfer(Queued(qs), r, multiset(rest), multiset(qs[l]), multiset(low), Displaced(qs[l], r));
  }

  // ---------- Termination ----------

  /** All sequences of at most `n` elements of `rs`. */
  ghost function SequencesOver(rs: set<Request>, n: nat): set<Queue> {
    if n == 0 then {[]}
    else SequencesOver(rs, n - 1) + set r, q | r in rs && q in SequencesOver(rs, n - 1) :: [r] + q
  }

  lemma {:induction false} SequencesOverContains(rs: set<Request>, n: nat, q: Queue)
    requires |q| <= n && forall r :: r in q ==> r in rs
    ensures q in SequencesOver(rs, n)
    decreases n
  {
    if q == [] {
      if n > 0 { SequencesOverContains(rs, n - 1, []); }
    } else {
      SequencesOverContains(rs, n - 1, q[1..]);
      assert q == [q[0]] + q[1..];
    }
  }

  ghost function Elements(m: multiset<Request>): set<Request> {
    set r | r in m
  }

  /** The estimates of all servers for all the given queues. */
  ghost function LatenciesOver(c: Clocked, sv: seq<Server>, queues: set<Queue>): set<Latency> {
    set i, q | 0 <= i < |sv| && q in queues :: QueueLatency(c, sv[i], q)
  }

  /** Every estimate that some distribution of the requests `m` could produce. */
  ghost function PossibleLatencies(c: Clocked, sv: seq<Server>, m: multiset<Request>): set<Latency> {
    LatenciesOver(c, sv, SequencesOver(Elements(m), |m|))
  }

  lemma LatencyIsPossible(c: Clocked, sv: seq<Server>, m: multiset<Request>, i: nat, q: Queue)
    requires i < |sv| && multiset(q) <= m
    ensures QueueLatency(c, sv[i], q) in PossibleLatencies(c, sv, m)
  {
    assert |multiset(q)| <= |m| by {
      assert m == multiset(q) + (m - multiset(q));
    }
    forall r | r in q ensures r in Elements(m) {
      assert r in multiset(q);
    }
    SequencesOverContains(Elements(m), |m|, q);
  }

  /** How many of the values `vs` lie below `v`. */
  ghost function Rank(vs: set<Latency>, v: Latency): nat {
    |set w | w in vs && Less(w, v)|
  }

  lemma RankIncreases(vs: set<Latency>, a: Latency, b: Latency)
    requires a in vs && Less(a, b)
    ensures Rank(vs, a) < Rank(vs, b)
  {
    var below := set w | w in vs && Less(w, a);
    var belowB := set w | w in vs && Less(w, b);
    assert below + {a} <= belowB;
    Cardinality(below + {a}, belowB);
  }

  lemma Cardinality<T>(a: set<T>, b: set<T>)
    requires a <= b
    ensures |a| <= |b|
  {
    assert b == a + (b - a);
  }

  /** Sum over the servers of two to the rank of the estimate. */
  ghost function Weight(vs: set<Latency>, lat: seq<Latency>): nat {
    if lat == [] then 0 else Pow2(Rank(vs, lat[0])) + Weight(vs, lat[1..])
  }

  lemma {:induction false} WeightUpdate(vs: set<Latency>, lat: seq<Latency>, i: nat, v: Latency)
    requires i < |lat|
    ensures Weight(vs, lat[i := v]) + Pow2(Rank(vs, lat[i])) == Weight(vs, lat) + Pow2(Rank(vs, v))
  {
    if i > 0 {
      WeightUpdate(vs, lat[1..], i - 1, v);
      assert lat[i := v][1..] == lat[1..][i - 1 := v];
    } else {
      assert lat[i := v][1..] == lat[1..];
    }
  }

  /** Two estimates fall below the old maximum: the weight falls, since twice a smaller power
      of two does not exceed the power that was replaced. */
  lemma TwoUpdatesLowerWeight(vs: set<Latency>, lat: seq<Latency>, h: nat, l: nat, a: Latency, b: Latency)
    requires h < |lat| && l < |lat| && h != l
    requires a in vs && b in vs && Less(a, lat[h]) && Less(b, lat[h])
    ensures Weight(vs, lat[h := a][l := b]) < Weight(vs, lat)
  {
    WeightUpdate(vs, lat, h, a);
    WeightUpdate(vs, lat[h := a], l, b);
    RankIncreases(vs, a, lat[h]);
    RankIncreases(vs, b, lat[h]);
    var top := Rank(vs, lat[h]);
    Pow2Monotone(Rank(vs, a), top - 1);
    Pow2Monotone(Rank(vs, b), top - 1);
  }

  ghost function Measure(c: Clocked, sv: seq<Server>, qs: seq<Queue>): nat
    requires |sv| == |qs|
  {
    Weight(PossibleLatencies(c, sv, Queued(qs)), Latencies(c, sv, qs))
  }

  /** The estimates of a queue that is part of a distribution of `m`. */
  lemma QueueIsPossible(c: Clocked, sv: seq<Server>, qs: seq<Queue>, i: nat)
    requires |sv| == |qs| && i < |qs|
    ensures QueueLatency(c, sv[i], qs[i]) in PossibleLatencies(c, sv, Queued(qs))
  {
    QueuedUpdate(qs, i, []);
    LatencyIsPossible(c, sv, Queued(qs), i, qs[i]);
  }

  /** A move that loses nothing lowers the weight, over any values that cover both new estimates. */
  lemma MoveLowersWeight(c: Clocked, sv: seq<Server>, qs: seq<Queue>, vs: set<Latency>)
    requires Matched(sv, qs) && Improves(c, sv, qs)
    requires Latencies(c, sv, Moved(c, sv, qs))[High(c, sv, qs)] in vs
    requires Latencies(c, sv, Moved(c, sv, qs))[Low(c, sv, qs)] in vs
    ensures Weight(vs, Latencies(c, sv, Moved(c, sv, qs))) < Weight(vs, Latencies(c, sv, qs))
  {
    var h, l := High(c, sv, qs), Low(c, sv, qs);
    var lat, lat' := Latencies(c, sv, qs), Latencies(c, sv, Moved(c, sv, qs));
    MovedLatencies(c, sv, qs);
    TwoUpdatesLowerWeight(vs, lat, h, l, lat'[h], lat'[l]);
  }

  /** Every move, whatever the predictor, loses a request or lowers the measure. */
  lemma MoveDescends(c: Clocked, sv: seq<Server>, qs: seq<Queue>)
    requires Matched(sv, qs) && Improves(c, sv, qs)
    ensures var qs' := Moved(c, sv, qs);
            || |Queued(qs')| < |Queued(qs)|
            || (Queued(qs') == Queued(qs) && Measure(c, sv, qs') < Measure(c, sv, qs))
  {
    var qs' := Moved(c, sv, qs);
    MoveContents(c, sv, qs);
    if MoveLoses(c, sv, qs) == multiset{} {
      NothingLost(Queued(qs'), MoveLoses(c, sv, qs), Queued(qs));
      QueueIsPossible(c, sv, qs', High(c, sv, qs));
      QueueIsPossible(c, sv, qs', Low(c, sv, qs));
      MoveLowersWeight(c, sv, qs, PossibleLatencies(c, sv, Queued(qs)));
    } else {
      SomethingLost(Queued(qs'), MoveLoses(c, sv, qs), Queued(qs));
    }
  }

  lemma NothingLost<T>(part: multiset<T>, lost: multiset<T>, whole: multiset<T>)
    requires part + lost == whole && lost == multiset{}
    ensures part == whole
  {
    assert part + lost == part;
  }

  lemma SomethingLost<T>(part: multiset<T>, lost: multiset<T>, whole: multiset<T>)
    requires part + lost == whole && lost != multiset{}
    ensures |part| < |whole|
  {
    assert |part + lost| == |part| + |lost|;
  }

  // ---------- The whole call ----------

  /** The queues when rebalancing stops. */
  ghost function Rebalanced(c: Clocked, sv: seq<Server>, qs: seq<Queue>): (qs': seq<Queue>)
    requires Matched(sv, qs)
    ensures Matched(sv, qs')
    decreases |Queued(qs)|, Measure(c, sv, qs)
  {
    if !Improves(c, sv, qs) then qs
    else
      MoveDescends(c, sv, qs);
      if Continues(c, sv, qs) then Rebalanced(c, sv, Moved(c, sv, qs)) else Moved(c, sv, qs)
  }

  /** A call that changes anything loses a request or lowers the measure. */
  lemma {:induction false} RebalanceDescends(c: Clocked, sv: seq<Server>, qs: seq<Queue>)
    requires Matched(sv, qs)
    ensures var qs' := Rebalanced(c, sv, qs);
            || qs' == qs
            || |Queued(qs')| < |Queued(qs)|
            || (|Queued(qs')| == |Queued(qs)| && Measure(c, sv, qs') < Measure(c, sv, qs))
    decreases |Queued(qs)|, Measure(c, sv, qs)
  {
    if Improves(c, sv, qs) {
      MoveDescends(c, sv, qs);
      if Continues(c, sv, qs) { RebalanceDescends(c, sv, Moved(c, sv, qs)); }
    }
  }

  /** One pass of the loop: the result of the call is that of the remaining passes. */
  lemma PassAdvances(c: Clocked, sv: seq<Server>, qs: seq<Queue>)
    requires Matched(sv, qs)
    ensures var qs', again := Passed(c, sv, qs), PassesAgain(c, sv, qs);
            && Rebalanced(c, sv, qs) == (if again then Rebalanced(c, sv, qs') else qs')
            && (AllSorted(qs) ==> AllSorted(qs'))
            && (again ==> (|Queued(qs')| < |Queued(qs)|
                       || (|Queued(qs')| == |Queued(qs)| && Measure(c, sv, qs') < Measure(c, sv, qs))))
  {
    if Improves(c, sv, qs) {
      MoveDescends(c, sv, qs);
      if AllSorted(qs) { MoveSorted(c, sv, qs); }
    }
  }

  /** The requests overwritten during the call. */
  ghost function RebalanceLoses(c: Clocked, sv: seq<Server>, qs: seq<Queue>): multiset<Request>
    requires Matched(sv, qs)
    decreases |Queued(qs)|, Measure(c, sv, qs)
  {
    if !Improves(c, sv, qs) then multiset{}
    else
      MoveDescends(c, sv, qs);
      MoveLoses(c, sv, qs)
      + if Continues(c, sv, qs) then RebalanceLoses(c, sv, Moved(c, sv, qs)) else multiset{}
  }

  /** Rebalancing changes the queued requests by exactly the overwritten ones, and never
      raises the greatest estimate. */
  lemma {:induction false} RebalancePreserves(c: Clocked, sv: seq<Server>, qs: seq<Queue>)
    requires Matched(sv, qs)
    ensures Queued(Rebalanced(c, sv, qs)) + RebalanceLoses(c, sv, qs) == Queued(qs)
    ensures !Less(Peak(c, sv, qs), Peak(c, sv, Rebalanced(c, sv, qs)))
    decreases |Queued(qs)|, Measure(c, sv, qs)
  {
    if Improves(c, sv, qs) {
      var qs' := Moved(c, sv, qs);
      MoveDescends(c, sv, qs);
      MoveContents(c, sv, qs);
      MoveLowersPeak(c, sv, qs);
      if Continues(c, sv, qs) {
        RebalancePreserves(c, sv, qs');
        LessTransitive(Peak(c, sv, qs'), Peak(c, sv, qs), Peak(c, sv, Rebalanced(c, sv, qs)));
      }
    }
  }

  ghost predicate AllSorted(qs: seq<Queue>) {
    forall i :: 0 <= i < |qs| ==> Sorted(qs[i])
  }

  lemma MoveSorted(c: Clocked, sv: seq<Server>, qs: seq<Queue>)
    requires Matched(sv, qs) && Improves(c, sv, qs) && AllSorted(qs)
    ensures AllSorted(Moved(c, sv, qs))
  {
    var h, l := High(c, sv, qs), Low(c, sv, qs);
    assert Sorted(qs[h]) && Sorted(qs[l]);
    InsertSorted(qs[l], qs[h][0]);
  }

  /** The receiving queue of the move does not hold the moved timestamp. */
  ghost predicate MoveIsFree(c: Clocked, sv: seq<Server>, qs: seq<Queue>)
    requires Matched(sv, qs) && Improves(c, sv, qs)
  {
    forall x :: x in qs[Low(c, sv, qs)] ==> x.timestamp != qs[High(c, sv, qs)][0].timestamp
  }

  /** The same for every move of the call. */
  ghost predicate RebalanceIsFree(c: Clocked, sv: seq<Server>, qs: seq<Queue>)
    requires Matched(sv, qs)
    decreases |Queued(qs)|, Measure(c, sv, qs)
  {
    Improves(c, sv, qs) ==>
      (MoveDescends(c, sv, qs);
       MoveIsFree(c, sv, qs) && (Continues(c, sv, qs) ==> RebalanceIsFree(c, sv, Moved(c, sv, qs))))
  }

  /** A move loses a request exactly when the receiving queue holds the moved timestamp, which
      cannot be when no two waiting requests share one. */
  lemma MoveLosesExactly(c: Clocked, sv: seq<Server>, qs: seq<Queue>)
    requires Matched(sv, qs) && Improves(c, sv, qs) && AllSorted(qs)
    ensures MoveLoses(c, sv, qs) == multiset{} <==> MoveIsFree(c, sv, qs)
    ensures DistinctKeys(Queued(qs)) ==> MoveIsFree(c, sv, qs)
  {
    var h, l := High(c, sv, qs), Low(c, sv, qs);
    var r := qs[h][0];
    assert Sorted(qs[l]);
    DisplacedExactly(qs[l], r);
    QueuedTwice(qs, h, l);
    if DistinctKeys(Queued(qs)) {
      forall x | x in qs[l] ensures x.timestamp != r.timestamp {
        assert x in multiset(qs[l]) && r in multiset(qs[h]);
        assert x in Queued(qs) && r in Queued(qs);
        assert multiset(qs[h])[r] + multiset(qs[l])[r] <= Queued(qs)[r] == 1;
      }
    }
  }

  /** Rebalancing keeps every queue ordered; it loses a request exactly when some receiving queue
      holds the moved timestamp, and never when no two waiting requests share a timestamp. */
  lemma {:induction false} RebalanceLosesExactly(c: Clocked, sv: seq<Server>, qs: seq<Queue>)
    requires Matched(sv, qs) && AllSorted(qs)
    ensures AllSorted(Rebalanced(c, sv, qs))
    ensures RebalanceLoses(c, sv, qs) == multiset{} <==> RebalanceIsFree(c, sv, qs)
    ensures DistinctKeys(Queued(qs)) ==> RebalanceIsFree(c, sv, qs)
    decreases |Queued(qs)|, Measure(c, sv, qs)
  {
    if Improves(c, sv, qs) {
      MoveDescends(c, sv, qs);
      MoveSorted(c, sv, qs);
      MoveContents(c, sv, qs);
      MoveLosesExactly(c, sv, qs);
      if Continues(c, sv, qs) {
        RebalanceLosesExactly(c, sv, Moved(c, sv, qs));
      }
    }
  }
}
