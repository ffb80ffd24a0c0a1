/** The decisions of the dispatcher, told from what waits and runs: who is admitted, where a request
    goes, and what the estimates are made of. */
module DispatchRules {
  import opened ExtendedReals
  import opened RequestQueues
  import opened Servers
  import opened Rebalance
  import opened DispatchRuns

  // ---------- Admission ----------

  /** A request waits for server `i`, one of its 64 handlers is idle, and the server runs at most `pp`
      requests or requests of at most `maxConcurrency` tokens together. */
  ghost predicate MayStart(s: State, i: nat)
    requires |s.servers| == |s.queues| == |s.running|
  {
    && i < |s.servers| && s.queues[i] != [] && |s.running[i]| < 64
    && (|s.running[i]| <= s.servers[i].pp || Sum(LensOf(s.running[i])) <= s.servers[i].maxConcurrency)
  }

  lemma {:induction false} SumOfPermutation(xs: seq<int>, ys: seq<int>)
    requires multiset(xs) == multiset(ys)
    ensures Sum(xs) == Sum(ys)
    decreases |xs|
  {
    if xs == [] {
      assert |ys| == |multiset(ys)| == 0;
    } else {
      assert xs == [xs[0]] + xs[1..];
      assert xs[0] in multiset(xs);
      assert xs[0] in ys;
      SumRemove(ys, xs[0]);
      assert multiset(xs[1..]) == multiset(xs) - multiset{xs[0]};
      SumOfPermutation(xs[1..], RemoveFirst(ys, xs[0]));
    }
  }

  /** The gate admits exactly then. */
  lemma AdmissionExactly(s: State, i: nat, longest: nat)
    requires Accounted(s, longest)
    ensures CanAdmit(s, i) <==> MayStart(s, i)
  {
    if i < |s.servers| {
      assert ServerAccounts(s.servers[i], s.running[i]);
      SumOfPermutation(s.servers[i].inFlightLens, LensOf(s.running[i]));
    }
  }

  /** Whatever bounds the prompts. */
  lemma AdmissionWhenAccounted(s: State, i: nat)
    requires |s.servers| == |s.queues| == |s.running|
    ensures forall longest: nat :: Accounted(s, longest) ==> (CanAdmit(s, i) <==> MayStart(s, i))
  {
    forall longest: nat | Accounted(s, longest) ensures CanAdmit(s, i) <==> MayStart(s, i) {
      AdmissionExactly(s, i, longest);
    }
  }

  /** Of the requests that wait for a server, after any rebalancing, the one with the least timestamp is
      admitted; the others go on waiting. */
  lemma EarliestIsAdmitted(cfg: Config, s: State, i: nat, now: real, stamp: real) returns (r: Request)
    requires WellFormed(s) && i < |s.servers| && QueuesAtAdmission(cfg, s, now)[i] != []
    ensures var q, s' := QueuesAtAdmission(cfg, s, now)[i], AfterAdmit(cfg, s, i, now, stamp);
            && r in q && (forall x :: x in q && x != r ==> r.timestamp < x.timestamp)
            && multiset(s'.queues[i]) + multiset{r} == multiset(q)
            && s'.running[i] == s.running[i] + [Running(r, stamp)]
            && (forall j :: 0 <= j < |s.servers| && j != i ==>
                  s'.running[j] == s.running[j] && s'.queues[j] == QueuesAtAdmission(cfg, s, now)[j])
  {
    RebalancedQueued(cfg, s, now);
    r := QueuesAtAdmission(cfg, s, now)[i][0];
    FirstIsEarliest(QueuesAtAdmission(cfg, s, now)[i]);
  }

  lemma FirstIsEarliest(q: Queue)
    requires Sorted(q) && q != []
    ensures forall x :: x in q && x != q[0] ==> q[0].timestamp < x.timestamp
    ensures multiset(q[1..]) + multiset{q[0]} == multiset(q)
  {
    assert q == [q[0]] + q[1..];
  }

  // ---------- Dispatch ----------

  ghost function LoadOf(cfg: Config, s: State, r: Request, now: real, i: nat): real
    requires WellFormed(s) && i < |s.servers|
  {
    Load(cfg.mode, Clocked(cfg.predict, now), s.servers[i], s.queues[i], r.promptLen)
  }

  /** An arriving request is stored at the first server of least load, and nowhere else. */
  lemma ArrivesAtLeast(cfg: Config, s: State, r: Request, now: real) returns (i: nat)
    requires WellFormed(s)
    ensures i < |s.servers|
    ensures forall j :: 0 <= j < |s.servers| ==> LoadOf(cfg, s, r, now, i) <= LoadOf(cfg, s, r, now, j)
    ensures forall j :: 0 <= j < i ==> LoadOf(cfg, s, r, now, i) < LoadOf(cfg, s, r, now, j)
    ensures var s' := AfterArrive(cfg, s, r, now);
            && r in s'.queues[i] && s'.servers == s.servers && s'.running == s.running
            && (forall j :: 0 <= j < |s.servers| && j != i ==> s'.queues[j] == s.queues[j])
  {
    i := ChosenServer(cfg, now, s.servers, s.queues, r.promptLen);
    var loads := Loads(cfg, now, s.servers, s.queues, r.promptLen);
    forall j | 0 <= j < |s.servers|
      ensures LoadOf(cfg, s, r, now, i) <= LoadOf(cfg, s, r, now, j)
      ensures j < i ==> LoadOf(cfg, s, r, now, i) < LoadOf(cfg, s, r, now, j)
    {
      assert !Less(loads[j], loads[i]);
    }
    InsertHolds(s.queues[i], r);
  }

  lemma {:induction false} InsertHolds(q: Queue, r: Request)
    ensures r in Insert(q, r)
  {
    if q != [] && r.timestamp > q[0].timestamp { InsertHolds(q[1..], r); }
  }

  lemma {:induction false} TokensSplit(q: Queue, k: nat)
    requires k <= |q|
    ensures Tokens(q) == Tokens(q[..k]) + Tokens(q[k..])
  {
    if k > 0 {
      TokensSplit(q[1..], k - 1);
      assert q[..k][1..] == q[1..][..k - 1] && q[1..][k - 1..] == q[k..];
    }
  }

  /** In token mode the load is the tokens in flight and queued. */
  lemma TokenLoad(mode: int, c: Clocked, v: Server, q: Queue, promptLen: int)
    requires mode <= 0 && v.pp >= 1
    ensures Load(mode, c, v, q, promptLen) == (v.inFlightTokens + Tokens(q)) as real
  {
  }

  /** In mode 1 the load is, per pipeline stage, the tokens in flight, those queued for every stage, and
      the request at every stage of every stage, times the overhead of the server. */
  lemma StagedLoad(c: Clocked, v: Server, q: Queue, promptLen: int)
    requires v.pp >= 1
    ensures Load(1, c, v, q, promptLen) * v.pp as real
         == v.overhead * (v.inFlightTokens + Tokens(q) * v.pp + promptLen * v.pp * v.pp) as real
  {
    var p, a, b := v.pp as real, v.inFlightTokens as real, Tokens(q) as real;
    var x := promptLen * v.pp;
    assert (a / p) * p == a;
    assert (Tokens(q) * v.pp) as real == b * p;
    assert (x * v.pp) as real == x as real * p;
    Expand(a / p, b, x as real, v.overhead, p);
  }

  lemma Expand(u: real, b: real, x: real, o: real, p: real)
    ensures (u + b + x) * o * p == o * (u * p + b * p + x * p)
  {
  }

  /** In the modes with estimates the load is the latency the request would have behind all that wait,
      before it has waited itself. */
  lemma EstimatedLoad(mode: int, c: Clocked, v: Server, q: Queue, r: Request)
    requires mode >= 2 && v.pp >= 1
    ensures LatencyAt(c, v, q + [r], |q|) == Load(mode, c, v, q, r.promptLen) + (c.now - r.timestamp)
  {
    assert (q + [r])[..|q|] == q;
  }

  // ---------- Estimates ----------

  /** The latency of a waiting request: what is predicted for the state of the server, the tokens that
      wait before it and its own, and the time it has waited. */
  lemma LatencyIsPrediction(c: Clocked, v: Server, before: Queue, r: Request, after: Queue)
    ensures LatencyAt(c, v, before + [r] + after, |before|)
         == c.predict(Features(v.tp, v.pp, v.inFlightTokens, Progress(v, c.now), Tokens(before), |v.inFlightLens|, r.promptLen))
            + c.now - r.timestamp
  {
    assert (before + [r] + after)[..|before|] == before;
  }

  /** If every prediction is the same, the estimate of a server is that of its oldest request. */
  lemma {:induction false} OldestWaitsLongest(c: Clocked, v: Server, q: Queue, p: real)
    requires Sorted(q) && q != [] && forall f :: c.predict(f) == p
    ensures QueueLatency(c, v, q) == Fin(p + c.now - q[0].timestamp)
  {
    ServerLatencyIsMaximum(c, v, q, |q|);
    assert LatencyAt(c, v, q, 0) == p + c.now - q[0].timestamp;
    assert forall k :: 0 < k < |q| ==> LatencyAt(c, v, q, k) < LatencyAt(c, v, q, 0);
  }

  /** The tokens in flight on a server have on average been there for the reported progress, which thus
      lies between the ages of its youngest and its oldest request. */
  lemma ProgressIsMean(v: Server, now: real, low: real, high: real)
    requires |v.inFlightLens| == |v.dispatchStamps| && v.inFlightTokens == Sum(v.inFlightLens) > 0
    requires forall k :: 0 <= k < |v.inFlightLens| ==> v.inFlightLens[k] >= 0 && low <= now - v.dispatchStamps[k] <= high
    ensures low <= Progress(v, now) <= high
  {
    var n, t := |v.inFlightLens|, v.inFlightTokens as real;
    ProgressBounds(v.inFlightLens, v.dispatchStamps, now, n, low, high);
    assert v.inFlightLens[..n] == v.inFlightLens;
    QuotientBounds(WeightedProgress(v.inFlightLens, v.dispatchStamps, now, n), t, low, high);
  }

  lemma QuotientBounds(w: real, t: real, low: real, high: real)
    requires t > 0.0 && low * t <= w <= high * t
    ensures low <= w / t <= high
  {
    assert (w / t) * t == w;
  }

  lemma SumStep(lens: seq<int>, n: nat)
    requires 0 < n <= |lens|
    ensures Sum(lens[..n]) as real == Sum(lens[..n - 1]) as real + lens[n - 1] as real
  {
    assert lens[..n] == lens[..n - 1] + [lens[n - 1]];
    SumAppend(lens[..n - 1], lens[n - 1]);
  }

  lemma {:induction false} ProgressBounds(lens: seq<int>, stamps: seq<real>, now: real, n: nat, low: real, high: real)
    requires n <= |lens| == |stamps|
    requires forall k :: 0 <= k < n ==> lens[k] >= 0 && low <= now - stamps[k] <= high
    ensures low * Sum(lens[..n]) as real <= WeightedProgress(lens, stamps, now, n) <= high * Sum(lens[..n]) as real
  {
    if n > 0 {
      var s, l, w := Sum(lens[..n - 1]) as real, lens[n - 1] as real, WeightedProgress(lens, stamps, now, n - 1);
      assert low * s <= w <= high * s by { ProgressBounds(lens, stamps, now, n - 1, low, high); }
      assert Sum(lens[..n]) as real == s + l by { SumStep(lens, n); }
      StepBounds(low, now - stamps[n - 1], high, s, l, w);
    }
  }

  lemma StepBounds(low: real, x: real, high: real, s: real, l: real, w: real)
    requires l >= 0.0 && low <= x <= high && low * s <= w <= high * s
    ensures low * (s + l) <= w + x * l <= high * (s + l)
  {
    assert (x - low) * l >= 0.0 && (high - x) * l >= 0.0;
  }
}
