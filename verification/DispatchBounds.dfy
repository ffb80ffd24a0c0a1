/** Whole-run bounds of the dispatcher: how even the load stays, and that it drains. */
module DispatchBounds {
  import opened ExtendedReals
  import opened RequestQueues
  import opened Servers
  import opened Rebalance
  import opened DispatchRuns

  // ---------- Load balance ----------

  /** Tokens in flight on, and queued for, each server. */
  function TokenLoads(s: State): (loads: seq<int>)
    requires |s.servers| == |s.queues|
    ensures |loads| == |s.servers|
  {
    seq(|s.servers|, i requires 0 <= i < |s.servers| => s.servers[i].inFlightTokens + Tokens(s.queues[i]))
  }

  ghost predicate EvenWithin(loads: seq<int>, p: int) {
    forall i, j :: 0 <= i < |loads| && 0 <= j < |loads| ==> loads[i] <= loads[j] + p
  }

  /** In token mode an arrival goes to a server with the least load. */
  lemma ArriveLoads(cfg: Config, s: State, r: Request, now: real)
    requires WellFormed(s) && cfg.mode <= 0
    requires Loses(cfg, s, Arrive(r, now)) == multiset{}
    ensures var i := ChosenServer(cfg, now, s.servers, s.queues, r.promptLen);
            && TokenLoads(AfterArrive(cfg, s, r, now)) == TokenLoads(s)[i := TokenLoads(s)[i] + r.promptLen]
            && forall j :: 0 <= j < |s.servers| ==> TokenLoads(s)[i] <= TokenLoads(s)[j]
  {
    var i := ChosenServer(cfg, now, s.servers, s.queues, r.promptLen);
    var loads := Loads(cfg, now, s.servers, s.queues, r.promptLen);
    assert Sorted(s.queues[i]);
    InsertTokens(s.queues[i], r);
    forall j | 0 <= j < |s.servers| ensures TokenLoads(s)[i] <= TokenLoads(s)[j] {
      assert !Less(loads[j], loads[i]);
    }
  }

  lemma AdmitLoads(cfg: Config, s: State, i: nat, now: real, stamp: real)
    requires WellFormed(s) && cfg.mode <= 0 && CanAdmit(s, i)
    ensures TokenLoads(AfterAdmit(cfg, s, i, now, stamp)) == TokenLoads(s)
  {
  }

  lemma {:induction false} SumUpdate(xs: seq<int>, i: nat, v: int)
    requires i < |xs|
    ensures Sum(xs[i := v]) == Sum(xs) - xs[i] + v
  {
    if i > 0 {
      SumUpdate(xs[1..], i - 1, v);
      assert xs[i := v][1..] == xs[1..][i - 1 := v];
    } else {
      assert xs[i := v][1..] == xs[1..];
    }
  }

  /** The arrivals of the run, in order. */
  function ArrivalsInOrder(run: Run): seq<Request> {
    if run.Begin? then []
    else if run.step.Arrive? then ArrivalsInOrder(run.before) + [run.step.req]
    else ArrivalsInOrder(run.before)
  }

  ghost predicate NoCompletion(run: Run) {
    run.Then? ==> NoCompletion(run.before) && !run.step.Complete?
  }

  lemma {:induction false} ArrivalsFit(run: Run, p: nat)
    ensures Fits(run, p) <==> forall r :: r in ArrivalsInOrder(run) ==> r.promptLen <= p
  {
    if run.Then? {
      ArrivalsFit(run.before, p);
      if run.step.Arrive? {
        assert run.step.req in ArrivalsInOrder(run);
        assert forall r :: r in ArrivalsInOrder(run.before) ==> r in ArrivalsInOrder(run);
      }
    }
  }

  /** Adding at most `p` to a least element. */
  lemma RaiseLeast(loads: seq<int>, i: nat, x: nat, p: nat)
    requires i < |loads| && EvenWithin(loads, p) && x <= p
    requires forall j :: 0 <= j < |loads| ==> loads[i] <= loads[j]
    ensures EvenWithin(loads[i := loads[i] + x], p)
    ensures Sum(loads[i := loads[i] + x]) == Sum(loads) + x
  {
    SumUpdate(loads, i, loads[i] + x);
  }

  function ArrivingTokens(step: Step): nat {
    if step.Arrive? then step.req.promptLen else 0
  }

  lemma ArriveKeepsEven(cfg: Config, s: State, r: Request, now: real, p: nat)
    requires WellFormed(s) && cfg.mode <= 0 && r.promptLen <= p
    requires Loses(cfg, s, Arrive(r, now)) == multiset{}
    requires EvenWithin(TokenLoads(s), p)
    ensures EvenWithin(TokenLoads(AfterArrive(cfg, s, r, now)), p)
    ensures Sum(TokenLoads(AfterArrive(cfg, s, r, now))) == Sum(TokenLoads(s)) + r.promptLen
  {
    ArriveLoads(cfg, s, r, now);
    RaiseLeast(TokenLoads(s), ChosenServer(cfg, now, s.servers, s.queues, r.promptLen), r.promptLen, p);
  }

  lemma StepLoads(cfg: Config, s: State, step: Step, s': State, p: nat)
    requires Follows(cfg, s, step, s') && cfg.mode <= 0 && !step.Complete?
    requires Loses(cfg, s, step) == multiset{}
    requires StepFits(step, p) && EvenWithin(TokenLoads(s), p)
    ensures |s'.servers| == |s'.queues| == |s.servers|
    ensures EvenWithin(TokenLoads(s'), p)
    ensures Sum(TokenLoads(s')) == Sum(TokenLoads(s)) + ArrivingTokens(step)
  {
    match step
    case Arrive(r, now) => ArriveKeepsEven(cfg, s, r, now, p);
    case Admit(i, now, stamp) => AdmitLoads(cfg, s, i, now, stamp);
  }

  /** Over a run of arrivals and admissions the loads stay within one prompt of each other and
      add up to everything that arrived. */
  lemma {:induction false} RunLoads(cfg: Config, run: Run, p: nat)
    requires IsRun(cfg, run) && Fits(run, p) && WellFormed(First(run))
    requires cfg.mode <= 0 && NoCompletion(run) && IsFree(cfg, run)
    requires EvenWithin(TokenLoads(First(run)), p)
    ensures |Last(run).servers| == |Last(run).queues| == |First(run).servers|
    ensures EvenWithin(TokenLoads(Last(run)), p)
    ensures Sum(TokenLoads(Last(run))) == Sum(TokenLoads(First(run))) + Tokens(ArrivalsInOrder(run))
    decreases run
  {
    if run.Then? {
      StepLosesExactly(cfg, Last(run.before), run.step);
      RunLoads(cfg, run.before, p);
      StepLoads(cfg, Last(run.before), run.step, run.state, p);
      if run.step.Arrive? {
        TokensAppend(ArrivalsInOrder(run.before), run.step.req);
      }
    }
  }

  lemma {:induction false} SumAtLeast(xs: seq<int>, b: int)
    requires forall k :: 0 <= k < |xs| ==> b <= xs[k]
    ensures |xs| * b <= Sum(xs)
  {
    if xs != [] {
      SumAtLeast(xs[1..], b);
      assert |xs| * b == |xs[1..]| * b + b;
    }
  }

  lemma {:induction false} SumAtMost(xs: seq<int>, b: int)
    requires forall k :: 0 <= k < |xs| ==> xs[k] <= b
    ensures Sum(xs) <= |xs| * b
  {
    if xs != [] {
      SumAtMost(xs[1..], b);
      assert |xs| * b == |xs[1..]| * b + b;
    }
  }

  lemma EvenSum(loads: seq<int>, i: nat, p: nat)
    requires i < |loads| && EvenWithin(loads, p)
    ensures |loads| * loads[i] <= Sum(loads) + (|loads| - 1) * p
  {
    var least := loads[i] - p;
    SumUpdate(loads, i, least);
    SumAtLeast(loads[i := least], least);
    Distribute(|loads|, loads[i], p);
  }

  lemma Distribute(n: int, x: int, p: int)
    ensures n * (x - p) + p == n * x - (n - 1) * p
  {
  }

  lemma {:induction false} InitialLoads(s: State, longest: nat)
    requires Initial(s)
    ensures Sum(TokenLoads(s)) == 0 && EvenWithin(TokenLoads(s), 0)
  {
    SumAtLeast(TokenLoads(s), 0);
    SumAtMost(TokenLoads(s), 0);
  }

  /** What each of `m` servers would carry if request `k` were given to server `assign[k]`. */
  function AssignedLoads(rs: seq<Request>, assign: seq<nat>, m: nat): (loads: seq<int>)
    requires |rs| == |assign| && forall k :: 0 <= k < |assign| ==> assign[k] < m
    ensures |loads| == m
  {
    if rs == [] then seq(m, _ => 0)
    else
      var rest := AssignedLoads(rs[1..], assign[1..], m);
      rest[assign[0] := rest[assign[0]] + rs[0].promptLen]
  }

  lemma {:induction false} AssignedTotal(rs: seq<Request>, assign: seq<nat>, m: nat)
    requires |rs| == |assign| && forall k :: 0 <= k < |assign| ==> assign[k] < m
    ensures Sum(AssignedLoads(rs, assign, m)) == Tokens(rs)
    ensures forall j :: 0 <= j < m ==> AssignedLoads(rs, assign, m)[j] >= 0
    ensures forall k :: 0 <= k < |rs| ==> rs[k].promptLen <= AssignedLoads(rs, assign, m)[assign[k]]
  {
    if rs == [] {
      SumAtLeast(AssignedLoads(rs, assign, m), 0);
      SumAtMost(AssignedLoads(rs, assign, m), 0);
    } else {
      var rest := AssignedLoads(rs[1..], assign[1..], m);
      AssignedTotal(rs[1..], assign[1..], m);
      SumUpdate(rest, assign[0], rest[assign[0]] + rs[0].promptLen);
      forall k | 0 <= k < |rs| ensures rs[k].promptLen <= AssignedLoads(rs, assign, m)[assign[k]] {
        if k > 0 {
          assert rs[k] == rs[1..][k - 1] && assign[k] == assign[1..][k - 1];
        }
      }
    }
  }

  lemma AssignedFits(rs: seq<Request>, assign: seq<nat>, m: nat, cap: nat)
    requires |rs| == |assign| && forall k :: 0 <= k < |assign| ==> assign[k] < m
    requires forall j :: 0 <= j < m ==> AssignedLoads(rs, assign, m)[j] <= cap
    ensures Tokens(rs) <= m * cap
    ensures forall r :: r in rs ==> r.promptLen <= cap
  {
    AssignedTotal(rs, assign, m);
    SumAtMost(AssignedLoads(rs, assign, m), cap);
    forall r | r in rs ensures r.promptLen <= cap {
      var k :| 0 <= k < |rs| && rs[k] == r;
      assert rs[k].promptLen <= AssignedLoads(rs, assign, m)[assign[k]];
    }
  }

  /** At the end of the run any two loads differ by at most `p`, and they add up to everything that
      arrived. */
  ghost predicate EndsEven(run: Run, p: nat) {
    && |Last(run).servers| == |Last(run).queues| == |First(run).servers|
    && EvenWithin(TokenLoads(Last(run)), p)
    && Sum(TokenLoads(Last(run))) == Tokens(ArrivalsInOrder(run))
  }

  /** Any two loads differ by at most the longest prompt that arrived. */
  lemma LoadsStayEven(cfg: Config, run: Run, longest: nat)
    requires IsRun(cfg, run) && Initial(First(run)) && Fits(run, longest)
    requires cfg.mode <= 0 && NoCompletion(run) && DistinctKeys(Arrivals(run))
    ensures EndsEven(run, longest)
  {
    InitialRunIsFree(cfg, run, longest);
    InitialLoads(First(run), longest);
    RunLoads(cfg, run, longest);
  }

  /** So no load exceeds the average by more than (m - 1)/m of that prompt. */
  lemma LoadWithinAverage(run: Run, p: nat, i: nat)
    requires EndsEven(run, p) && i < |First(run).servers|
    ensures var m := |First(run).servers|;
            m * TokenLoads(Last(run))[i] <= Tokens(ArrivalsInOrder(run)) + (m - 1) * p
  {
    EvenSum(TokenLoads(Last(run)), i, p);
  }

  lemma Competitive(m: nat, load: int, total: int, cap: nat)
    requires m > 0 && m * load <= total + (m - 1) * cap && total <= m * cap
    ensures m * load <= (2 * m - 1) * cap
  {
    assert (2 * m - 1) * cap == m * cap + (m - 1) * cap;
  }

  /** Some distribution of the run's requests over its servers gives no server more than `cap`. */
  ghost predicate Distributes(run: Run, assign: seq<nat>, cap: nat) {
    && |assign| == |ArrivalsInOrder(run)|
    && (forall k :: 0 <= k < |assign| ==> assign[k] < |First(run).servers|)
    && (forall j :: 0 <= j < |First(run).servers| ==>
          AssignedLoads(ArrivalsInOrder(run), assign, |First(run).servers|)[j] <= cap)
  }

  /** Least-loaded dispatch is within a factor 2 - 1/m of any assignment: if some distribution of
      the same requests gives no server more than `cap` tokens, then after any run of arrivals
      and admissions no server holds more than (2 - 1/m) * cap. */
  lemma LeastLoadedIsCompetitive(cfg: Config, run: Run, assign: seq<nat>, cap: nat, i: nat)
    requires IsRun(cfg, run) && Initial(First(run))
    requires cfg.mode <= 0 && NoCompletion(run) && DistinctKeys(Arrivals(run))
    requires Distributes(run, assign, cap)
    requires i < |First(run).servers|
    ensures EndsEven(run, cap)
    ensures var m := |First(run).servers|; m * TokenLoads(Last(run))[i] <= (2 * m - 1) * cap
  {
    DistributedFits(run, assign, cap);
    LoadsStayEven(cfg, run, cap);
    CompetitiveEnd(run, cap, i);
  }

  lemma CompetitiveEnd(run: Run, cap: nat, i: nat)
    requires EndsEven(run, cap) && i < |First(run).servers|
    requires Tokens(ArrivalsInOrder(run)) <= |First(run).servers| * cap
    ensures var m := |First(run).servers|; m * TokenLoads(Last(run))[i] <= (2 * m - 1) * cap
  {
    LoadWithinAverage(run, cap, i);
    Competitive(|First(run).servers|, TokenLoads(Last(run))[i], Tokens(ArrivalsInOrder(run)), cap);
  }

  lemma DistributedFits(run: Run, assign: seq<nat>, cap: nat)
    requires Distributes(run, assign, cap)
    ensures Fits(run, cap) && Tokens(ArrivalsInOrder(run)) <= |First(run).servers| * cap
  {
    AssignedFits(ArrivalsInOrder(run), assign, |First(run).servers|, cap);
    ArrivalsFit(run, cap);
  }

  // ---------- Progress ----------

  /** Steps the waiting and running requests still need. */
  ghost function Remaining(s: State): nat {
    2 * |Queued(s.queues)| + |InFlight(s.running)|
  }

  lemma {:induction false} SomethingQueued(qs: seq<Queue>)
    requires Queued(qs) != multiset{}
    ensures exists i :: 0 <= i < |qs| && qs[i] != []
  {
    if qs[0] == [] {
      SomethingQueued(qs[1..]);
      var i :| 0 <= i < |qs[1..]| && qs[1..][i] != [];
      assert qs[i + 1] != [];
    }
  }

  lemma {:induction false} SomethingRunning(running: seq<seq<Running>>)
    requires InFlight(running) != multiset{}
    ensures exists i :: 0 <= i < |running| && running[i] != []
  {
    if running[0] == [] {
      SomethingRunning(running[1..]);
      var i :| 0 <= i < |running[1..]| && running[1..][i] != [];
      assert running[i + 1] != [];
    }
  }

  /** The gate never deadlocks: while a request waits or runs, some handler can act. */
  lemma NoDeadlock(s: State, longest: nat)
    requires Accounted(s, longest) && Remaining(s) > 0
    ensures exists step: Step :: !step.Arrive? && Enabled(s, step)
  {
    if InFlight(s.running) != multiset{} {
      SomethingRunning(s.running);
      var i :| 0 <= i < |s.running| && s.running[i] != [];
      assert Enabled(s, Complete(i, 0));
    } else {
      SomethingQueued(s.queues);
      var i :| 0 <= i < |s.queues| && s.queues[i] != [];
      InFlightUpdate(s.running, i, []);
      assert s.running[i] == [] by {
        assert |multiset(RequestsOf(s.running[i]))| <= 0;
      }
      assert Enabled(s, Admit(i, 0.0, 0.0));
    }
  }

  /** Without rebalancing every admission or completion is exactly one step of progress. */
  lemma StepProgress(cfg: Config, s: State, step: Step, s': State, longest: nat)
    requires Accounted(s, longest) && Follows(cfg, s, step, s') && cfg.mode < 3 && !step.Arrive?
    ensures Remaining(s') == Remaining(s) - 1
  {
    match step
    case Admit(i, now, stamp) =>
      PopQueued(s.queues, i);
      StartInFlight(s.running, i, Running(s.queues[i][0], stamp));
    case Complete(i, k) =>
      CompleteAccounted(s, i, k, longest);
      FinishInFlight(s.running, i, k);
  }

  function Length(run: Run): nat {
    if run.Begin? then 0 else Length(run.before) + 1
  }

  ghost predicate NoArrival(run: Run) {
    run.Then? ==> NoArrival(run.before) && !run.step.Arrive?
  }

  lemma {:induction false} RunProgress(cfg: Config, run: Run, longest: nat)
    requires IsRun(cfg, run) && Accounted(First(run), longest)
    requires cfg.mode < 3 && NoArrival(run)
    ensures Fits(run, longest) && Lost(cfg, run) == multiset{} && Arrivals(run) == multiset{}
    ensures Remaining(Last(run)) + Length(run) == Remaining(First(run))
    decreases run
  {
    if run.Then? {
      RunProgress(cfg, run.before, longest);
      RunAccounted(cfg, run.before, longest);
      StepProgress(cfg, Last(run.before), run.step, run.state, longest);
    }
  }

  /** Once arrivals stop, every schedule drains the dispatcher in the same number of steps: a run
      shorter than that can be continued, and one of that length has resolved every request
      that was present. */
  lemma EveryScheduleDrains(cfg: Config, run: Run, longest: nat)
    requires IsRun(cfg, run) && Accounted(First(run), longest)
    requires cfg.mode < 3 && NoArrival(run)
    ensures Length(run) <= Remaining(First(run))
    ensures Length(run) == Remaining(First(run)) <==> multiset(Last(run).done) == Present(First(run))
    ensures WellFormed(Last(run))
    ensures Length(run) < Remaining(First(run)) ==>
              exists step: Step :: !step.Arrive? && Enabled(Last(run), step)
  {
    RunProgress(cfg, run, longest);
    RunAccounted(cfg, run, longest);
    RunConserves(cfg, run, longest);
    NothingLost(Present(Last(run)), Lost(cfg, run), Present(First(run)) + Arrivals(run));
    NothingLost(Present(First(run)), Arrivals(run), Present(Last(run)));
    DoneIsEverything(Last(run));
    if Length(run) < Remaining(First(run)) {
      NoDeadlock(Last(run), longest);
    }
  }

  lemma DoneIsEverything(s: State)
    ensures Remaining(s) == 0 <==> multiset(s.done) == Present(s)
  {
    if multiset(s.done) == Present(s) {
      assert |Present(s)| == |Queued(s.queues)| + |InFlight(s.running)| + |multiset(s.done)|;
    }
  }
}
