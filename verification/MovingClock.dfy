/** With an advancing clock and a request that never completes, another one can be moved for ever. */
module MovingClock {
  import opened ExtendedReals
  import opened RequestQueues
  import opened Servers
  import opened Rebalance
  import opened DispatchRuns
  import opened DispatchBounds

  /** A latency model that finds a busy server slow at even times and fast at odd ones. */
  function Fickle(f: Features): real {
    if f.inFlightTokens == 0 then 0.0 else if f.progress.Floor % 2 == 0 then 1.0 else -1.0
  }

  function FickleConfig(mode: int): Config {
    Config(mode, Fickle)
  }

  function Waiting(): Request { Request(1, 1, 0.0) }

  function Busy(): Server { Server(10, 1.0, 1, 1, 1, 1, [1], [0.0]) }

  function Idle(): Server { Server(10, 1.0, 1, 1, 0, 0, [], []) }

  /** One request runs on the first server; another waits at the first or at the second. */
  function WaitingAt(first: bool): State {
    State([Busy(), Idle()], if first then [[Waiting()], []] else [[], [Waiting()]],
          [[Running(Request(0, 1, 0.0), 0.0)], []], [])
  }

  /** The waiting request's estimate on either server. */
  lemma Estimates(k: nat)
    ensures var c := Clocked(Fickle, k as real);
            && QueueLatency(c, Busy(), [Waiting()]) == Fin((if k % 2 == 0 then 1.0 else -1.0) + k as real)
            && QueueLatency(c, Idle(), [Waiting()]) == Fin(k as real)
            && QueueLatency(c, Busy(), []) == QueueLatency(c, Idle(), []) == NegInf
  {
    var c := Clocked(Fickle, k as real);
    var q := [Waiting()];
    assert WeightedProgress([1], [0.0], k as real, 1) == k as real by {
      assert WeightedProgress([1], [0.0], k as real, 0) == 0.0;
    }
    assert Progress(Busy(), k as real) == k as real;
    assert (k as real).Floor == k;
    assert q[..0] == [] && Tokens([]) == 0;
    assert ServerLatency(c, Busy(), q, 0) == ServerLatency(c, Idle(), q, 0) == NegInf;
  }

  /** The server that holds the waiting request at time `k`. */
  predicate AtFirst(k: nat) {
    k % 2 == 0
  }

  lemma AtOther(k: nat)
    ensures AtFirst(0) && (AtFirst(k + 1) <==> !AtFirst(k))
  {
  }

  /** At every time that server gives the waiting request to the other one. */
  lemma GivenAway(mode: int, k: nat)
    requires mode >= 3
    ensures var s, i := WaitingAt(AtFirst(k)), if AtFirst(k) then 0 else 1;
            && WellFormed(s)
            && CanAdmit(s, i)
            && AfterAdmit(FickleConfig(mode), s, i, k as real, 0.0) == WaitingAt(!AtFirst(k))
  {
    var c, s, s' := Clocked(Fickle, k as real), WaitingAt(AtFirst(k)), WaitingAt(!AtFirst(k));
    var i := if AtFirst(k) then 0 else 1;
    Estimates(k);
    var lat := Latencies(c, s.servers, s.queues);
    assert lat[i].Fin? && lat[1 - i] == NegInf;
    var h, l := High(c, s.servers, s.queues), Low(c, s.servers, s.queues);
    assert h == i && l == 1 - i;
    assert Insert([], Waiting()) == [Waiting()];
    assert Improves(c, s.servers, s.queues);
    assert Moved(c, s.servers, s.queues) == s'.queues;
    assert !Continues(c, s.servers, s.queues);
    assert QueuesAtAdmission(FickleConfig(mode), s, k as real) == s'.queues;
  }

  /** At time `k` an admission at server `i` leads from `s` to `s'`. */
  ghost predicate Leads(cfg: Config, s: State, i: nat, k: nat, s': State) {
    WellFormed(s) && CanAdmit(s, i) && s' == AfterAdmit(cfg, s, i, k as real, 0.0)
  }

  /** The clock reads 0, 1, 2, ... at the steps of the run, all of them admissions. */
  ghost predicate ClockTicks(run: Run) {
    run.Then? ==> ClockTicks(run.before) && run.step.Admit? && run.step.now == Length(run.before) as real
  }

  ghost predicate TicksFrom(cfg: Config, start: State, run: Run, k: nat) {
    IsRun(cfg, run) && ClockTicks(run) && NoArrival(run) && Length(run) == k && First(run) == start
  }

  lemma Tick(cfg: Config, start: State, run: Run, k: nat, i: nat, s': State) returns (next: Run)
    requires TicksFrom(cfg, start, run, k) && Leads(cfg, Last(run), i, k, s')
    ensures TicksFrom(cfg, start, next, k + 1) && Last(next) == s'
  {
    next := Then(run, Admit(i, k as real, 0.0), s');
  }

  /** A run of `k` such steps leads from `start` to `s`. */
  ghost predicate Reaches(cfg: Config, start: State, k: nat, s: State) {
    exists run :: TicksFrom(cfg, start, run, k) && Last(run) == s
  }

  lemma ReachesNext(cfg: Config, start: State, k: nat, s: State, i: nat, s': State)
    requires Reaches(cfg, start, k, s) && Leads(cfg, s, i, k, s')
    ensures Reaches(cfg, start, k + 1, s')
  {
    var run :| TicksFrom(cfg, start, run, k) && Last(run) == s;
    var next := Tick(cfg, start, run, k, i, s');
  }

  ghost predicate ReachedAt(mode: int, k: nat) {
    Reaches(FickleConfig(mode), WaitingAt(true), k, WaitingAt(AtFirst(k)))
  }

  lemma ReachedNext(mode: int, k: nat)
    requires mode >= 3 && ReachedAt(mode, k)
    ensures ReachedAt(mode, k + 1)
  {
    GivenAway(mode, k);
    AtOther(k);
    ReachesNext(FickleConfig(mode), WaitingAt(true), k, WaitingAt(AtFirst(k)), if AtFirst(k) then 0 else 1,
                WaitingAt(!AtFirst(k)));
  }

  lemma ReachedFirst(mode: int)
    ensures ReachedAt(mode, 0)
  {
    var run := Begin(WaitingAt(true));
    assert TicksFrom(FickleConfig(mode), WaitingAt(true), run, 0) && Last(run) == WaitingAt(true);
  }

  lemma {:induction false} ByInduction(p: nat -> bool, n: nat)
    requires p(0) && forall k: nat :: p(k) ==> p(k + 1)
    ensures p(n)
  {
    if n > 0 { ByInduction(p, n - 1); }
  }

  /** In every mode that rebalances at admission there are runs of any length without arrivals, under
      a clock that reads 0, 1, 2, ..., that only move one request to and fro.  The request in flight
      never completes in them. */
  lemma MovedForEver(mode: int, n: nat) returns (run: Run)
    requires mode >= 3
    ensures TicksFrom(FickleConfig(mode), WaitingAt(true), run, n)
    ensures Last(run) == WaitingAt(AtFirst(n))
  {
    var p := (k: nat) => ReachedAt(mode, k);
    ReachedFirst(mode);
    forall k: nat | p(k) ensures p(k + 1) { ReachedNext(mode, k); }
    ByInduction(p, n);
    run :| TicksFrom(FickleConfig(mode), WaitingAt(true), run, n) && Last(run) == WaitingAt(AtFirst(n));
  }

  /** Both states are in order, and the same request waits in them. */
  lemma StillWaiting(first: bool)
    ensures Accounted(WaitingAt(first), 1)
    ensures Queued(WaitingAt(first).queues) == multiset{Waiting()} && WaitingAt(first).done == []
  {
    var s := WaitingAt(first);
    OneQueued([Waiting()], first);
    assert LensOf(s.running[0]) == [1] && StampsOf(s.running[0]) == [0.0];
    assert LensOf(s.running[1]) == [] && StampsOf(s.running[1]) == [];
    assert Sum([1]) == 1 && Sum([]) == 0;
  }

  lemma OneQueued(q: Queue, first: bool)
    ensures Queued(if first then [q, []] else [[], q]) == multiset(q)
  {
    var qs := if first then [q, []] else [[], q];
    assert qs[1..][1..] == [];
    assert Queued(qs[1..]) == multiset(qs[1]);
  }

  // ---------- The exact condition ----------

  /** Some bound holds for all schedules from the state after the last arrival, under any clock. */
  ghost predicate SchedulesEnd(cfg: Config, s: State) {
    exists bound: nat :: AllWithin(cfg, s, bound)
  }

  ghost predicate AllWithin(cfg: Config, s: State, bound: nat) {
    forall run: Run :: IsRun(cfg, run) && First(run) == s && NoArrival(run) ==> Length(run) <= bound
  }

  lemma EndsBelowThree(cfg: Config, s: State, longest: nat)
    requires cfg.mode < 3 && Accounted(s, longest)
    ensures SchedulesEnd(cfg, s)
  {
    forall run: Run | IsRun(cfg, run) && First(run) == s && NoArrival(run) ensures Length(run) <= Remaining(s) {
      RunProgress(cfg, run, longest);
    }
    assert AllWithin(cfg, s, Remaining(s));
  }

  lemma GoesOnFromThree(mode: int)
    requires mode >= 3
    ensures !SchedulesEnd(FickleConfig(mode), WaitingAt(true))
  {
    forall bound: nat ensures !AllWithin(FickleConfig(mode), WaitingAt(true), bound) {
      var run := MovedForEver(mode, bound + 1);
      assert Length(run) > bound;
    }
  }

  /** Schedules end for every latency model, from every state that a run can reach and under any clock,
      if and only if the mode does not rebalance at admission. */
  lemma SchedulesEndExactly(mode: int)
    ensures (forall predict: Predictor, s: State, longest: nat ::
               Accounted(s, longest) ==> SchedulesEnd(Config(mode, predict), s))
       <==> mode < 3
  {
    if mode < 3 {
      forall predict: Predictor, s: State, longest: nat | Accounted(s, longest)
        ensures SchedulesEnd(Config(mode, predict), s)
      {
        EndsBelowThree(Config(mode, predict), s, longest);
      }
    } else {
      GoesOnFromThree(mode);
      StillWaiting(true);
    }
  }
}
