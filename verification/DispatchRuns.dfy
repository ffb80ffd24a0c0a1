/** The dispatcher as a step system: requests arrive, are admitted to a server and complete.

    A coroutine of the dispatcher runs without interruption between two awaits and never
    holds the shared lock across one, so each step is atomic.  The handlers of a server
    are interchangeable: an idle one exists as long as fewer than CONSUMERS requests run. */
module DispatchRuns {
  import opened ExtendedReals
  import opened RequestQueues
  import opened Servers
  import opened Rebalance

  /** Handler coroutines per server. */
  const CONSUMERS: nat := 64

  /** A request a handler is processing, with the dispatch stamp the handler recorded. */
  datatype Running = Running(req: Request, stamp: real)

  /** `mode` is the dispatching mode; `predict` the latency model. */
  datatype Config = Config(mode: int, predict: Predictor)

  datatype State = State(
    servers: seq<Server>, queues: seq<Queue>,
    running: seq<seq<Running>>, done: seq<Request>)

  datatype Step =
    | Arrive(req: Request, now: real)
    | Admit(server: nat, now: real, stamp: real)
    | Complete(server: nat, handler: nat)

  ghost predicate WellFormed(s: State) {
    && Matched(s.servers, s.queues)
    && |s.running| == |s.servers|
    && AllSorted(s.queues)
    && forall i :: 0 <= i < |s.servers| ==> s.servers[i].pp >= 1
  }

  // ---------- Arrive ----------

  function Loads(cfg: Config, now: real, sv: seq<Server>, qs: seq<Queue>, promptLen: int): (loads: seq<Extended>)
    requires |sv| == |qs| && forall i :: 0 <= i < |sv| ==> sv[i].pp >= 1
    ensures |loads| == |sv|
    ensures forall i :: 0 <= i < |sv| ==>
              loads[i] == Fin(Load(cfg.mode, Clocked(cfg.predict, now), sv[i], qs[i], promptLen))
  {
    seq(|sv|, i requires 0 <= i < |sv| => Fin(Load(cfg.mode, Clocked(cfg.predict, now), sv[i], qs[i], promptLen)))
  }

  /** The least loaded server, the first of them on a tie. */
  function ChosenServer(cfg: Config, now: real, sv: seq<Server>, qs: seq<Queue>, promptLen: int): (i: nat)
    requires Matched(sv, qs) && forall i :: 0 <= i < |sv| ==> sv[i].pp >= 1
    ensures i < |sv|
  {
    ArgMin(Loads(cfg, now, sv, qs, promptLen))
  }

  function AfterArrive(cfg: Config, s: State, r: Request, now: real): State
    requires WellFormed(s)
  {
    var i := ChosenServer(cfg, now, s.servers, s.queues, r.promptLen);
    s.(queues := s.queues[i := Insert(s.queues[i], r)])
  }

  // ---------- Admit ----------

  /** The admission gate: closed only when the server has both too many tokens and too many
      requests in flight. */
  predicate GateOpen(s: Server) {
    !(s.inFlightTokens > s.maxConcurrency && |s.inFlightLens| > s.pp)
  }

  predicate CanAdmit(s: State, i: nat)
    requires |s.servers| == |s.queues| == |s.running|
  {
    i < |s.servers| && s.queues[i] != [] && GateOpen(s.servers[i]) && |s.running[i]| < CONSUMERS
  }

  /** The server's record after one request with prompt length `p` was dispatched at `stamp`. */
  function Dispatched(s: Server, p: int, stamp: real): Server {
    s.(count := s.count + 1,
       inFlightLens := s.inFlightLens + [p],
       dispatchStamps := s.dispatchStamps + [stamp],
       inFlightTokens := s.inFlightTokens + p)
  }

  ghost function QueuesAtAdmission(cfg: Config, s: State, now: real): (qs: seq<Queue>)
    requires WellFormed(s)
    ensures |qs| == |s.queues|
  {
    if cfg.mode >= 3 then Rebalanced(Clocked(cfg.predict, now), s.servers, s.queues) else s.queues
  }

  ghost function AfterAdmit(cfg: Config, s: State, i: nat, now: real, stamp: real): State
    requires WellFormed(s) && i < |s.servers|
  {
    var qs := QueuesAtAdmission(cfg, s, now);
    if qs[i] == [] then s.(queues := qs)
    else
      var r := qs[i][0];
      s.(queues := qs[i := qs[i][1..]],
         servers := s.servers[i := Dispatched(s.servers[i], r.promptLen, stamp)],
         running := s.running[i := s.running[i] + [Running(r, stamp)]])
  }

  // ---------- Complete ----------

  /** `list.remove`: drops the first occurrence. */
  function RemoveFirst<T(==)>(s: seq<T>, x: T): (s': seq<T>)
    requires x in s
    ensures multiset(s') == multiset(s) - multiset{x}
    ensures |s'| == |s| - 1
  {
    assert s == [s[0]] + s[1..];
    if s[0] == x then s[1..] else [s[0]] + RemoveFirst(s[1..], x)
  }

  /** The server's record after a request with prompt length `p`, dispatched at `stamp`, completed.
      `remove` would raise if either value were missing from its list. */
  function Completed(s: Server, p: int, stamp: real): Server
    requires p in s.inFlightLens && stamp in s.dispatchStamps
  {
    s.(count := s.count - 1,
       inFlightLens := RemoveFirst(s.inFlightLens, p),
       dispatchStamps := RemoveFirst(s.dispatchStamps, stamp),
       inFlightTokens := s.inFlightTokens - p)
  }

  function Without<T>(s: seq<T>, k: nat): (s': seq<T>)
    requires k < |s|
    ensures multiset(s') + multiset{s[k]} == multiset(s)
    ensures |s'| == |s| - 1
  {
    assert s == s[..k] + [s[k]] + s[k + 1..];
    s[..k] + s[k + 1..]
  }

  predicate CanComplete(s: State, i: nat, k: nat)
    requires |s.servers| == |s.running|
  {
    i < |s.running| && k < |s.running[i]|
  }

  function AfterComplete(s: State, i: nat, k: nat): State
    requires |s.servers| == |s.running| && CanComplete(s, i, k)
    requires s.running[i][k].req.promptLen in s.servers[i].inFlightLens
    requires s.running[i][k].stamp in s.servers[i].dispatchStamps
  {
    var done := s.running[i][k];
    s.(servers := s.servers[i := Completed(s.servers[i], done.req.promptLen, done.stamp)],
       running := s.running[i := Without(s.running[i], k)],
       done := s.done + [done.req])
  }

  // ---------- Accounting ----------

  function Sum(xs: seq<int>): int {
    if xs == [] then 0 else xs[0] + Sum(xs[1..])
  }

  lemma {:induction false} SumAppend(xs: seq<int>, x: int)
    ensures Sum(xs + [x]) == Sum(xs) + x
  {
    if xs == [] {
      assert xs + [x] == [x];
    } else {
      SumAppend(xs[1..], x);
      assert (xs + [x])[1..] == xs[1..] + [x];
    }
  }

  lemma {:induction false} SumRemove(xs: seq<int>, x: int)
    requires x in xs
    ensures Sum(RemoveFirst(xs, x)) == Sum(xs) - x
  {
    if xs[0] != x {
      SumRemove(xs[1..], x);
      assert RemoveFirst(xs, x)[1..] == RemoveFirst(xs[1..], x);
    }
  }

  ghost function LensOf(rs: seq<Running>): seq<int> {
    seq(|rs|, i requires 0 <= i < |rs| => rs[i].req.promptLen)
  }

  ghost function StampsOf(rs: seq<Running>): seq<real> {
    seq(|rs|, i requires 0 <= i < |rs| => rs[i].stamp)
  }

  ghost function RequestsOf(rs: seq<Running>): seq<Request> {
    seq(|rs|, i requires 0 <= i < |rs| => rs[i].req)
  }

  lemma RunningAppend(rs: seq<Running>, r: Running)
    ensures LensOf(rs + [r]) == LensOf(rs) + [r.req.promptLen]
    ensures StampsOf(rs + [r]) == StampsOf(rs) + [r.stamp]
    ensures RequestsOf(rs + [r]) == RequestsOf(rs) + [r.req]
  {
  }

  lemma RunningWithout(rs: seq<Running>, k: nat)
    requires k < |rs|
    ensures LensOf(Without(rs, k)) == Without(LensOf(rs), k)
    ensures StampsOf(Without(rs, k)) == Without(StampsOf(rs), k)
    ensures RequestsOf(Without(rs, k)) == Without(RequestsOf(rs), k)
  {
  }

  /** The record of one server agrees with the requests its handlers are processing. */
  ghost predicate ServerAccounts(s: Server, rs: seq<Running>) {
    && s.count == |s.inFlightLens| == |s.dispatchStamps| == |rs| <= CONSUMERS
    && s.inFlightTokens == Sum(s.inFlightLens)
    && multiset(s.inFlightLens) == multiset(LensOf(rs))
    && multiset(s.dispatchStamps) == multiset(StampsOf(rs))
  }

  /** The server's load limit: it exceeds its concurrency limits by at most one request, the
      longest of which has `longest` tokens. */
  ghost predicate WithinLimits(s: Server, longest: nat) {
    |s.inFlightLens| <= s.pp + 1 || s.inFlightTokens <= s.maxConcurrency + longest
  }

  ghost predicate ServersAccount(sv: seq<Server>, running: seq<seq<Running>>, longest: nat)
    requires |sv| == |running|
  {
    forall i :: 0 <= i < |sv| ==> ServerAccounts(sv[i], running[i]) && WithinLimits(sv[i], longest)
  }

  ghost predicate QueuesFit(qs: seq<Queue>, longest: nat) {
    AllSorted(qs) && forall r :: r in Queued(qs) ==> r.promptLen <= longest
  }

  ghost predicate Accounted(s: State, longest: nat) {
    WellFormed(s) && ServersAccount(s.servers, s.running, longest) && QueuesFit(s.queues, longest)
  }

  /** One server's record and its running requests change together. */
  lemma ServerChanges(sv: seq<Server>, running: seq<seq<Running>>, longest: nat, i: nat, v: Server, rs: seq<Running>)
    requires |sv| == |running| && i < |sv| && ServersAccount(sv, running, longest)
    requires ServerAccounts(v, rs) && WithinLimits(v, longest)
    ensures ServersAccount(sv[i := v], running[i := rs], longest)
  {
  }

  lemma DispatchedAccounts(s: Server, rs: seq<Running>, r: Request, stamp: real, longest: nat)
    requires ServerAccounts(s, rs) && GateOpen(s) && |rs| < CONSUMERS && r.promptLen <= longest
    ensures ServerAccounts(Dispatched(s, r.promptLen, stamp), rs + [Running(r, stamp)])
    ensures WithinLimits(Dispatched(s, r.promptLen, stamp), longest)
  {
    SumAppend(s.inFlightLens, r.promptLen);
    RunningAppend(rs, Running(r, stamp));
  }

  lemma RemoveMatches<T>(xs: seq<T>, ys: seq<T>, k: nat)
    requires multiset(xs) == multiset(ys) && k < |ys|
    ensures ys[k] in xs
    ensures multiset(RemoveFirst(xs, ys[k])) == multiset(Without(ys, k))
  {
    assert ys[k] in multiset(ys);
    assert multiset(ys) == multiset(Without(ys, k)) + multiset{ys[k]};
  }

  /** Completing never makes `remove` raise, whichever handler finishes first. */
  lemma CompletedAccounts(s: Server, rs: seq<Running>, k: nat, longest: nat)
    requires ServerAccounts(s, rs) && k < |rs| && WithinLimits(s, longest)
    ensures rs[k].req.promptLen in s.inFlightLens && rs[k].stamp in s.dispatchStamps
    ensures ServerAccounts(Completed(s, rs[k].req.promptLen, rs[k].stamp), Without(rs, k))
    ensures WithinLimits(Completed(s, rs[k].req.promptLen, rs[k].stamp), longest)
  {
    RemoveMatches(s.inFlightLens, LensOf(rs), k);
    RemoveMatches(s.dispatchStamps, StampsOf(rs), k);
    RunningWithout(rs, k);
    SumRemove(s.inFlightLens, rs[k].req.promptLen);
  }

  // ---------- Runs ----------

  /** Whether the step can be taken. */
  ghost predicate Enabled(s: State, step: Step)
    requires WellFormed(s)
  {
    match step
    case Arrive(_, _) => true
    case Admit(i, _, _) => CanAdmit(s, i)
    case Complete(i, k) => CanComplete(s, i, k)
  }

  /** Whether the two `remove` calls of a completion find their values. */
  ghost predicate RemoveSucceeds(s: State, i: nat, k: nat)
    requires |s.servers| == |s.running| && CanComplete(s, i, k)
  {
    && s.running[i][k].req.promptLen in s.servers[i].inFlightLens
    && s.running[i][k].stamp in s.servers[i].dispatchStamps
  }

  /** The step leads from `s` to `s'`.  Nothing is said of a completion that raises. */
  ghost predicate Follows(cfg: Config, s: State, step: Step, s': State) {
    WellFormed(s) && Enabled(s, step) &&
    match step
    case Arrive(r, now) => s' == AfterArrive(cfg, s, r, now)
    case Admit(i, now, stamp) => s' == AfterAdmit(cfg, s, i, now, stamp)
    case Complete(i, k) => RemoveSucceeds(s, i, k) ==> s' == AfterComplete(s, i, k)
  }

  ghost predicate StepFits(step: Step, longest: nat) {
    step.Arrive? ==> step.req.promptLen <= longest
  }

  lemma RebalancedQueued(cfg: Config, s: State, now: real)
    requires WellFormed(s)
    ensures AllSorted(QueuesAtAdmission(cfg, s, now))
    ensures Queued(QueuesAtAdmission(cfg, s, now)) <= Queued(s.queues)
  {
    var c := Clocked(cfg.predict, now);
    RebalancePreserves(c, s.servers, s.queues);
    RebalanceLosesExactly(c, s.servers, s.queues);
  }

  /** Replacing one part of a whole by a part with one element more, or less. */
  lemma ReplacePart<T>(whole: multiset<T>, part: multiset<T>, part': multiset<T>, x: T)
    requires part <= whole
    ensures part' == part + multiset{x} ==> whole - part + part' == whole + multiset{x}
    ensures part == part' + multiset{x} ==> whole - part + part' + multiset{x} == whole
  {
  }

  lemma PopQueued(qs: seq<Queue>, i: nat)
    requires i < |qs| && qs[i] != []
    ensures Queued(qs[i := qs[i][1..]]) + multiset{qs[i][0]} == Queued(qs)
  {
    QueuedUpdate(qs, i, qs[i][1..]);
    assert qs[i] == [qs[i][0]] + qs[i][1..];
    ReplacePart(Queued(qs), multiset(qs[i]), multiset(qs[i][1..]), qs[i][0]);
  }

  lemma InsertPart<T>(whole: multiset<T>, part: multiset<T>, part': multiset<T>, lost: multiset<T>, x: T)
    requires part <= whole && part' + lost == part + multiset{x}
    ensures whole - part + part' + lost == whole + multiset{x}
  {
    calc {
      whole - part + part' + lost;
      whole - part + (part' + lost);
      whole - part + (part + multiset{x});
      whole + multiset{x};
    }
  }

  lemma InsertQueued(qs: seq<Queue>, i: nat, r: Request)
    requires i < |qs|
    ensures Queued(qs[i := Insert(qs[i], r)]) + Displaced(qs[i], r) == Queued(qs) + multiset{r}
  {
    InsertContents(qs[i], r);
    QueuedUpdate(qs, i, Insert(qs[i], r));
    InsertPart(Queued(qs), multiset(qs[i]), multiset(Insert(qs[i], r)), Displaced(qs[i], r), r);
  }

  lemma AtMostLongest(m: multiset<Request>, n: multiset<Request>, longest: nat)
    requires m <= n && forall r :: r in n ==> r.promptLen <= longest
    ensures forall r :: r in m ==> r.promptLen <= longest
  {
    forall r | r in m ensures r.promptLen <= longest { assert r in n; }
  }

  lemma UpdateSorted(qs: seq<Queue>, i: nat, q: Queue)
    requires i < |qs| && AllSorted(qs) && Sorted(q)
    ensures AllSorted(qs[i := q])
  {
  }

  lemma InsertFits(qs: seq<Queue>, i: nat, r: Request, longest: nat)
    requires i < |qs| && QueuesFit(qs, longest) && r.promptLen <= longest
    ensures QueuesFit(qs[i := Insert(qs[i], r)], longest)
  {
    InsertSorted(qs[i], r);
    UpdateSorted(qs, i, Insert(qs[i], r));
    InsertQueued(qs, i, r);
    PartOfFits(Queued(qs[i := Insert(qs[i], r)]), Displaced(qs[i], r), Queued(qs), r, longest);
  }

  lemma PartOfFits(part: multiset<Request>, lost: multiset<Request>, whole: multiset<Request>, x: Request, longest: nat)
    requires part + lost == whole + multiset{x}
    requires x.promptLen <= longest && forall r :: r in whole ==> r.promptLen <= longest
    ensures forall r :: r in part ==> r.promptLen <= longest
  {
    forall r | r in part ensures r.promptLen <= longest {
      assert r in part + lost;
      assert r in whole || r == x;
    }
  }

  lemma ArriveAccounted(cfg: Config, s: State, r: Request, now: real, longest: nat)
    requires Accounted(s, longest) && r.promptLen <= longest
    ensures Accounted(AfterArrive(cfg, s, r, now), longest)
  {
    InsertFits(s.queues, ChosenServer(cfg, now, s.servers, s.queues, r.promptLen), r, longest);
  }

  lemma PopFits(qs: seq<Queue>, i: nat, longest: nat)
    requires i < |qs| && qs[i] != [] && QueuesFit(qs, longest)
    ensures qs[i][0].promptLen <= longest
    ensures QueuesFit(qs[i := qs[i][1..]], longest)
  {
    PopQueued(qs, i);
    assert Sorted(qs[i]);
    UpdateSorted(qs, i, qs[i][1..]);
    PartsOf(Queued(qs[i := qs[i][1..]]), qs[i][0], Queued(qs), longest);
  }

  lemma PartsOf(part: multiset<Request>, x: Request, whole: multiset<Request>, longest: nat)
    requires part + multiset{x} == whole && forall r :: r in whole ==> r.promptLen <= longest
    ensures x.promptLen <= longest && forall r :: r in part ==> r.promptLen <= longest
  {
    assert x in whole;
    AtMostLongest(part, whole, longest);
  }

  lemma RebalancedFit(cfg: Config, s: State, now: real, longest: nat)
    requires WellFormed(s) && QueuesFit(s.queues, longest)
    ensures QueuesFit(QueuesAtAdmission(cfg, s, now), longest)
  {
    RebalancedQueued(cfg, s, now);
    AtMostLongest(Queued(QueuesAtAdmission(cfg, s, now)), Queued(s.queues), longest);
  }

  lemma AdmitAccounted(cfg: Config, s: State, i: nat, now: real, stamp: real, longest: nat)
    requires Accounted(s, longest) && CanAdmit(s, i)
    ensures Accounted(AfterAdmit(cfg, s, i, now, stamp), longest)
  {
    RebalancedFit(cfg, s, now, longest);
    var qs := QueuesAtAdmission(cfg, s, now);
    if qs[i] != [] {
      var r := qs[i][0];
      PopFits(qs, i, longest);
      DispatchedAccounts(s.servers[i], s.running[i], r, stamp, longest);
      ServerChanges(s.servers, s.running, longest, i, Dispatched(s.servers[i], r.promptLen, stamp),
                    s.running[i] + [Running(r, stamp)]);
    }
  }

  lemma CompleteAccounted(s: State, i: nat, k: nat, longest: nat)
    requires Accounted(s, longest) && CanComplete(s, i, k)
    ensures RemoveSucceeds(s, i, k)
    ensures Accounted(AfterComplete(s, i, k), longest)
  {
    var r := s.running[i][k];
    CompletedAccounts(s.servers[i], s.running[i], k, longest);
    ServerChanges(s.servers, s.running, longest, i, Completed(s.servers[i], r.req.promptLen, r.stamp),
                  Without(s.running[i], k));
  }

  /** Every step keeps the accounting. */
  lemma StepAccounted(cfg: Config, s: State, step: Step, s': State, longest: nat)
    requires Accounted(s, longest) && Follows(cfg, s, step, s') && StepFits(step, longest)
    ensures Accounted(s', longest)
    ensures step.Complete? ==> RemoveSucceeds(s, step.server, step.handler)
  {
    match step
    case Arrive(r, now) => ArriveAccounted(cfg, s, r, now, longest);
    case Admit(i, now, stamp) => AdmitAccounted(cfg, s, i, now, stamp, longest);
    case Complete(i, k) => CompleteAccounted(s, i, k, longest);
  }

  /** A run: a first state, and each further step with the state it led to. */
  datatype Run = Begin(start: State) | Then(before: Run, step: Step, state: State)

  function Last(run: Run): State {
    if run.Begin? then run.start else run.state
  }

  function First(run: Run): State {
    if run.Begin? then run.start else First(run.before)
  }

  ghost predicate IsRun(cfg: Config, run: Run) {
    run.Then? ==> IsRun(cfg, run.before) && Follows(cfg, Last(run.before), run.step, run.state)
  }

  /** No prompt that arrives has more than `longest` tokens. */
  ghost predicate Fits(run: Run, longest: nat) {
    run.Then? ==> Fits(run.before, longest) && StepFits(run.step, longest)
  }

  /** Accounting holds after every run. */
  lemma {:induction false} RunAccounted(cfg: Config, run: Run, longest: nat)
    requires IsRun(cfg, run) && Fits(run, longest) && Accounted(First(run), longest)
    ensures Accounted(Last(run), longest)
    decreases run
  {
    if run.Then? {
      RunAccounted(cfg, run.before, longest);
      StepAccounted(cfg, Last(run.before), run.step, run.state, longest);
    }
  }

  // ---------- Conservation ----------

  ghost function InFlight(running: seq<seq<Running>>): multiset<Request> {
    if running == [] then multiset{} else multiset(RequestsOf(running[0])) + InFlight(running[1..])
  }

  lemma {:induction false} InFlightUpdate(running: seq<seq<Running>>, i: nat, rs: seq<Running>)
    requires i < |running|
    ensures multiset(RequestsOf(running[i])) <= InFlight(running)
    ensures InFlight(running[i := rs])
         == InFlight(running) - multiset(RequestsOf(running[i])) + multiset(RequestsOf(rs))
  {
    if i > 0 {
      InFlightUpdate(running[1..], i - 1, rs);
      assert running[i := rs][1..] == running[1..][i - 1 := rs];
    } else {
      assert running[i := rs][1..] == running[1..];
    }
  }

  /** Every request the dispatcher still knows of. */
  ghost function Present(s: State): multiset<Request> {
    Queued(s.queues) + InFlight(s.running) + multiset(s.done)
  }

  ghost function Arriving(step: Step): multiset<Request> {
    if step.Arrive? then multiset{step.req} else multiset{}
  }

  /** The requests a step overwrites in some queue. */
  ghost function Loses(cfg: Config, s: State, step: Step): multiset<Request>
    requires WellFormed(s)
  {
    match step
    case Arrive(r, now) => Displaced(s.queues[ChosenServer(cfg, now, s.servers, s.queues, r.promptLen)], r)
    case Admit(i, now, _) =>
      if cfg.mode >= 3 then RebalanceLoses(Clocked(cfg.predict, now), s.servers, s.queues) else multiset{}
    case Complete(_, _) => multiset{}
  }

  /** The step stores no request where one with the same timestamp waits already. */
  ghost predicate StepIsFree(cfg: Config, s: State, step: Step)
    requires WellFormed(s)
  {
    match step
    case Arrive(r, now) =>
      forall x :: x in s.queues[ChosenServer(cfg, now, s.servers, s.queues, r.promptLen)] ==> x.timestamp != r.timestamp
    case Admit(i, now, _) => cfg.mode >= 3 ==> RebalanceIsFree(Clocked(cfg.predict, now), s.servers, s.queues)
    case Complete(_, _) => true
  }

  lemma StepLosesExactly(cfg: Config, s: State, step: Step)
    requires WellFormed(s)
    ensures Loses(cfg, s, step) == multiset{} <==> StepIsFree(cfg, s, step)
  {
    match step
    case Arrive(r, now) =>
      var i := ChosenServer(cfg, now, s.servers, s.queues, r.promptLen);
      assert Sorted(s.queues[i]);
      DisplacedExactly(s.queues[i], r);
    case Admit(i, now, _) => RebalanceLosesExactly(Clocked(cfg.predict, now), s.servers, s.queues);
    case Complete(_, _) =>
  }

  lemma ArriveConserves(cfg: Config, s: State, r: Request, now: real)
    requires WellFormed(s)
    ensures Present(AfterArrive(cfg, s, r, now)) + Loses(cfg, s, Arrive(r, now)) == Present(s) + multiset{r}
  {
    var i := ChosenServer(cfg, now, s.servers, s.queues, r.promptLen);
    InsertQueued(s.queues, i, r);
    Grow(Queued(AfterArrive(cfg, s, r, now).queues), Displaced(s.queues[i], r), Queued(s.queues), multiset{r},
         InFlight(s.running), multiset(s.done));
  }

  lemma Grow<T>(a': multiset<T>, lost: multiset<T>, a: multiset<T>, x: multiset<T>, b: multiset<T>, d: multiset<T>)
    requires a' + lost == a + x
    ensures a' + b + d + lost == a + b + d + x
  {
    calc {
      a' + b + d + lost;
      (a' + lost) + b + d;
      a + b + d + x;
    }
  }

  lemma StartInFlight(running: seq<seq<Running>>, i: nat, r: Running)
    requires i < |running|
    ensures InFlight(running[i := running[i] + [r]]) == InFlight(running) + multiset{r.req}
  {
    RunningAppend(running[i], r);
    InFlightUpdate(running, i, running[i] + [r]);
    ReplacePart(InFlight(running), multiset(RequestsOf(running[i])),
                multiset(RequestsOf(running[i] + [r])), r.req);
  }

  lemma FinishInFlight(running: seq<seq<Running>>, i: nat, k: nat)
    requires i < |running| && k < |running[i]|
    ensures InFlight(running[i := Without(running[i], k)]) + multiset{running[i][k].req} == InFlight(running)
  {
    var rs := RequestsOf(running[i]);
    RunningWithout(running[i], k);
    InFlightUpdate(running, i, Without(running[i], k));
    assert multiset(rs) == multiset(Without(rs, k)) + multiset{rs[k]};
    ReplacePart(InFlight(running), multiset(rs), multiset(Without(rs, k)), rs[k]);
  }

  /** Moving one element between parts and dropping some others. */
  lemma MovedBetween<T>(a: multiset<T>, a': multiset<T>, b: multiset<T>, b': multiset<T>, rest: multiset<T>,
                        x: multiset<T>, lost: multiset<T>, whole: multiset<T>)
    requires a' + x == a && b' == b + x && a + lost == whole
    ensures a' + b' + rest + lost == whole + b + rest
  {
    calc {
      a' + b' + rest + lost;
      (a' + x) + lost + b + rest;
      whole + b + rest;
    }
  }

  lemma AdmitConserves(cfg: Config, s: State, i: nat, now: real, stamp: real)
    requires WellFormed(s) && i < |s.servers|
    ensures Present(AfterAdmit(cfg, s, i, now, stamp)) + Loses(cfg, s, Admit(i, now, stamp)) == Present(s)
  {
    RebalancePreserves(Clocked(cfg.predict, now), s.servers, s.queues);
    var lost := Loses(cfg, s, Admit(i, now, stamp));
    var qs := QueuesAtAdmission(cfg, s, now);
    var s' := AfterAdmit(cfg, s, i, now, stamp);
    var moved := multiset{};
    if qs[i] != [] {
      PopQueued(qs, i);
      StartInFlight(s.running, i, Running(qs[i][0], stamp));
      moved := multiset{qs[i][0]};
    }
    MovedBetween(Queued(qs), Queued(s'.queues), InFlight(s.running), InFlight(s'.running), multiset(s.done),
                 moved, lost, Queued(s.queues));
  }

  lemma CompleteConserves(s: State, i: nat, k: nat)
    requires |s.servers| == |s.running| && CanComplete(s, i, k)
    requires s.running[i][k].req.promptLen in s.servers[i].inFlightLens
    requires s.running[i][k].stamp in s.servers[i].dispatchStamps
    ensures Present(AfterComplete(s, i, k)) == Present(s)
  {
    FinishInFlight(s.running, i, k);
    var r := s.running[i][k].req;
    assert multiset(s.done + [r]) == multiset(s.done) + multiset{r};
  }

  /** Everything that arrived during the run. */
  ghost function Arrivals(run: Run): multiset<Request> {
    if run.Begin? then multiset{} else Arrivals(run.before) + Arriving(run.step)
  }

  /** Everything that was overwritten during the run. */
  ghost function Lost(cfg: Config, run: Run): multiset<Request>
    requires IsRun(cfg, run)
  {
    if run.Begin? then multiset{} else Lost(cfg, run.before) + Loses(cfg, Last(run.before), run.step)
  }

  lemma StepConserves(cfg: Config, s: State, step: Step, s': State, longest: nat)
    requires Accounted(s, longest) && Follows(cfg, s, step, s')
    ensures Present(s') + Loses(cfg, s, step) == Present(s) + Arriving(step)
  {
    match step
    case Arrive(r, now) => ArriveConserves(cfg, s, r, now);
    case Admit(i, now, stamp) => AdmitConserves(cfg, s, i, now, stamp);
    case Complete(i, k) =>
      CompleteAccounted(s, i, k, longest);
      CompleteConserves(s, i, k);
  }

  lemma Chain<T>(end: multiset<T>, lost: multiset<T>, mid: multiset<T>, lostBefore: multiset<T>,
                 start: multiset<T>, arrived: multiset<T>, now: multiset<T>)
    requires mid + lostBefore == start + arrived && end + lost == mid + now
    ensures end + (lostBefore + lost) == start + (arrived + now)
  {
    calc {
      end + (lostBefore + lost);
      (end + lost) + lostBefore;
      (mid + lostBefore) + now;
      start + (arrived + now);
    }
  }

  /** Over every run each request that was there or arrived is, with its multiplicity, still
      present or was overwritten. */
  lemma {:induction false} RunConserves(cfg: Config, run: Run, longest: nat)
    requires IsRun(cfg, run) && Fits(run, longest) && Accounted(First(run), longest)
    ensures Present(Last(run)) + Lost(cfg, run) == Present(First(run)) + Arrivals(run)
    decreases run
  {
    if run.Then? {
      var s := Last(run.before);
      RunConserves(cfg, run.before, longest);
      RunAccounted(cfg, run.before, longest);
      StepConserves(cfg, s, run.step, run.state, longest);
      Chain(Present(run.state), Loses(cfg, s, run.step), Present(s), Lost(cfg, run.before),
            Present(First(run)), Arrivals(run.before), Arriving(run.step));
    }
  }

  /** A step is free of collisions when the requests at hand have distinct timestamps. */
  lemma DistinctStepIsFree(cfg: Config, s: State, step: Step)
    requires WellFormed(s)
    requires DistinctKeys(Present(s) + Arriving(step))
    ensures StepIsFree(cfg, s, step)
  {
    match step
    case Arrive(r, now) =>
      var i := ChosenServer(cfg, now, s.servers, s.queues, r.promptLen);
      QueuedUpdate(s.queues, i, []);
      var all := Present(s) + Arriving(step);
      forall x | x in s.queues[i] ensures x.timestamp != r.timestamp {
        assert x in multiset(s.queues[i]);
        assert x in Queued(s.queues);
        assert x in Present(s);
        assert x in all && r in all;
        assert all[r] == Present(s)[r] + 1 == 1;
      }
    case Admit(i, now, stamp) =>
      assert Queued(s.queues) <= Present(s) + Arriving(step);
      DistinctKeysSubset(Queued(s.queues), Present(s) + Arriving(step));
      RebalanceLosesExactly(Clocked(cfg.predict, now), s.servers, s.queues);
    case Complete(_, _) =>
  }

  /** No step of the run stores a request over another. */
  ghost predicate IsFree(cfg: Config, run: Run)
    requires IsRun(cfg, run)
  {
    run.Then? ==> IsFree(cfg, run.before) && StepIsFree(cfg, Last(run.before), run.step)
  }

  lemma {:induction false} RunLosesExactly(cfg: Config, run: Run)
    requires IsRun(cfg, run)
    ensures Lost(cfg, run) == multiset{} <==> IsFree(cfg, run)
  {
    if run.Then? {
      var before, now := Lost(cfg, run.before), Loses(cfg, Last(run.before), run.step);
      RunLosesExactly(cfg, run.before);
      StepLosesExactly(cfg, Last(run.before), run.step);
      assert before <= before + now && now <= before + now;
    }
  }

  lemma DistinctSplit(start: multiset<Request>, before: multiset<Request>, now: multiset<Request>)
    requires DistinctKeys(start + (before + now))
    ensures DistinctKeys(start + before)
    ensures DistinctKeys((start + before) + now)
  {
    assert (start + before) + now == start + (before + now);
    DistinctKeysSubset(start + before, start + (before + now));
  }

  /** With distinct timestamps no run loses a request. */
  lemma {:induction false} DistinctRunIsFree(cfg: Config, run: Run, longest: nat)
    requires IsRun(cfg, run) && Fits(run, longest) && Accounted(First(run), longest)
    requires DistinctKeys(Present(First(run)) + Arrivals(run))
    ensures IsFree(cfg, run)
    decreases run
  {
    if run.Then? {
      var s, start := Last(run.before), Present(First(run));
      DistinctSplit(start, Arrivals(run.before), Arriving(run.step));
      DistinctRunIsFree(cfg, run.before, longest);
      RunLosesExactly(cfg, run.before);
      RunConserves(cfg, run.before, longest);
      RunAccounted(cfg, run.before, longest);
      NothingLost(Present(s), Lost(cfg, run.before), start + Arrivals(run.before));
      DistinctStepIsFree(cfg, s, run.step);
    }
  }

  /** No server holds anything yet. */
  ghost predicate Initial(s: State) {
    && WellFormed(s)
    && s.done == []
    && (forall i :: 0 <= i < |s.queues| ==> s.queues[i] == [] && s.running[i] == [])
    && (forall i :: 0 <= i < |s.servers| ==>
          var v := s.servers[i];
          v.count == 0 && v.inFlightTokens == 0 && v.inFlightLens == [] && v.dispatchStamps == [])
  }

  lemma {:induction false} AllEmpty(qs: seq<Queue>, running: seq<seq<Running>>)
    requires |qs| == |running|
    requires forall i :: 0 <= i < |qs| ==> qs[i] == [] && running[i] == []
    ensures Queued(qs) == multiset{} && InFlight(running) == multiset{}
  {
    if qs != [] { AllEmpty(qs[1..], running[1..]); }
  }

  lemma InitialAccounted(s: State, longest: nat)
    requires Initial(s)
    ensures Accounted(s, longest) && Present(s) == multiset{}
  {
    AllEmpty(s.queues, s.running);
  }

  lemma InitialRunIsFree(cfg: Config, run: Run, longest: nat)
    requires IsRun(cfg, run) && Fits(run, longest) && Initial(First(run))
    requires DistinctKeys(Arrivals(run))
    ensures IsFree(cfg, run)
  {
    InitialAccounted(First(run), longest);
    assert Present(First(run)) + Arrivals(run) == Arrivals(run);
    DistinctRunIsFree(cfg, run, longest);
  }

  /** Request conservation: after a run from the initial state the requests present are those that
      arrived, with their multiplicities, if and only if no request was ever stored where one
      with the same timestamp was waiting. */
  lemma RequestConservation(cfg: Config, run: Run, longest: nat)
    requires IsRun(cfg, run) && Fits(run, longest) && Initial(First(run))
    ensures Present(Last(run)) == Arrivals(run) <==> IsFree(cfg, run)
  {
    InitialAccounted(First(run), longest);
    RunConserves(cfg, run, longest);
    RunLosesExactly(cfg, run);
    assert Present(First(run)) + Arrivals(run) == Arrivals(run);
  }

  /** If all timestamps differ, every request that arrived is in exactly one place, exactly once:
      waiting, being processed, or resolved. */
  lemma EachRequestOnce(cfg: Config, run: Run, longest: nat, r: Request)
    requires IsRun(cfg, run) && Fits(run, longest) && Initial(First(run))
    requires DistinctKeys(Arrivals(run))
    ensures var end := Last(run);
            Queued(end.queues)[r] + InFlight(end.running)[r] + multiset(end.done)[r]
            == if r in Arrivals(run) then 1 else 0
  {
    InitialRunIsFree(cfg, run, longest);
    RequestConservation(cfg, run, longest);
    assert Present(Last(run))[r] == Arrivals(run)[r];
  }

  /** Two different requests with one timestamp: the second is stored over the first, so a run that
      two arrivals make does not conserve its requests. */
  lemma SharedTimestampLosesRequest(cfg: Config, s: State, a: Request, b: Request, now: real)
    requires Initial(s) && |s.servers| == 1
    requires a.timestamp == b.timestamp && a != b
    ensures var s1 := AfterArrive(cfg, s, a, now);
            && WellFormed(s1)
            && var run := Then(Then(Begin(s), Arrive(a, now), s1), Arrive(b, now), AfterArrive(cfg, s1, b, now));
               && IsRun(cfg, run)
               && Arrivals(run) == multiset{a, b}
               && Present(Last(run)) == multiset{b} != Arrivals(run)
  {
    assert s.queues == [[]];
    var s1 := AfterArrive(cfg, s, a, now);
    assert s1.queues == [[a]];
    var s2 := AfterArrive(cfg, s1, b, now);
    assert s2.queues == [[b]] by { assert Insert([a], b) == [b]; }
    assert Follows(cfg, s, Arrive(a, now), s1) && Follows(cfg, s1, Arrive(b, now), s2);
    var start := Begin(s);
    var first := Then(start, Arrive(a, now), s1);
    var run := Then(first, Arrive(b, now), s2);
    assert IsRun(cfg, start) && Last(start) == s && Last(first) == s1;
    assert Arrivals(first) == multiset{a} by { assert Arrivals(start) == multiset{}; }
    assert Arrivals(run) == multiset{a} + multiset{b};
    AllEmpty(s.queues, s.running);
    assert Queued(s2.queues) == multiset{b};
  }
}
