/** The dispatcher's mutable state and the operations its coroutines perform on it. */
module Dispatcher {
  import opened ExtendedReals
  import opened RequestQueues
  import opened Servers
  import opened Rebalance
  import opened RebalanceTraces
  import opened DispatchRuns
  import opened DispatchRules

  class ServerStat {
    const maxConcurrency: int
    const overhead: real
    const tp: int
    const pp: int
    var inFlightTokens: int
    var count: int
    var inFlightLens: seq<int>
    var dispatchStamps: seq<real>

    constructor (maxConcurrency: int, overhead: real, tp: int, pp: int)
      ensures View() == Server(maxConcurrency, overhead, tp, pp, 0, 0, [], [])
    {
      this.maxConcurrency, this.overhead, this.tp, this.pp := maxConcurrency, overhead, tp, pp;
      inFlightTokens, count, inFlightLens, dispatchStamps := 0, 0, [], [];
    }

    function View(): Server
      reads this
    {
      Server(maxConcurrency, overhead, tp, pp, inFlightTokens, count, inFlightLens, dispatchStamps)
    }

    /** Asks the latency model about one request. */
    method EstimateRequestLatency(c: Clocked, queueTokens: int, promptLen: int) returns (latency: real)
      ensures latency == RequestLatency(c, View(), queueTokens, promptLen)
    {
      var progress := 0.0;
      var n := Min(|inFlightLens|, |dispatchStamps|);
      for k := 0 to n
        invariant progress == WeightedProgress(inFlightLens, dispatchStamps, c.now, k)
      {
        progress := progress + (c.now - dispatchStamps[k]) * inFlightLens[k] as real;
      }
      if inFlightTokens > 0 {
        progress := progress / inFlightTokens as real;
      } else {
        progress := 0.0;
      }
      latency := c.predict(Features(tp, pp, inFlightTokens, progress, queueTokens, |inFlightLens|, promptLen));
    }

    /** The greatest latency among the requests of a queue. */
    method EstimateMaxLatency(c: Clocked, q: Queue) returns (maxLatency: Latency)
      ensures maxLatency == QueueLatency(c, View(), q)
    {
      maxLatency := NegInf;
      var queueTokens := 0;
      for k := 0 to |q|
        invariant queueTokens == Tokens(q[..k])
        invariant maxLatency == ServerLatency(c, View(), q, k)
      {
        var latency := EstimateRequestLatency(c, queueTokens, q[k].promptLen);
        latency := latency + (c.now - q[k].timestamp);
        assert q[..k + 1] == q[..k] + [q[k]];
        TokensAppend(q[..k], q[k]);
        queueTokens := queueTokens + q[k].promptLen;
        if Less(maxLatency, Fin(latency)) {
          maxLatency := Fin(latency);
        }
      }
      assert q[..|q|] == q;
    }

    /** The load by which an arriving request compares this server. */
    method EstimateLoad(mode: int, c: Clocked, q: Queue, promptLen: int) returns (load: real)
      requires pp >= 1
      ensures load == Load(mode, c, View(), q, promptLen)
    {
      if mode <= 0 {
        load := (inFlightTokens + Tokens(q)) as real;
      } else {
        load := inFlightTokens as real / pp as real + Tokens(q) as real;
        load := (load + (promptLen * pp) as real) * overhead;
        if mode >= 2 {
          load := EstimateRequestLatency(c, Tokens(q), promptLen);
        }
      }
    }

    method Dispatch(promptLen: int, stamp: real)
      modifies this
      ensures View() == Dispatched(old(View()), promptLen, stamp)
    {
      count := count + 1;
      inFlightLens := inFlightLens + [promptLen];
      dispatchStamps := dispatchStamps + [stamp];
      inFlightTokens := inFlightTokens + promptLen;
    }

    method Finish(promptLen: int, stamp: real)
      requires promptLen in inFlightLens && stamp in dispatchStamps
      modifies this
      ensures View() == Completed(old(View()), promptLen, stamp)
    {
      count := count - 1;
      inFlightLens := RemoveFirst(inFlightLens, promptLen);
      dispatchStamps := RemoveFirst(dispatchStamps, stamp);
      inFlightTokens := inFlightTokens - promptLen;
    }
  }

  class RequestDispatcher {
    const mode: int
    const predict: Predictor
    const servers: seq<ServerStat>
    var queues: seq<Queue>
    var running: seq<seq<Running>>
    var done: seq<Request>

    ghost predicate Valid()
      reads this, servers
    {
      && (forall i, j :: 0 <= i < j < |servers| ==> servers[i] != servers[j])
      && WellFormed(View())
    }

    constructor (mode: int, predict: Predictor, servers: seq<ServerStat>)
      requires servers != []
      requires forall i, j :: 0 <= i < j < |servers| ==> servers[i] != servers[j]
      requires forall i :: 0 <= i < |servers| ==>
                 servers[i].pp >= 1 && servers[i].View() == Server(servers[i].maxConcurrency, servers[i].overhead,
                                                                   servers[i].tp, servers[i].pp, 0, 0, [], [])
      ensures Valid() && Initial(View())
      ensures this.mode == mode && this.predict == predict && this.servers == servers
    {
      this.mode, this.predict, this.servers := mode, predict, servers;
      queues := seq(|servers|, _ => []);
      running := seq(|servers|, _ => []);
      done := [];
    }

    function Stats(): (sv: seq<Server>)
      reads servers
      ensures |sv| == |servers|
      ensures forall i :: 0 <= i < |servers| ==> sv[i] == servers[i].View()
    {
      seq(|servers|, i requires 0 <= i < |servers| reads servers => servers[i].View())
    }

    function View(): State
      reads this, servers
    {
      State(Stats(), queues, running, done)
    }

    function Settings(): Config {
      Config(mode, predict)
    }

    /** Picks the server whose load is least, the first of them on a tie. */
    method ChooseServer(r: Request, now: real) returns (best: nat)
      requires Valid()
      ensures best == ChosenServer(Settings(), now, Stats(), queues, r.promptLen)
    {
      var c := Clocked(predict, now);
      ghost var loads := Loads(Settings(), now, Stats(), queues, r.promptLen);
      var chosen, bestLoad := false, 0.0;
      best := 0;
      for i := 0 to |servers|
        invariant chosen == (i > 0)
        invariant chosen ==> best < i && loads[best] == Fin(bestLoad)
        invariant forall k :: 0 <= k < i ==> !Less(loads[k], loads[best])
        invariant chosen ==> forall k :: 0 <= k < best ==> Less(loads[best], loads[k])
      {
        assert Stats()[i] == servers[i].View();
        var load := servers[i].EstimateLoad(mode, c, queues[i], r.promptLen);
        if !chosen || load < bestLoad {
          chosen, bestLoad, best := true, load, i;
        }
      }
    }

    /** A request arrives and is stored in the queue of the chosen server. */
    method Enqueue(r: Request, now: real)
      requires Valid()
      modifies this`queues
      ensures Valid()
      ensures View() == AfterArrive(Settings(), old(View()), r, now)
    {
      var i := ChooseServer(r, now);
      assert Sorted(queues[i]);
      InsertSorted(queues[i], r);
      queues := queues[i := Insert(queues[i], r)];
    }

    method ServerLatencies(c: Clocked) returns (lat: seq<Latency>)
      requires Matched(Stats(), queues)
      ensures lat == Latencies(c, Stats(), queues)
    {
      lat := [];
      for i := 0 to |servers|
        invariant |lat| == i
        invariant forall k :: 0 <= k < i ==> lat[k] == QueueLatency(c, Stats()[k], queues[k])
      {
        var l := servers[i].EstimateMaxLatency(c, queues[i]);
        lat := lat + [l];
      }
    }

    /** Finds the two extreme servers and simulates the move. */
    method Simulate(c: Clocked) returns (h: nat, l: nat, improves: bool)
      requires Matched(Stats(), queues)
      ensures h == High(c, Stats(), queues) && l == Low(c, Stats(), queues)
      ensures improves == Improves(c, Stats(), queues)
    {
      var lat := ServerLatencies(c);
      h, l := ArgMax(lat), ArgMin(lat);
      if h == l || queues[h] == [] {
        return h, l, false;
      }
      var newHigh := servers[h].EstimateMaxLatency(c, queues[h][1..]);
      var newLow := servers[l].EstimateMaxLatency(c, Insert(queues[l], queues[h][0]));
      improves := Less(MaxLatency(newHigh, newLow), lat[h]);
    }

    /** One pass of rebalancing: performs the simulated move when it helps.  `again` asks for another
        pass.  `raised` records whether one of the two internal checks failed; neither ever does. */
    method RebalanceOnce(c: Clocked) returns (again: bool, raised: bool)
      requires Matched(Stats(), queues)
      modifies this`queues
      ensures Stats() == old(Stats())
      ensures queues == Passed(c, old(Stats()), old(queues))
      ensures again == PassesAgain(c, old(Stats()), old(queues))
      ensures !raised
    {
      again, raised := false, false;
      ghost var sv, qs := Stats(), queues;
      var h, l, improves := Simulate(c);
      if improves {
        var candidate := queues[h][0];
        raised := queues[h] == [];
        var actual := queues[h][0];
        queues := queues[h := queues[h][1..]];
        raised := raised || actual.timestamp != candidate.timestamp;
        queues := queues[l := Insert(queues[l], candidate)];
        assert Stats() == sv;
        assert queues == Moved(c, sv, qs);
        var actualHigh := servers[h].EstimateMaxLatency(c, queues[h]);
        var actualLow := servers[l].EstimateMaxLatency(c, queues[l]);
        again := Less(actualLow, actualHigh);
      }
    }

    /** Passes, one after the other, as long as they ask for another. */
    method RunPasses(c: Clocked) returns (raised: bool)
      requires Matched(Stats(), queues) && AllSorted(queues)
      modifies this`queues
      ensures Stats() == old(Stats()) && AllSorted(queues)
      ensures queues == Rebalanced(c, old(Stats()), old(queues))
      ensures !raised
    {
      ghost var sv := Stats();
      var again := true;
      raised := false;
      while again
        invariant Stats() == sv && !raised
        invariant Matched(sv, queues) && AllSorted(queues)
        invariant Rebalanced(c, sv, old(queues)) == if again then Rebalanced(c, sv, queues) else queues
        decreases again, |Queued(queues)|, Measure(c, sv, queues)
      {
        PassAdvances(c, sv, queues);
        again, raised := RebalanceOnce(c);
      }
    }

    /** Moves first requests from the most to the least loaded server while that helps. */
    method RebalanceQueues(now: real) returns (raised: bool)
      requires Valid()
      modifies this`queues
      ensures Valid()
      ensures queues == Rebalanced(Clocked(predict, now), Stats(), old(queues))
      ensures HasTrace(Clocked(predict, now), Stats(), old(queues), queues)
      ensures !raised
    {
      CallHasTrace(Clocked(predict, now), Stats(), queues);
      raised := RunPasses(Clocked(predict, now));
    }

    /** Whether the queue holds a request and the gate lets it in. */
    method IsOpen(i: nat) returns (open: bool)
      requires Valid() && i < |servers| && |running[i]| < CONSUMERS
      ensures open <==> CanAdmit(View(), i)
    {
      assert Stats()[i] == servers[i].View();
      if queues[i] == [] {
        return false;
      }
      if servers[i].inFlightTokens > servers[i].maxConcurrency && |servers[i].inFlightLens| > servers[i].pp {
        return false;
      }
      open := true;
    }

    /** One attempt of an idle handler of server `i` to take a request. */
    method TryAdmit(i: nat, now: real, stamp: real) returns (admitted: bool)
      requires Valid() && i < |servers| && |running[i]| < CONSUMERS
      modifies this, servers[i]
      ensures Valid()
      ensures View() == if CanAdmit(old(View()), i) then AfterAdmit(Settings(), old(View()), i, now, stamp)
                        else old(View())
      ensures admitted == (|running[i]| == |old(running[i])| + 1)
      ensures forall longest: nat :: Accounted(old(View()), longest) ==>
                (admitted <==> MayStart(old(View()), i) && QueuesAtAdmission(Settings(), old(View()), now)[i] != [])
    {
      AdmissionWhenAccounted(View(), i);
      var open := IsOpen(i);
      if !open {
        return false;
      }
      if mode >= 3 {
        var _ := RebalanceQueues(now);
        if queues[i] == [] {
          return false;
        }
      }
      TakeFirst(i, stamp);
      admitted := true;
    }

    /** Pops the first request of server `i` and accounts for it. */
    method TakeFirst(i: nat, stamp: real)
      requires Valid() && i < |servers| && queues[i] != []
      modifies this, servers[i]
      ensures Valid()
      ensures queues == old(queues)[i := old(queues)[i][1..]] && done == old(done)
      ensures var r := old(queues)[i][0];
              && Stats() == old(Stats())[i := Dispatched(old(Stats())[i], r.promptLen, stamp)]
              && running == old(running)[i := old(running)[i] + [Running(r, stamp)]]
    {
      assert Sorted(queues[i]);
      var r := queues[i][0];
      queues := queues[i := queues[i][1..]];
      servers[i].Dispatch(r.promptLen, stamp);
      running := running[i := running[i] + [Running(r, stamp)]];
    }

    /** Handler `k` of server `i` has its result and resolves the request. */
    method Complete(i: nat, k: nat)
      requires Valid() && i < |servers| && k < |running[i]|
      requires RemoveSucceeds(View(), i, k)
      modifies this, servers[i]
      ensures Valid()
      ensures View() == AfterComplete(old(View()), i, k)
    {
      var finished := running[i][k];
      assert Stats()[i] == servers[i].View();
      servers[i].Finish(finished.req.promptLen, finished.stamp);
      running := running[i := Without(running[i], k)];
      done := done + [finished.req];
    }
  }
}
