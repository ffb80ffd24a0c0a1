/** Server accounting values, the latency estimate and the dispatch load. */
module Servers {
  import opened ExtendedReals
  import opened RequestQueues

  /** The value of one server's statistics record. */
  datatype Server = Server(
    maxConcurrency: int, overhead: real, tp: int, pp: int,
    inFlightTokens: int, count: int,
    inFlightLens: seq<int>, dispatchStamps: seq<real>)

  /** The row of features given to the latency model, with the pair that selects the model. */
  datatype Features = Features(
    tp: int, pp: int,
    inFlightTokens: int, progress: real, queueTokens: int, inFlightCount: int, promptLen: int)

  type Predictor = Features -> real

  /** A prediction function and the time at which it is asked. */
  datatype Clocked = Clocked(predict: Predictor, now: real)

  /** An empty queue has latency minus infinity. */
  type Latency = Extended

  function MaxLatency(a: Latency, b: Latency): Latency {
    if Less(a, b) then b else a
  }

  function Min(a: nat, b: nat): nat { if a <= b then a else b }

  /** Time already spent on the first `n` pairs of the two lists, weighted by prompt length. */
  function WeightedProgress(lens: seq<int>, stamps: seq<real>, now: real, n: nat): real
    requires n <= |lens| && n <= |stamps|
  {
    if n == 0 then 0.0
    else WeightedProgress(lens, stamps, now, n - 1) + (now - stamps[n - 1]) * lens[n - 1] as real
  }

  function Progress(s: Server, now: real): real {
    if s.inFlightTokens > 0
    then WeightedProgress(s.inFlightLens, s.dispatchStamps, now, Min(|s.inFlightLens|, |s.dispatchStamps|))
         / s.inFlightTokens as real
    else 0.0
  }

  function RequestLatency(c: Clocked, s: Server, queueTokens: int, promptLen: int): real {
    c.predict(Features(s.tp, s.pp, s.inFlightTokens, Progress(s, c.now), queueTokens, |s.inFlightLens|, promptLen))
  }

  /** Latency of the request at position `k` of a queue: the prediction given the tokens queued
      before it, plus the time it has waited. */
  function LatencyAt(c: Clocked, s: Server, q: Queue, k: nat): real
    requires k < |q|
  {
    RequestLatency(c, s, Tokens(q[..k]), q[k].promptLen) + (c.now - q[k].timestamp)
  }

  function ServerLatency(c: Clocked, s: Server, q: Queue, n: nat): Latency
    requires n <= |q|
  {
    if n == 0 then NegInf else MaxLatency(ServerLatency(c, s, q, n - 1), Fin(LatencyAt(c, s, q, n - 1)))
  }

  function QueueLatency(c: Clocked, s: Server, q: Queue): Latency {
    ServerLatency(c, s, q, |q|)
  }

  /** The estimate of a server is the greatest latency of its waiting requests, and it is
      attained unless nobody waits. */
  lemma {:induction false} ServerLatencyIsMaximum(c: Clocked, s: Server, q: Queue, n: nat)
    requires n <= |q|
    ensures forall k :: 0 <= k < n ==> !Less(ServerLatency(c, s, q, n), Fin(LatencyAt(c, s, q, k)))
    ensures ServerLatency(c, s, q, n).Fin? ==>
              exists k :: 0 <= k < n && ServerLatency(c, s, q, n) == Fin(LatencyAt(c, s, q, k))
    ensures ServerLatency(c, s, q, n) == NegInf <==> n == 0
  {
    if n > 0 {
      ServerLatencyIsMaximum(c, s, q, n - 1);
      assert ServerLatency(c, s, q, n) == ServerLatency(c, s, q, n - 1) || ServerLatency(c, s, q, n) == Fin(LatencyAt(c, s, q, n - 1));
    }
  }

  /** First position of the greatest element. */
  function ArgMax(lat: seq<Extended>): (h: nat)
    requires lat != []
    ensures h < |lat|
    ensures forall k :: 0 <= k < |lat| ==> !Less(lat[h], lat[k])
    ensures forall k :: 0 <= k < h ==> Less(lat[k], lat[h])
  {
    if |lat| == 1 then 0
    else
      var h := ArgMax(lat[..|lat| - 1]);
      if Less(lat[h], lat[|lat| - 1]) then |lat| - 1 else h
  }

  /** First position of the least element. */
  function ArgMin(lat: seq<Extended>): (l: nat)
    requires lat != []
    ensures l < |lat|
    ensures forall k :: 0 <= k < |lat| ==> !Less(lat[k], lat[l])
    ensures forall k :: 0 <= k < l ==> Less(lat[l], lat[k])
  {
    if |lat| == 1 then 0
    else
      var l := ArgMin(lat[..|lat| - 1]);
      if Less(lat[|lat| - 1], lat[l]) then |lat| - 1 else l
  }

  /** The load by which an arriving request compares servers, for each dispatching mode. */
  function Load(mode: int, c: Clocked, s: Server, q: Queue, promptLen: int): real
    requires s.pp >= 1
  {
    if mode <= 0 then (s.inFlightTokens + Tokens(q)) as real
    else if mode == 1 then
      (s.inFlightTokens as real / s.pp as real + Tokens(q) as real + (promptLen * s.pp) as real) * s.overhead
    else RequestLatency(c, s, Tokens(q), promptLen)
  }
}
