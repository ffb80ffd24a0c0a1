/** The batching loop of the Hugging Face throughput benchmark.

    Consecutive requests are put in one batch as long as the batch is not full and the longest
    prompt plus the longest output stay within the limit. */
module GreedyBatching {
  import opened Sequences

  datatype Request = Request(prompt: string, promptLen: nat, outputLen: nat)

  /** One call of the generator: the prompts and the number of new tokens asked for. */
  datatype Call = Call(batch: seq<Request>, maxNewTokens: nat)

  const TOKEN_LIMIT: nat := 2048

  function Max(a: int, b: int): int { if a >= b then a else b }

  function LongestPrompt(rs: seq<Request>): nat {
    if rs == [] then 0 else Max(LongestPrompt(rs[..|rs| - 1]), rs[|rs| - 1].promptLen)
  }

  function LongestOutput(rs: seq<Request>): nat {
    if rs == [] then 0 else Max(LongestOutput(rs[..|rs| - 1]), rs[|rs| - 1].outputLen)
  }

  /** The longest prompt and the longest output are bounds that are attained. */
  lemma {:induction false} LongestIsMaximum(rs: seq<Request>)
    ensures forall r :: r in rs ==> r.promptLen <= LongestPrompt(rs) && r.outputLen <= LongestOutput(rs)
    ensures rs != [] ==> exists r :: r in rs && r.promptLen == LongestPrompt(rs)
    ensures rs != [] ==> exists r :: r in rs && r.outputLen == LongestOutput(rs)
  {
    if rs != [] {
      var most, last := rs[..|rs| - 1], rs[|rs| - 1];
      LongestIsMaximum(most);
      assert rs == most + [last];
      if most != [] {
        var r :| r in most && r.promptLen == LongestPrompt(most);
        var q :| q in most && q.outputLen == LongestOutput(most);
        assert r in rs && q in rs;
      }
      assert last in rs;
    }
  }

  /** A batch is never empty nor, beyond its first request, over either limit. */
  predicate Admissible(batch: seq<Request>, maxBatchSize: int) {
    && 1 <= |batch| <= Max(1, maxBatchSize)
    && (|batch| == 1 || LongestPrompt(batch) + LongestOutput(batch) <= TOKEN_LIMIT)
  }

  ghost predicate AllAdmissible(split: seq<seq<Request>>, maxBatchSize: int) {
    forall i :: 0 <= i < |split| ==> Admissible(split[i], maxBatchSize)
  }

  function Batches(calls: seq<Call>): (split: seq<seq<Request>>)
    ensures |split| == |calls|
    ensures forall i :: 0 <= i < |calls| ==> split[i] == calls[i].batch
  {
    seq(|calls|, i requires 0 <= i < |calls| => calls[i].batch)
  }

  /** No batch could have taken the request after it. */
  ghost predicate Maximal(split: seq<seq<Request>>, maxBatchSize: int) {
    forall i :: 0 <= i < |split| - 1 && split[i + 1] != [] ==>
      !Admissible(split[i] + [split[i + 1][0]], maxBatchSize)
  }

  // ---------- The loop ----------

  lemma LongestAppend(batch: seq<Request>, r: Request)
    ensures LongestPrompt(batch + [r]) == Max(LongestPrompt(batch), r.promptLen)
    ensures LongestOutput(batch + [r]) == Max(LongestOutput(batch), r.outputLen)
  {
    assert (batch + [r])[..|batch|] == batch;
  }

  /** Before request `i` the loop has cut off `split` and is filling `batch`: the batch's first request
      did not fit the last finished batch, and the next request fits the batch. */
  ghost predicate Filling(split: seq<seq<Request>>, batch: seq<Request>, requests: seq<Request>, i: nat, maxBatchSize: int)
    requires i <= |requests|
  {
    && Flatten(split) + batch == requests[..i]
    && AllAdmissible(split, maxBatchSize) && Maximal(split, maxBatchSize)
    && |batch| <= i
    && (split != [] && i - |batch| < |requests| ==>
          !Admissible(split[|split| - 1] + [requests[i - |batch|]], maxBatchSize))
    && (batch != [] ==> i < |requests| && Admissible(batch + [requests[i]], maxBatchSize))
  }

  /** Whether the request after `i` also goes into the batch that request `i` was just added to. */
  ghost predicate NextFits(batch: seq<Request>, requests: seq<Request>, i: nat, maxBatchSize: int)
    requires i < |requests|
  {
    i + 1 < |requests| && Admissible(batch + [requests[i + 1]], maxBatchSize)
  }

  lemma FillAdmissible(batch: seq<Request>, requests: seq<Request>, i: nat, maxBatchSize: int)
    requires i < |requests| && (batch != [] ==> Admissible(batch + [requests[i]], maxBatchSize))
    ensures Admissible(batch + [requests[i]], maxBatchSize)
  {
    assert batch == [] ==> batch + [requests[i]] == [requests[i]];
  }

  lemma KeepFilling(split: seq<seq<Request>>, batch: seq<Request>, requests: seq<Request>, i: nat, maxBatchSize: int)
    requires i < |requests| && Filling(split, batch, requests, i, maxBatchSize)
    requires NextFits(batch + [requests[i]], requests, i, maxBatchSize)
    ensures Filling(split, batch + [requests[i]], requests, i + 1, maxBatchSize)
  {
    assert requests[..i + 1] == requests[..i] + [requests[i]];
  }

  lemma FinishBatch(split: seq<seq<Request>>, batch: seq<Request>, requests: seq<Request>, i: nat, maxBatchSize: int)
    requires i < |requests| && Filling(split, batch, requests, i, maxBatchSize)
    requires !NextFits(batch + [requests[i]], requests, i, maxBatchSize)
    ensures Filling(split + [batch + [requests[i]]], [], requests, i + 1, maxBatchSize)
  {
    var full := batch + [requests[i]];
    var longer := split + [full];
    FillAdmissible(batch, requests, i, maxBatchSize);
    FlattenAppend(split, full);
    assert requests[..i + 1] == requests[..i] + [requests[i]];
    assert (Flatten(split) + batch)[|Flatten(split)|..] == batch;
    assert full[0] == requests[i - |batch|];
    forall k | 0 <= k < |longer| - 1 && longer[k + 1] != []
      ensures !Admissible(longer[k] + [longer[k + 1][0]], maxBatchSize)
    {
      if k < |split| - 1 {
        assert longer[k] == split[k] && longer[k + 1] == split[k + 1];
      }
    }
  }

  /** The check at the end of an iteration: can the next request be added to the batch? */
  method CanAddNext(batch: seq<Request>, maxPromptLen: nat, maxOutputLen: nat, requests: seq<Request>, i: nat,
                    maxBatchSize: int)
    returns (fits: bool)
    requires i < |requests| && batch != []
    requires maxPromptLen == LongestPrompt(batch) && maxOutputLen == LongestOutput(batch)
    ensures fits == NextFits(batch, requests, i, maxBatchSize)
  {
    fits := false;
    if |batch| < maxBatchSize && i != |requests| - 1 {
      var next := requests[i + 1];
      LongestAppend(batch, next);
      fits := Max(maxPromptLen, next.promptLen) + Max(maxOutputLen, next.outputLen) <= TOKEN_LIMIT;
    }
  }

  ghost predicate AsksForLongest(calls: seq<Call>) {
    forall k :: 0 <= k < |calls| ==> calls[k].maxNewTokens == LongestOutput(calls[k].batch)
  }

  /** Generates the full batch. */
  method Generate(calls: seq<Call>, batch: seq<Request>, maxOutputLen: nat) returns (calls': seq<Call>)
    requires AsksForLongest(calls) && maxOutputLen == LongestOutput(batch)
    ensures AsksForLongest(calls') && Batches(calls') == Batches(calls) + [batch]
  {
    calls' := calls + [Call(batch, maxOutputLen)];
  }

  /** Adds a request to the batch. */
  method AddToBatch(batch: seq<Request>, maxPromptLen: nat, maxOutputLen: nat, r: Request)
    returns (batch': seq<Request>, maxPromptLen': nat, maxOutputLen': nat)
    requires maxPromptLen == LongestPrompt(batch) && maxOutputLen == LongestOutput(batch)
    ensures batch' == batch + [r]
    ensures maxPromptLen' == LongestPrompt(batch') && maxOutputLen' == LongestOutput(batch')
  {
    LongestAppend(batch, r);
    batch', maxPromptLen', maxOutputLen' := batch + [r], Max(maxPromptLen, r.promptLen), Max(maxOutputLen, r.outputLen);
  }

  method RunBatches(requests: seq<Request>, maxBatchSize: int) returns (calls: seq<Call>)
    ensures Flatten(Batches(calls)) == requests
    ensures AllAdmissible(Batches(calls), maxBatchSize)
    ensures Maximal(Batches(calls), maxBatchSize)
    ensures AsksForLongest(calls)
  {
    calls := [];
    var batch: seq<Request> := [];
    var maxPromptLen, maxOutputLen := 0, 0;
    for i := 0 to |requests|
      invariant Filling(Batches(calls), batch, requests, i, maxBatchSize)
      invariant maxPromptLen == LongestPrompt(batch) && maxOutputLen == LongestOutput(batch)
      invariant AsksForLongest(calls)
    {
      ghost var before := batch;
      batch, maxPromptLen, maxOutputLen := AddToBatch(batch, maxPromptLen, maxOutputLen, requests[i]);
      var fits := CanAddNext(batch, maxPromptLen, maxOutputLen, requests, i, maxBatchSize);
      if fits {
        KeepFilling(Batches(calls), before, requests, i, maxBatchSize);
      } else {
        FinishBatch(Batches(calls), before, requests, i, maxBatchSize);
        calls := Generate(calls, batch, maxOutputLen);
        batch, maxPromptLen, maxOutputLen := [], 0, 0;
      }
    }
    assert requests[..|requests|] == requests;
  }

  // ---------- Optimality ----------

  lemma {:induction false} LongestOfPart(a: seq<Request>, b: seq<Request>, d: seq<Request>)
    ensures LongestPrompt(b) <= LongestPrompt(a + b + d)
    ensures LongestOutput(b) <= LongestOutput(a + b + d)
    decreases |d|, |b|
  {
    if d != [] {
      var n := |d| - 1;
      LongestOfPart(a, b, d[..n]);
      assert (a + b + d)[..|a + b + d| - 1] == a + b + d[..n];
    } else if b != [] {
      var n := |b| - 1;
      LongestOfPart(a, b[..n], []);
      assert (a + b + d)[..|a + b + d| - 1] == a + b[..n] + [];
    }
  }

  /** Part of an admissible batch is admissible. */
  lemma PartIsAdmissible(a: seq<Request>, b: seq<Request>, d: seq<Request>, maxBatchSize: int)
    requires Admissible(a + b + d, maxBatchSize) && b != []
    ensures Admissible(b, maxBatchSize)
  {
    LongestOfPart(a, b, d);
  }

  /** Greedy stays ahead: a maximal split of a list needs no more batches than any split of a list
      that ends with it. */
  lemma {:induction false} StaysAhead(split: seq<seq<Request>>, other: seq<seq<Request>>,
                                      before: seq<Request>, maxBatchSize: int)
    requires AllAdmissible(split, maxBatchSize) && Maximal(split, maxBatchSize)
    requires AllAdmissible(other, maxBatchSize)
    requires Flatten(other) == before + Flatten(split)
    ensures |split| <= |other|
    decreases |other|
  {
    if split != [] {
      var s, t := split[0], other[0];
      var u, v := Flatten(split[1..]), Flatten(other[1..]);
      assert t + v == before + (s + u);
      if |t| <= |before| {
        assert v == (t + v)[|t|..] == before[|t|..] + (s + u);
        StaysAhead(split, other[1..], before[|t|..], maxBatchSize);
      } else {
        FirstBatchReaches(split, t, v, before, maxBatchSize);
        assert u == (t + v)[|before| + |s|..];
        assert v == (t + v)[|t|..] == (t + v)[|t|..|before| + |s|] + u;
        StaysAhead(split[1..], other[1..], (t + v)[|t|..|before| + |s|], maxBatchSize);
      }
    }
  }

  lemma FirstBatchReaches(split: seq<seq<Request>>, t: seq<Request>, v: seq<Request>,
                          before: seq<Request>, maxBatchSize: int)
    requires split != [] && AllAdmissible(split, maxBatchSize) && Maximal(split, maxBatchSize)
    requires Admissible(t, maxBatchSize) && |t| > |before|
    requires t + v == before + (split[0] + Flatten(split[1..]))
    ensures |t| <= |before| + |split[0]|
  {
    var s := split[0];
    if |t| > |before| + |s| {
      assert |split| > 1;
      var next := split[1][0];
      assert Flatten(split[1..])[0] == next;
      var taken := s + [next];
      assert taken == (t + v)[|before|..|before| + |taken|];
      assert t == (t + v)[..|t|];
      assert taken == t[|before|..|before| + |taken|];
      assert t == t[..|before|] + taken + t[|before| + |taken|..];
      PartIsAdmissible(t[..|before|], taken, t[|before| + |taken|..], maxBatchSize);
    }
  }

  /** The loop uses the fewest generator calls: no other way to cut the requests into admissible
      consecutive batches has fewer. */
  lemma GreedyIsOptimal(calls: seq<Call>, other: seq<seq<Request>>, requests: seq<Request>, maxBatchSize: int)
    requires Flatten(Batches(calls)) == requests
    requires AllAdmissible(Batches(calls), maxBatchSize) && Maximal(Batches(calls), maxBatchSize)
    requires Flatten(other) == requests && AllAdmissible(other, maxBatchSize)
    ensures |calls| <= |other|
  {
    assert requests == [] + requests;
    StaysAhead(Batches(calls), other, [], maxBatchSize);
  }

  /** The limits in full: at most `maxBatchSize` requests, and at most 2048 tokens for any prompt with any
      output of the batch; a single request is always admissible. */
  lemma AdmissibleExactly(batch: seq<Request>, maxBatchSize: int)
    requires batch != []
    ensures Admissible(batch, maxBatchSize) <==>
              || |batch| == 1
              || (|batch| <= maxBatchSize
                  && forall p, o :: p in batch && o in batch ==> p.promptLen + o.outputLen <= 2048)
  {
    LongestIsMaximum(batch);
    if |batch| > 1 && forall p, o :: p in batch && o in batch ==> p.promptLen + o.outputLen <= 2048 {
      var p :| p in batch && p.promptLen == LongestPrompt(batch);
      var o :| o in batch && o.outputLen == LongestOutput(batch);
    }
  }
}
