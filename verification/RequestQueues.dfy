/** The per-server request queues of the dispatcher.

    Each queue is a dictionary ordered by timestamp.  It is modelled as the sequence
    of its values in key order; a request is always stored under its own timestamp. */
module RequestQueues {

  datatype Request = Request(id: nat, promptLen: nat, timestamp: real)

  type Queue = seq<Request>

  ghost predicate Sorted(q: Queue) {
    forall i, j :: 0 <= i < j < |q| ==> q[i].timestamp < q[j].timestamp
  }

  /** Storing a request under its timestamp; a request already stored there is overwritten. */
  function Insert(q: Queue, r: Request): Queue {
    if q == [] then [r]
    else if r.timestamp < q[0].timestamp then [r] + q
    else if r.timestamp == q[0].timestamp then [r] + q[1..]
    else [q[0]] + Insert(q[1..], r)
  }

  /** The request that storing `r` would overwrite, if any. */
  ghost function Displaced(q: Queue, r: Request): multiset<Request> {
    if q == [] || r.timestamp < q[0].timestamp then multiset{}
    else if r.timestamp == q[0].timestamp then multiset{q[0]}
    else Displaced(q[1..], r)
  }

  function Tokens(q: Queue): nat {
    if q == [] then 0 else q[0].promptLen + Tokens(q[1..])
  }

  lemma {:induction false} TokensAppend(q: Queue, r: Request)
    ensures Tokens(q + [r]) == Tokens(q) + r.promptLen
  {
    if q == [] {
      assert q + [r] == [r];
    } else {
      TokensAppend(q[1..], r);
      assert (q + [r])[1..] == q[1..] + [r];
    }
  }

  /** Insertion changes the contents by exactly the request stored and the request displaced. */
  lemma {:induction false} InsertContents(q: Queue, r: Request)
    ensures multiset(Insert(q, r)) + Displaced(q, r) == multiset(q) + multiset{r}
  {
    if q != [] {
      var tail := q[1..];
      assert q == [q[0]] + tail;
      assert multiset(q) == multiset{q[0]} + multiset(tail);
      if r.timestamp < q[0].timestamp {
      } else if r.timestamp == q[0].timestamp {
        assert multiset([r] + tail) == multiset{r} + multiset(tail);
      } else {
        InsertContents(tail, r);
        assert Insert(q, r) == [q[0]] + Insert(tail, r);
        assert multiset(Insert(q, r)) == multiset{q[0]} + multiset(Insert(tail, r));
        calc {
          multiset(Insert(q, r)) + Displaced(q, r);
          multiset{q[0]} + (multiset(Insert(tail, r)) + Displaced(tail, r));
          multiset{q[0]} + (multiset(tail) + multiset{r});
          multiset(q) + multiset{r};
        }
      }
    }
  }

  lemma {:induction false} InsertSorted(q: Queue, r: Request)
    requires Sorted(q)
    ensures Sorted(Insert(q, r))
    ensures forall x :: x in Insert(q, r) ==> x == r || x in q
  {
    if q != [] && r.timestamp > q[0].timestamp {
      InsertSorted(q[1..], r);
      forall x | x in Insert(q[1..], r) ensures q[0].timestamp < x.timestamp {
        assert x == r || x in q[1..];
      }
    }
  }

  lemma {:induction false} DisplacedExactly(q: Queue, r: Request)
    requires Sorted(q)
    ensures Displaced(q, r) == multiset{} <==> forall x :: x in q ==> x.timestamp != r.timestamp
  {
    if q != [] {
      assert q == [q[0]] + q[1..];
      if r.timestamp > q[0].timestamp {
        DisplacedExactly(q[1..], r);
      } else if r.timestamp == q[0].timestamp {
        assert q[0] in q;
      }
    }
  }

  lemma {:induction false} InsertTokens(q: Queue, r: Request)
    requires Sorted(q)
    requires Displaced(q, r) == multiset{}
    ensures Tokens(Insert(q, r)) == Tokens(q) + r.promptLen
  {
    if q != [] && r.timestamp > q[0].timestamp {
      InsertTokens(q[1..], r);
      assert Insert(q, r)[1..] == Insert(q[1..], r);
    } else if q != [] {
      assert Insert(q, r)[1..] == q;
    }
  }

  /** All requests waiting in any queue. */
  ghost function Queued(qs: seq<Queue>): multiset<Request> {
    if qs == [] then multiset{} else multiset(qs[0]) + Queued(qs[1..])
  }

  lemma {:induction false} QueuedUpdate(qs: seq<Queue>, i: nat, q: Queue)
    requires i < |qs|
    ensures multiset(qs[i]) <= Queued(qs)
    ensures Queued(qs[i := q]) == Queued(qs) - multiset(qs[i]) + multiset(q)
  {
    if i > 0 {
      QueuedUpdate(qs[1..], i - 1, q);
      assert qs[i := q][1..] == qs[1..][i - 1 := q];
    } else {
      assert qs[i := q][1..] == qs[1..];
    }
  }

  lemma {:induction false} QueuedTwice(qs: seq<Queue>, i: nat, j: nat)
    requires i < |qs| && j < |qs| && i != j
    ensures multiset(qs[i]) + multiset(qs[j]) <= Queued(qs)
  {
    QueuedUpdate(qs, i, []);
    QueuedUpdate(qs[i := []], j, []);
  }

  /** No two of the requests share a timestamp. */
  ghost predicate DistinctKeys(m: multiset<Request>) {
    && (forall r :: r in m ==> m[r] == 1)
    && (forall r, r' :: r in m && r' in m && r.timestamp == r'.timestamp ==> r == r')
  }

  lemma DistinctKeysSubset(m: multiset<Request>, n: multiset<Request>)
    requires m <= n && DistinctKeys(n)
    ensures DistinctKeys(m)
  {
    forall r | r in m ensures m[r] == 1 { assert m[r] <= n[r]; assert r in n; }
  }
}
