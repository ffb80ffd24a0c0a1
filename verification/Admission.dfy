/** Admission of conversations: a min-heap of finish times delays a new conversation until fewer
    than the allowed number are active.  The heap is kept as the sorted sequence of its elements. */
module Admission {
  import opened Numbers

  /** heappush */
  function Push(heap: seq<real>, x: real): seq<real> {
    if heap == [] || x <= heap[0] then [x] + heap else [heap[0]] + Push(heap[1..], x)
  }

  function Later(a: real, b: real): real { if a >= b then a else b }

  /** Pops every finish time that is not after `t`. */
  function Prune(heap: seq<real>, t: real): seq<real> {
    if heap != [] && heap[0] <= t then Prune(heap[1..], t) else heap
  }

  /** The time at which a conversation may start, and the heap then. */
  datatype Admitted = Admitted(start: real, heap: seq<real>) | HeapExhausted

  /** The waiting loop: pops the earliest finish while too many conversations are active. */
  function Wait(heap: seq<real>, t: real, maxActive: int): Admitted
    decreases |heap|
  {
    if |heap| < maxActive then Admitted(t, heap)
    else if heap == [] then HeapExhausted
    else
      var t' := Later(t, heap[0]);
      PruneShrinks(heap[1..], t');
      Wait(Prune(heap[1..], t'), t', maxActive)
  }

  function Admit(heap: seq<real>, candidate: real, maxActive: int): Admitted {
    Wait(Prune(heap, candidate), candidate, maxActive)
  }

  lemma {:induction false} PruneShrinks(heap: seq<real>, t: real)
    ensures |Prune(heap, t)| <= |heap|
  {
    if heap != [] && heap[0] <= t { PruneShrinks(heap[1..], t); }
  }

  // ---------- The loops ----------

  method PruneHeap(heap: seq<real>, t: real) returns (h: seq<real>)
    ensures h == Prune(heap, t)
  {
    h := heap;
    while h != [] && h[0] <= t
      invariant Prune(h, t) == Prune(heap, t)
      decreases |h|
    {
      h := h[1..];
    }
  }

  method AdmitConversation(heap: seq<real>, candidate: real, maxActive: int) returns (r: Admitted)
    ensures r == Admit(heap, candidate, maxActive)
  {
    var h := PruneHeap(heap, candidate);
    var t := candidate;
    while |h| >= maxActive
      invariant Wait(h, t, maxActive) == Admit(heap, candidate, maxActive)
      decreases |h|
    {
      if h == [] {
        return HeapExhausted;
      }
      t := Later(t, h[0]);
      PruneShrinks(h[1..], t);
      h := PruneHeap(h[1..], t);
    }
    r := Admitted(t, h);
  }

  // ---------- What admission means ----------

  /** The finish times after `t`: the conversations still active then. */
  ghost function After(finishes: seq<real>, t: real): multiset<real> {
    if finishes == [] then multiset{} else AfterOne(finishes[0], t) + After(finishes[1..], t)
  }

  ghost predicate AllAfter(heap: seq<real>, t: real) {
    forall x :: x in heap ==> x > t
  }

  lemma {:induction false} AfterWhole(heap: seq<real>, t: real)
    requires AllAfter(heap, t)
    ensures After(heap, t) == multiset(heap)
  {
    if heap != [] {
      assert heap == [heap[0]] + heap[1..];
      assert heap[0] in heap;
      forall x | x in heap[1..] ensures x > t { assert x in heap; }
      AfterWhole(heap[1..], t);
    }
  }

  lemma {:induction false} AfterAtLeast(heap: seq<real>, t: real, limit: real)
    requires t < limit && forall x :: x in heap ==> x >= limit
    ensures |After(heap, t)| == |heap|
  {
    AfterWhole(heap, t);
    assert |multiset(heap)| == |heap|;
  }

  lemma {:induction false} PruneKeepsActive(heap: seq<real>, t: real, u: real)
    requires Ascending(heap) && t <= u
    ensures Ascending(Prune(heap, t)) && AllAfter(Prune(heap, t), t)
    ensures After(Prune(heap, t), u) == After(heap, u)
  {
    if heap != [] {
      if heap[0] <= t {
        PruneKeepsActive(heap[1..], t, u);
      } else {
        forall x | x in heap ensures x > t {
          var i :| 0 <= i < |heap| && heap[i] == x;
          assert heap[0] <= heap[i];
        }
      }
    }
  }

  lemma {:induction false} AfterMonotone(finishes: seq<real>, t: real, u: real)
    requires t <= u
    ensures |After(finishes, u)| <= |After(finishes, t)|
  {
    if finishes != [] { AfterMonotone(finishes[1..], t, u); }
  }

  /** Waiting never skips a time at which the conversation could have started. */
  lemma {:induction false} WaitIsEarliest(heap: seq<real>, t: real, maxActive: int, u: real)
    requires Ascending(heap) && AllAfter(heap, t)
    ensures var r := Wait(heap, t, maxActive);
            && (r.HeapExhausted? <==> maxActive <= 0)
            && (r.Admitted? ==> |r.heap| < maxActive && t <= r.start && Ascending(r.heap) && AllAfter(r.heap, r.start))
            && (r.Admitted? && r.start <= u ==> After(r.heap, u) == After(heap, u))
            && (r.Admitted? && t <= u < r.start ==> |After(heap, u)| >= maxActive)
    decreases |heap|
  {
    if |heap| >= maxActive && heap != [] {
      var t' := Later(t, heap[0]);
      assert heap[0] in heap;
      var rest := Prune(heap[1..], t');
      PruneShrinks(heap[1..], t');
      PruneKeepsActive(heap[1..], t', Later(u, t'));
      WaitIsEarliest(rest, t', maxActive, u);
      if u < t' {
        forall x | x in heap ensures x >= t' {
          var i :| 0 <= i < |heap| && heap[i] == x;
          assert heap[0] <= heap[i];
        }
        if t <= u { AfterAtLeast(heap, u, t'); }
      } else {
        PruneKeepsActive(heap[1..], t', u);
        assert After(heap, u) == After(heap[1..], u);
      }
    }
  }

  lemma {:induction false} PushAscends(heap: seq<real>, x: real)
    requires Ascending(heap)
    ensures Ascending(Push(heap, x))
    ensures forall y :: y in Push(heap, x) ==> y == x || y in heap
  {
    if heap != [] && x > heap[0] {
      PushAscends(heap[1..], x);
      var rest := Push(heap[1..], x);
      forall k | 0 <= k < |rest| ensures heap[0] <= rest[k] {
        assert rest[k] in rest;
      }
    }
  }

  ghost function AfterOne(x: real, t: real): multiset<real> {
    if x > t then multiset{x} else multiset{}
  }

  lemma {:induction false} PushContents(heap: seq<real>, x: real, t: real)
    ensures After(Push(heap, x), t) == After(heap, t) + AfterOne(x, t)
  {
    if heap == [] || x <= heap[0] {
      assert ([x] + heap)[1..] == heap;
    } else {
      PushContents(heap[1..], x, t);
      assert ([heap[0]] + Push(heap[1..], x))[1..] == Push(heap[1..], x);
    }
  }

  lemma {:induction false} AfterAppend(finishes: seq<real>, x: real, t: real)
    ensures After(finishes + [x], t) == After(finishes, t) + AfterOne(x, t)
  {
    if finishes == [] {
      assert finishes + [x] == [x];
    } else {
      AfterAppend(finishes[1..], x, t);
      assert (finishes + [x])[1..] == finishes[1..] + [x];
    }
  }

  /** The heap holds what matters of the finish times: from `t` on both show the same active
      conversations. */
  ghost predicate Agrees(heap: seq<real>, finishes: seq<real>, t: real) {
    Ascending(heap) && forall u :: t <= u ==> After(heap, u) == After(finishes, u)
  }

  /** Admission seen at one time `u`. */
  lemma AdmitAt(heap: seq<real>, candidate: real, maxActive: int, u: real)
    requires Ascending(heap) && candidate <= u
    ensures var r := Admit(heap, candidate, maxActive);
            && (r.HeapExhausted? <==> maxActive <= 0)
            && (r.Admitted? ==>
                  && |r.heap| < maxActive && candidate <= r.start && Ascending(r.heap) && AllAfter(r.heap, r.start)
                  && (r.start <= u ==> After(r.heap, u) == After(heap, u))
                  && (u < r.start ==> |After(heap, u)| >= maxActive))
  {
    PruneKeepsActive(heap, candidate, u);
    WaitIsEarliest(Prune(heap, candidate), candidate, maxActive, u);
  }

  /** Admission is exact and earliest: the heap is exactly the multiset of finish times after the
      start, smaller than the limit, and at no earlier time from the candidate on were fewer
      conversations active than the limit.  It fails exactly if the limit is not positive. */
  lemma AdmissionIsExact(heap: seq<real>, finishes: seq<real>, last: real, candidate: real, maxActive: int)
    requires Agrees(heap, finishes, last) && last <= candidate
    ensures Admit(heap, candidate, maxActive).HeapExhausted? <==> maxActive <= 0
    ensures var r := Admit(heap, candidate, maxActive);
            r.Admitted? ==>
              && candidate <= r.start
              && multiset(r.heap) == After(finishes, r.start) && |r.heap| < maxActive
              && (forall u :: candidate <= u < r.start ==> |After(finishes, u)| >= maxActive)
              && Agrees(r.heap, finishes, r.start)
  {
    var r := Admit(heap, candidate, maxActive);
    AdmitAt(heap, candidate, maxActive, candidate);
    if r.Admitted? {
      forall u | candidate <= u
        ensures u < r.start ==> |After(finishes, u)| >= maxActive
        ensures r.start <= u ==> After(r.heap, u) == After(finishes, u)
      {
        AdmitAt(heap, candidate, maxActive, u);
        assert After(heap, u) == After(finishes, u);
      }
      AfterWhole(r.heap, r.start);
    }
  }

  /** Recording a finish time keeps the agreement. */
  lemma PushAgrees(heap: seq<real>, finishes: seq<real>, t: real, x: real)
    requires Agrees(heap, finishes, t)
    ensures Agrees(Push(heap, x), finishes + [x], t)
  {
    PushAscends(heap, x);
    forall u | t <= u ensures After(Push(heap, x), u) == After(finishes + [x], u) {
      PushContents(heap, x, u);
      AfterAppend(finishes, x, u);
      assert After(heap, u) == After(finishes, u);
    }
  }
}
