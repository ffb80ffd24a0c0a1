/** A stable sort, for the uses of Python's list.sort. */
module StableSorting {
  import opened Sequences

  /** A sort key: a time and, to break ties, a rank. */
  datatype Key = Key(time: real, rank: int)

  predicate Leq(a: Key, b: Key) {
    a.time < b.time || (a.time == b.time && a.rank <= b.rank)
  }

  ghost predicate SortedBy<T>(s: seq<T>, key: T -> Key) {
    forall i, j :: 0 <= i < j < |s| ==> Leq(key(s[i]), key(s[j]))
  }

  function InsertBefore<T>(x: T, s: seq<T>, key: T -> Key): seq<T> {
    if s == [] || Leq(key(x), key(s[0])) then [x] + s else [s[0]] + InsertBefore(x, s[1..], key)
  }

  function Sort<T>(s: seq<T>, key: T -> Key): seq<T> {
    if s == [] then [] else InsertBefore(s[0], Sort(s[1..], key), key)
  }

  lemma {:induction false} InsertBeforePermutes<T>(x: T, s: seq<T>, key: T -> Key)
    ensures multiset(InsertBefore(x, s, key)) == multiset{x} + multiset(s)
  {
    if s != [] && !Leq(key(x), key(s[0])) {
      InsertBeforePermutes(x, s[1..], key);
      assert s == [s[0]] + s[1..];
    }
  }

  lemma {:induction false} SortPermutes<T>(s: seq<T>, key: T -> Key)
    ensures multiset(Sort(s, key)) == multiset(s)
  {
    if s != [] {
      SortPermutes(s[1..], key);
      InsertBeforePermutes(s[0], Sort(s[1..], key), key);
      assert s == [s[0]] + s[1..];
    }
  }

  lemma {:induction false} InsertBeforeSorted<T>(x: T, s: seq<T>, key: T -> Key)
    requires SortedBy(s, key)
    ensures SortedBy(InsertBefore(x, s, key), key)
  {
    if s != [] && !Leq(key(x), key(s[0])) {
      InsertBeforeSorted(x, s[1..], key);
      InsertBeforePermutes(x, s[1..], key);
      var t := InsertBefore(x, s[1..], key);
      forall y | y in t ensures Leq(key(s[0]), key(y)) {
        assert y in multiset(t);
        assert y == x || y in s[1..];
      }
    }
  }

  lemma {:induction false} SortSorted<T>(s: seq<T>, key: T -> Key)
    ensures SortedBy(Sort(s, key), key)
  {
    if s != [] {
      SortSorted(s[1..], key);
      InsertBeforeSorted(s[0], Sort(s[1..], key), key);
    }
  }

  function Filter<T>(s: seq<T>, p: T -> bool): seq<T> {
    if s == [] then [] else if p(s[0]) then [s[0]] + Filter(s[1..], p) else Filter(s[1..], p)
  }

  lemma {:induction false} FilterMembers<T>(s: seq<T>, p: T -> bool)
    ensures forall x :: x in Filter(s, p) ==> x in s && p(x)
    ensures forall x :: x in s && p(x) ==> x in Filter(s, p)
  {
    if s != [] {
      FilterMembers(s[1..], p);
      assert s == [s[0]] + s[1..];
    }
  }

  /** An element goes to the front of a list none of whose keys is smaller. */
  lemma InsertFirst<T>(x: T, s: seq<T>, key: T -> Key)
    requires forall y :: y in s ==> Leq(key(x), key(y))
    ensures InsertBefore(x, s, key) == [x] + s
  {
    assert s != [] ==> s[0] in s;
  }

  lemma {:induction false} FilterInsert<T>(x: T, s: seq<T>, key: T -> Key, p: T -> bool)
    requires SortedBy(s, key)
    ensures Filter(InsertBefore(x, s, key), p)
         == if p(x) then InsertBefore(x, Filter(s, p), key) else Filter(s, p)
  {
    if s == [] || Leq(key(x), key(s[0])) {
      assert ([x] + s)[1..] == s;
      FilterMembers(s, p);
      forall y | y in Filter(s, p) ensures Leq(key(x), key(y)) {
        assert y in s;
      }
      InsertFirst(x, Filter(s, p), key);
    } else {
      var rest := InsertBefore(x, s[1..], key);
      FilterInsert(x, s[1..], key, p);
      assert ([s[0]] + rest)[1..] == rest;
      if p(s[0]) {
        assert ([s[0]] + Filter(s[1..], p))[1..] == Filter(s[1..], p);
      }
    }
  }

  /** Stability: filtering the sorted list gives the sorted filtered list. */
  lemma {:induction false} FilterSort<T>(s: seq<T>, key: T -> Key, p: T -> bool)
    ensures Filter(Sort(s, key), p) == Sort(Filter(s, p), key)
  {
    if s != [] {
      FilterSort(s[1..], key, p);
      SortSorted(s[1..], key);
      FilterInsert(s[0], Sort(s[1..], key), key, p);
      if p(s[0]) {
        assert ([s[0]] + Filter(s[1..], p))[1..] == Filter(s[1..], p);
      }
    }
  }

  lemma {:induction false} SortOfSorted<T>(s: seq<T>, key: T -> Key)
    requires SortedBy(s, key)
    ensures Sort(s, key) == s
  {
    if s != [] {
      SortOfSorted(s[1..], key);
      assert s == [s[0]] + s[1..];
      InsertFirst(s[0], s[1..], key);
    }
  }

  /** Sorting changes exactly the lists that are not sorted. */
  lemma SortedExactly<T>(s: seq<T>, key: T -> Key)
    ensures Sort(s, key) == s <==> SortedBy(s, key)
  {
    if SortedBy(s, key) {
      SortOfSorted(s, key);
    } else {
      SortSorted(s, key);
    }
  }

  lemma {:induction false} DistinctCounts<T>(s: seq<T>, x: T)
    requires Distinct(s)
    ensures multiset(s)[x] <= 1
  {
    if s != [] {
      DistinctCounts(s[1..], x);
      assert s == [s[0]] + s[1..];
      if s[0] == x {
        assert x !in s[1..];
      }
    }
  }

  lemma TwiceCounts<T>(s: seq<T>, p: nat, q: nat)
    requires p < q < |s| && s[p] == s[q]
    ensures multiset(s)[s[p]] >= 2
  {
    assert s == s[..q] + [s[q]] + s[q + 1..];
    assert s[..q][p] == s[p];
    assert s[p] in multiset(s[..q]);
  }

  lemma SortKeepsElements<T>(s: seq<T>, key: T -> Key)
    ensures |Sort(s, key)| == |s|
    ensures forall x :: x in Sort(s, key) <==> x in s
    ensures Distinct(s) ==> Distinct(Sort(s, key))
  {
    var t := Sort(s, key);
    SortPermutes(s, key);
    assert |t| == |multiset(t)| == |multiset(s)| == |s|;
    forall x ensures x in t <==> x in s {
      assert x in t <==> x in multiset(t);
    }
    if Distinct(s) {
      forall p, q | 0 <= p < q < |t| ensures t[p] != t[q] {
        DistinctCounts(s, t[p]);
        if t[p] == t[q] { TwiceCounts(t, p, q); }
      }
    }
  }
}
