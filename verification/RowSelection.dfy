/** One row per model and workload, out of the summaries of several benchmark logs. */
module RowSelection {
  import opened Sequences

  datatype Key = Key(model: string, workload: string)

  /** A summary; `figures` are the averages and percentiles it reports. */
  datatype Row = Row(key: Key, policy: string, completed: int, source: string, figures: seq<real>)

  // ---------- Orders ----------

  predicate StringLess(a: string, b: string) {
    b != [] && (a == [] || a[0] < b[0] || (a[0] == b[0] && StringLess(a[1..], b[1..])))
  }

  /** A strict total order. */
  lemma {:induction false} StringOrder(a: string, b: string, c: string)
    ensures !StringLess(a, a)
    ensures StringLess(a, b) || a == b || StringLess(b, a)
    ensures StringLess(a, b) && StringLess(b, c) ==> StringLess(a, c)
  {
    if a != [] && b != [] && a[0] == b[0] {
      assert a == [a[0]] + a[1..] && b == [b[0]] + b[1..];
      StringOrder(a[1..], b[1..], if c == [] then c else c[1..]);
    } else if a != [] {
      StringOrder(a[1..], a[1..], a[1..]);
    }
  }

  predicate KeyLess(k: Key, l: Key) {
    StringLess(k.model, l.model) || (k.model == l.model && StringLess(k.workload, l.workload))
  }

  lemma KeyOrder(k: Key, l: Key, m: Key)
    ensures !KeyLess(k, k)
    ensures KeyLess(k, l) || k == l || KeyLess(l, k)
    ensures KeyLess(k, l) && KeyLess(l, m) ==> KeyLess(k, m)
  {
    StringOrder(k.model, l.model, m.model);
    StringOrder(k.workload, l.workload, m.workload);
  }

  /** The position of each preferred policy, the last one if it is repeated. */
  function PolicyRank(preferred: seq<string>): map<string, nat> {
    if preferred == [] then map[]
    else PolicyRank(preferred[..|preferred| - 1])[preferred[|preferred| - 1] := |preferred| - 1]
  }

  function RankOf(ranks: map<string, nat>, policy: string): nat {
    if policy in ranks then ranks[policy] else |ranks|
  }

  /** The better rank first, then the more completed requests, then the lesser source. */
  predicate Before(ranks: map<string, nat>, a: Row, b: Row) {
    var p, q := RankOf(ranks, a.policy), RankOf(ranks, b.policy);
    p < q || (p == q && (a.completed > b.completed || (a.completed == b.completed && StringLess(a.source, b.source))))
  }

  lemma BeforeOrder(ranks: map<string, nat>, a: Row, b: Row, c: Row)
    ensures Before(ranks, a, b) ==> !Before(ranks, b, a)
    ensures Before(ranks, a, b) && !Before(ranks, c, b) ==> Before(ranks, a, c)
  {
    StringOrder(a.source, b.source, c.source);
    StringOrder(b.source, c.source, a.source);
    StringOrder(a.source, b.source, a.source);
  }

  lemma {:induction false} RankedArePreferred(preferred: seq<string>, p: string)
    ensures p in PolicyRank(preferred) <==> p in preferred
    ensures p in preferred ==> PolicyRank(preferred)[p] < |preferred|
  {
    if preferred != [] {
      var n := |preferred| - 1;
      RankedArePreferred(preferred[..n], p);
      assert preferred == preferred[..n] + [preferred[n]];
    }
  }

  lemma {:induction false} RanksCount(preferred: seq<string>)
    ensures |PolicyRank(preferred)| <= |preferred|
    ensures |PolicyRank(preferred)| == |preferred| <==> Distinct(preferred)
  {
    if preferred != [] {
      var n := |preferred| - 1;
      var most, last := preferred[..n], preferred[n];
      RanksCount(most);
      RankedArePreferred(most, last);
      UpdateCount(PolicyRank(most), last, n);
      DistinctAppend(most, last);
      assert preferred == most + [last];
    }
  }

  lemma DistinctAppend(s: seq<string>, x: string)
    ensures Distinct(s + [x]) <==> Distinct(s) && x !in s
  {
    if Distinct(s + [x]) {
      forall i, j | 0 <= i < j < |s| ensures s[i] != s[j] {
        assert (s + [x])[i] != (s + [x])[j];
      }
      forall i | 0 <= i < |s| ensures s[i] != x {
        assert (s + [x])[i] != (s + [x])[|s|];
      }
    }
  }

  lemma UpdateCount(m: map<string, nat>, k: string, v: nat)
    ensures |m[k := v]| == if k in m then |m| else |m| + 1
  {
    assert |m| == |m.Keys| && |m[k := v]| == |m[k := v].Keys|;
    assert m[k := v].Keys == m.Keys + {k};
    if k in m { assert m.Keys + {k} == m.Keys; }
  }

  /** Every preferred policy ranks before those not listed exactly when none is listed twice. */
  lemma PreferredFirst(preferred: seq<string>)
    ensures (forall p :: p in preferred ==> RankOf(PolicyRank(preferred), p) < |PolicyRank(preferred)|)
       <==> Distinct(preferred)
  {
    RanksCount(preferred);
    forall p ensures p in PolicyRank(preferred) <==> p in preferred
             ensures p in preferred ==> PolicyRank(preferred)[p] < |preferred|
    {
      RankedArePreferred(preferred, p);
    }
    if preferred != [] {
      var last := preferred[|preferred| - 1];
      assert last in preferred && PolicyRank(preferred)[last] == |preferred| - 1;
    }
  }

  // ---------- Selection ----------

  /** No earlier row of its key is as good as `x`, and no later one is better. */
  ghost predicate FirstBest(rows: seq<Row>, ranks: map<string, nat>, x: Row) {
    exists i :: 0 <= i < |rows| && FirstBestAt(rows, ranks, x, i)
  }

  ghost predicate FirstBestAt(rows: seq<Row>, ranks: map<string, nat>, x: Row, i: nat)
    requires i < |rows|
  {
    rows[i] == x &&
    forall j :: 0 <= j < |rows| && rows[j].key == x.key ==>
      if j < i then Before(ranks, x, rows[j]) else !Before(ranks, rows[j], x)
  }

  ghost predicate HasKey(rows: seq<Row>, k: Key) {
    exists i :: 0 <= i < |rows| && rows[i].key == k
  }

  /** The keys that occur, each once and in order, each with its best row. */
  ghost predicate IsSelection(rows: seq<Row>, ranks: map<string, nat>, r: seq<Row>) {
    && (forall i, j :: 0 <= i < j < |r| ==> KeyLess(r[i].key, r[j].key))
    && (forall k :: HasKey(r, k) <==> HasKey(rows, k))
    && (forall i :: 0 <= i < |r| ==> FirstBest(rows, ranks, r[i]))
  }

  /** The best row after one more row. */
  lemma NextRow(rows: seq<Row>, ranks: map<string, nat>, x: Row, y: Row)
    requires FirstBest(rows, ranks, x)
    ensures x.key != y.key || !Before(ranks, y, x) ==> FirstBest(rows + [y], ranks, x)
    ensures x.key == y.key && Before(ranks, y, x) ==> FirstBest(rows + [y], ranks, y)
  {
    var all, i :| all == rows + [y] && 0 <= i < |rows| && FirstBestAt(rows, ranks, x, i);
    if x.key != y.key || !Before(ranks, y, x) {
      assert FirstBestAt(all, ranks, x, i);
    } else {
      forall j | 0 <= j < |rows| && rows[j].key == y.key ensures Before(ranks, y, rows[j]) {
        BeforeOrder(ranks, x, rows[j], x);
        BeforeOrder(ranks, y, x, rows[j]);
      }
      BeforeOrder(ranks, y, y, y);
      assert FirstBestAt(all, ranks, y, |rows|);
    }
  }

  lemma NewKey(rows: seq<Row>, ranks: map<string, nat>, y: Row)
    requires !HasKey(rows, y.key)
    ensures FirstBest(rows + [y], ranks, y)
  {
    BeforeOrder(ranks, y, y, y);
    assert FirstBestAt(rows + [y], ranks, y, |rows|);
  }

  lemma HasKeyAppend(rows: seq<Row>, y: Row, k: Key)
    ensures HasKey(rows + [y], k) <==> HasKey(rows, k) || y.key == k
  {
    if HasKey(rows, k) {
      var i :| 0 <= i < |rows| && rows[i].key == k;
      assert (rows + [y])[i].key == k;
    }
    assert (rows + [y])[|rows|] == y;
  }

  function InsertKey(ks: seq<Key>, k: Key): (r: seq<Key>)
    requires forall i, j :: 0 <= i < j < |ks| ==> KeyLess(ks[i], ks[j])
    requires k !in ks
    ensures forall i, j :: 0 <= i < j < |r| ==> KeyLess(r[i], r[j])
    ensures forall l :: l in r <==> l in ks || l == k
  {
    if ks == [] then [k]
    else if KeyLess(k, ks[0]) then
      assert forall j :: 0 < j < |ks| ==> KeyLess(k, ks[j]) by {
        forall j | 0 < j < |ks| ensures KeyLess(k, ks[j]) { KeyOrder(k, ks[0], ks[j]); }
      }
      [k] + ks
    else
      KeyOrder(k, ks[0], k);
      var rest := InsertKey(ks[1..], k);
      assert forall l :: l in rest ==> KeyLess(ks[0], l) by {
        forall l | l in rest ensures KeyLess(ks[0], l) { }
      }
      [ks[0]] + rest
  }

  /** The keys of a dictionary in order. */
  method SortedKeys(keys: set<Key>) returns (r: seq<Key>)
    ensures forall i, j :: 0 <= i < j < |r| ==> KeyLess(r[i], r[j])
    ensures forall k :: k in r <==> k in keys
  {
    var rest := keys;
    r := [];
    while rest != {}
      invariant rest <= keys
      invariant forall i, j :: 0 <= i < j < |r| ==> KeyLess(r[i], r[j])
      invariant forall k :: k in r <==> k in keys - rest
    {
      var k :| k in rest;
      r := InsertKey(r, k);
      rest := rest - {k};
    }
  }

  /** The dictionary holds the best row of each key. */
  ghost predicate HoldsBest(rows: seq<Row>, ranks: map<string, nat>, dict: map<Key, Row>) {
    && (forall k :: k in dict <==> HasKey(rows, k))
    && (forall k :: k in dict ==> dict[k].key == k && FirstBest(rows, ranks, dict[k]))
  }

  /** One more row enters the dictionary if its key is new or it is better. */
  lemma NextHolds(rows: seq<Row>, ranks: map<string, nat>, dict: map<Key, Row>, row: Row)
    requires HoldsBest(rows, ranks, dict)
    ensures var enters := row.key !in dict || Before(ranks, row, dict[row.key]);
            HoldsBest(rows + [row], ranks, if enters then dict[row.key := row] else dict)
  {
    forall k ensures HasKey(rows + [row], k) <==> HasKey(rows, k) || row.key == k {
      HasKeyAppend(rows, row, k);
    }
    if row.key !in dict { NewKey(rows, ranks, row); }
    forall k | k in dict
      ensures k != row.key || !Before(ranks, row, dict[k]) ==> FirstBest(rows + [row], ranks, dict[k])
      ensures k == row.key && Before(ranks, row, dict[k]) ==> FirstBest(rows + [row], ranks, row)
    {
      NextRow(rows, ranks, dict[k], row);
    }
  }

  /** The values of the dictionary in the order of its keys. */
  lemma InKeyOrder(rows: seq<Row>, ranks: map<string, nat>, dict: map<Key, Row>, keys: seq<Key>, r: seq<Row>)
    requires HoldsBest(rows, ranks, dict)
    requires forall i, j :: 0 <= i < j < |keys| ==> KeyLess(keys[i], keys[j])
    requires forall k :: k in keys <==> k in dict
    requires |r| == |keys| && forall i :: 0 <= i < |keys| ==> r[i] == dict[keys[i]]
    ensures IsSelection(rows, ranks, r)
  {
    forall k ensures HasKey(r, k) <==> HasKey(rows, k) {
      if k in keys {
        var i :| 0 <= i < |keys| && keys[i] == k;
        assert r[i].key == k;
      }
    }
  }

  /** One pass over the rows keeps the best row of each key. */
  method SelectRows(rows: seq<Row>, preferred: seq<string>) returns (r: seq<Row>)
    ensures IsSelection(rows, PolicyRank(preferred), r)
  {
    var byWorkload: map<Key, Row> := map[];
    var policyRank := PolicyRank(preferred);
    for n := 0 to |rows|
      invariant HoldsBest(rows[..n], policyRank, byWorkload)
    {
      var row := rows[n];
      NextHolds(rows[..n], policyRank, byWorkload, row);
      assert rows[..n + 1] == rows[..n] + [row];
      if row.key !in byWorkload {
        byWorkload := byWorkload[row.key := row];
      } else if Before(policyRank, row, byWorkload[row.key]) {
        byWorkload := byWorkload[row.key := row];
      }
    }
    assert rows[..|rows|] == rows;
    var keys := SortedKeys(byWorkload.Keys);
    r := seq(|keys|, i requires 0 <= i < |keys| => byWorkload[keys[i]]);
    InKeyOrder(rows, policyRank, byWorkload, keys, r);
  }

  // ---------- Order independence ----------

  /** No row of its key is better. */
  ghost predicate Best(rows: seq<Row>, ranks: map<string, nat>, x: Row) {
    x in rows && forall y :: y in rows && y.key == x.key ==> !Before(ranks, y, x)
  }

  ghost predicate UniqueBest(rows: seq<Row>, ranks: map<string, nat>) {
    forall x: Row, y: Row :: x.key == y.key && Best(rows, ranks, x) && Best(rows, ranks, y) ==> x == y
  }

  lemma FirstBestIsBest(rows: seq<Row>, ranks: map<string, nat>, x: Row)
    requires FirstBest(rows, ranks, x)
    ensures Best(rows, ranks, x)
  {
    var i :| 0 <= i < |rows| && FirstBestAt(rows, ranks, x, i);
    forall y | y in rows && y.key == x.key ensures !Before(ranks, y, x) {
      var j :| 0 <= j < |rows| && rows[j] == y;
      BeforeOrder(ranks, x, y, x);
    }
  }

  /** Every key that occurs has a first best row. */
  lemma {:induction false} SomeFirstBest(rows: seq<Row>, ranks: map<string, nat>, k: Key) returns (x: Row)
    requires HasKey(rows, k)
    ensures x.key == k && FirstBest(rows, ranks, x)
  {
    var n := |rows| - 1;
    var most, y := rows[..n], rows[n];
    assert rows == most + [y];
    HasKeyAppend(most, y, k);
    if HasKey(most, k) {
      x := SomeFirstBest(most, ranks, k);
      NextRow(most, ranks, x, y);
      if y.key == k && Before(ranks, y, x) { x := y; }
    } else {
      NewKey(most, ranks, y);
      x := y;
    }
  }

  lemma SameRows(rows: seq<Row>, other: seq<Row>)
    requires multiset(rows) == multiset(other)
    ensures forall x :: x in rows <==> x in other
    ensures forall k :: HasKey(rows, k) <==> HasKey(other, k)
  {
    forall x ensures x in rows <==> x in other {
      assert x in rows <==> x in multiset(rows);
      assert x in other <==> x in multiset(other);
    }
    forall k ensures HasKey(rows, k) <==> HasKey(other, k) {
      if HasKey(rows, k) {
        var i :| 0 <= i < |rows| && rows[i].key == k;
        assert rows[i] in other;
      }
      if HasKey(other, k) {
        var i :| 0 <= i < |other| && other[i].key == k;
        assert other[i] in rows;
      }
    }
  }

  /** With a unique best row for each key, any order of the rows gives the same selection. */
  lemma AnyOrder(rows: seq<Row>, other: seq<Row>, ranks: map<string, nat>, r: seq<Row>)
    requires IsSelection(rows, ranks, r) && UniqueBest(rows, ranks) && multiset(rows) == multiset(other)
    ensures IsSelection(other, ranks, r)
  {
    SameRows(rows, other);
    forall i | 0 <= i < |r| ensures FirstBest(other, ranks, r[i]) {
      assert HasKey(r, r[i].key);
      var x := SomeFirstBest(other, ranks, r[i].key);
      FirstBestIsBest(other, ranks, x);
      FirstBestIsBest(rows, ranks, r[i]);
      assert Best(rows, ranks, x);
    }
  }

  /** Moving a best row to the front makes it the one selected. */
  lemma FrontIsSelected(rows: seq<Row>, ranks: map<string, nat>, x: Row) returns (front: seq<Row>)
    requires Best(rows, ranks, x)
    ensures multiset(front) == multiset(rows)
    ensures forall y: Row :: y.key == x.key && FirstBest(front, ranks, y) ==> y == x
  {
    var i :| 0 <= i < |rows| && rows[i] == x;
    front := [x] + (rows[..i] + rows[i + 1..]);
    assert rows == rows[..i] + [x] + rows[i + 1..];
    SameRows(rows, front);
    forall y: Row | y.key == x.key && FirstBest(front, ranks, y) ensures y == x {
      var j :| 0 <= j < |front| && FirstBestAt(front, ranks, y, j);
      assert front[0].key == y.key;
    }
  }

  /** Every order of the rows gives the same selection exactly when no two different rows of a key
      are both best. */
  lemma SelectionIgnoresOrder(rows: seq<Row>, ranks: map<string, nat>, r: seq<Row>)
    requires IsSelection(rows, ranks, r)
    ensures (forall other :: multiset(other) == multiset(rows) ==> IsSelection(other, ranks, r)) <==> UniqueBest(rows, ranks)
  {
    if UniqueBest(rows, ranks) {
      forall other | multiset(other) == multiset(rows) ensures IsSelection(other, ranks, r) {
        AnyOrder(rows, other, ranks, r);
      }
    } else {
      var x: Row, y: Row :| x.key == y.key && Best(rows, ranks, x) && Best(rows, ranks, y) && x != y;
      var front := FrontIsSelected(rows, ranks, x);
      var front' := FrontIsSelected(rows, ranks, y);
      var i :| 0 <= i < |rows| && rows[i] == x;
      assert HasKey(r, x.key);
      if IsSelection(front, ranks, r) && IsSelection(front', ranks, r) {
        assert false;
      }
    }
  }

  /** No two rows of a key come from one source. */
  predicate DistinctSources(rows: seq<Row>) {
    forall i, j :: 0 <= i < j < |rows| && rows[i].key == rows[j].key ==> rows[i].source != rows[j].source
  }

  /** Then the best rows are unique, so the order does not matter. */
  lemma SourcesDecide(rows: seq<Row>, ranks: map<string, nat>)
    requires DistinctSources(rows)
    ensures UniqueBest(rows, ranks)
  {
    forall x: Row, y: Row | x.key == y.key && Best(rows, ranks, x) && Best(rows, ranks, y) ensures x == y {
      StringOrder(x.source, y.source, x.source);
      var i :| 0 <= i < |rows| && rows[i] == x;
      var j :| 0 <= j < |rows| && rows[j] == y;
    }
  }

  /** Two tied rows from one source: the first one is selected. */
  lemma TiedRows(ranks: map<string, nat>)
    ensures var a := Row(Key("m", "w"), "p", 1, "s", [0.0]);
            var b := a.(figures := [1.0]);
            a != b && IsSelection([a, b], ranks, [a]) && IsSelection([b, a], ranks, [b])
  {
    var a := Row(Key("m", "w"), "p", 1, "s", [0.0]);
    var b := a.(figures := [1.0]);
    FirstOfTie(ranks, a, b);
    FirstOfTie(ranks, b, a);
    assert a.figures[0] != b.figures[0];
  }

  lemma FirstOfTie(ranks: map<string, nat>, a: Row, b: Row)
    requires a.key == b.key && !Before(ranks, b, a)
    ensures IsSelection([a, b], ranks, [a])
  {
    BeforeOrder(ranks, a, a, a);
    assert FirstBestAt([a, b], ranks, a, 0);
    forall k ensures HasKey([a], k) <==> HasKey([a, b], k) {
      assert HasKey([a], k) <==> a.key == k by { assert [a][0] == a; }
      assert HasKey([a, b], k) <==> a.key == k by { assert [a, b][0] == a; }
    }
  }

  // ---------- What is selected ----------

  /** A policy ranks by its last position. */
  lemma {:induction false} RankIsLastPosition(preferred: seq<string>, k: nat)
    requires k < |preferred| && forall j :: k < j < |preferred| ==> preferred[j] != preferred[k]
    ensures RankOf(PolicyRank(preferred), preferred[k]) == k
  {
    var n := |preferred| - 1;
    if k < n {
      RankIsLastPosition(preferred[..n], k);
      RankedArePreferred(preferred[..n], preferred[k]);
      assert preferred[..n][k] == preferred[k];
    }
  }

  /** In a list without repetition a policy ranks by its position, and an unlisted one last. */
  lemma RankIsPosition(preferred: seq<string>, policy: string)
    requires Distinct(preferred)
    ensures forall k :: 0 <= k < |preferred| && preferred[k] == policy ==> RankOf(PolicyRank(preferred), policy) == k
    ensures policy !in preferred ==> RankOf(PolicyRank(preferred), policy) == |preferred|
  {
    forall k | 0 <= k < |preferred| && preferred[k] == policy ensures RankOf(PolicyRank(preferred), policy) == k {
      RankIsLastPosition(preferred, k);
    }
    RankedArePreferred(preferred, policy);
    RanksCount(preferred);
  }

  /** The strings agree before position `k`, where `a` ends or has the smaller character. */
  ghost predicate LessAt(a: string, b: string, k: nat) {
    k <= |a| && k < |b| && a[..k] == b[..k] && (k == |a| || a[k] < b[k])
  }

  lemma LessAtNext(a: string, b: string, k: nat)
    requires a != [] && b != [] && a[0] == b[0]
    ensures !LessAt(a, b, 0)
    ensures LessAt(a, b, k + 1) <==> LessAt(a[1..], b[1..], k)
  {
    if k < |a| && k < |b| {
      assert a[..k + 1] == [a[0]] + a[1..][..k] && b[..k + 1] == [b[0]] + b[1..][..k];
      assert a[1..][..k] == a[..k + 1][1..] && b[1..][..k] == b[..k + 1][1..];
    }
  }

  /** The order of strings. */
  lemma {:induction false} StringLessExactly(a: string, b: string)
    ensures StringLess(a, b) <==> exists k: nat :: LessAt(a, b, k)
  {
    if a != [] && b != [] && a[0] == b[0] {
      StringLessExactly(a[1..], b[1..]);
      LessAtNext(a, b, 0);
      if k: nat :| LessAt(a[1..], b[1..], k) { LessAtNext(a, b, k); }
      if k: nat :| LessAt(a, b, k) {
        if k > 0 { LessAtNext(a, b, k - 1); }
      }
    } else if StringLess(a, b) {
      assert LessAt(a, b, 0);
    }
  }

  /** No row of its key has a better rank than a selected row; at equal rank none has completed more
      requests, and at equal number none comes from a lesser source. */
  lemma SelectedIsBest(rows: seq<Row>, ranks: map<string, nat>, r: seq<Row>, x: Row, y: Row)
    requires IsSelection(rows, ranks, r) && x in r && y in rows && y.key == x.key
    ensures x in rows
    ensures RankOf(ranks, x.policy) <= RankOf(ranks, y.policy)
    ensures RankOf(ranks, x.policy) == RankOf(ranks, y.policy) ==> y.completed <= x.completed
    ensures RankOf(ranks, x.policy) == RankOf(ranks, y.policy) && y.completed == x.completed ==>
              !StringLess(y.source, x.source)
  {
    var i :| 0 <= i < |r| && r[i] == x;
    FirstBestIsBest(rows, ranks, x);
  }

  /** Of rows that agree in rank, completed requests and source, the first is selected. */
  lemma FirstOfEqualsIsSelected(rows: seq<Row>, ranks: map<string, nat>, r: seq<Row>, x: Row)
    requires IsSelection(rows, ranks, r) && x in r
    ensures exists i :: 0 <= i < |rows| && rows[i] == x && forall j :: 0 <= j < i && rows[j].key == x.key ==>
              RankOf(ranks, rows[j].policy) != RankOf(ranks, x.policy)
              || rows[j].completed != x.completed || rows[j].source != x.source
  {
    var k :| 0 <= k < |r| && r[k] == x;
    assert FirstBest(rows, ranks, x);
    var i :| 0 <= i < |rows| && FirstBestAt(rows, ranks, x, i);
    forall j | 0 <= j < i && rows[j].key == x.key
      ensures RankOf(ranks, rows[j].policy) != RankOf(ranks, x.policy)
           || rows[j].completed != x.completed || rows[j].source != x.source
    {
      assert Before(ranks, x, rows[j]);
      StringOrder(x.source, x.source, x.source);
    }
  }

  /** The selection lists the keys by model, then by workload. */
  lemma SelectionByKey(rows: seq<Row>, ranks: map<string, nat>, r: seq<Row>, i: nat, j: nat)
    requires IsSelection(rows, ranks, r) && i < j < |r|
    ensures StringLess(r[i].key.model, r[j].key.model)
         || (r[i].key.model == r[j].key.model && StringLess(r[i].key.workload, r[j].key.workload))
  {
    assert KeyLess(r[i].key, r[j].key);
  }
}
