/** How the log is cut into builds, and the order within the last one. */
module NinjaBuilds {
  import opened Sequences
  import opened NinjaReport
  import opened NinjaLog

  /** The records are the builds one after the other.  Each build is consistent, and the first record
      of the next one is not consistent with it. */
  ghost predicate IsCut(rs: seq<Record>, builds: seq<seq<Record>>) {
    && Flatten(builds) == rs
    && (forall i :: 0 <= i < |builds| ==> builds[i] != [] && Consistent(builds[i]))
    && (forall i :: 0 < i < |builds| ==> !Consistent(builds[i - 1] + [builds[i][0]]))
  }

  lemma ConsistentOne(r: Record)
    ensures Consistent([r])
  {
  }

  /** A record that does not fit the last build starts another. */
  lemma CutNew(rs: seq<Record>, builds: seq<seq<Record>>, r: Record)
    requires IsCut(rs, builds)
    requires builds != [] ==> !Consistent(builds[|builds| - 1] + [r])
    ensures IsCut(rs + [r], builds + [[r]])
  {
    FlattenAppend(builds, [r]);
    ConsistentOne(r);
  }

  /** A record that fits extends it. */
  lemma CutLonger(rs: seq<Record>, builds: seq<seq<Record>>, r: Record)
    requires IsCut(rs, builds) && builds != [] && Consistent(builds[|builds| - 1] + [r])
    ensures IsCut(rs + [r], builds[..|builds| - 1] + [builds[|builds| - 1] + [r]])
  {
    var n := |builds| - 1;
    var longer := builds[..n] + [builds[n] + [r]];
    assert builds == builds[..n] + [builds[n]];
    FlattenAppend(builds[..n], builds[n]);
    FlattenAppend(builds[..n], builds[n] + [r]);
    forall i | 0 < i < |longer| ensures !Consistent(longer[i - 1] + [longer[i][0]]) {
      assert longer[i][0] == builds[i][0] && longer[i - 1] == builds[i - 1];
    }
  }

  /** The last build of the log is the last of such builds. */
  lemma {:induction false} LastBuildIsLast(rs: seq<Record>) returns (builds: seq<seq<Record>>)
    ensures IsCut(rs, builds)
    ensures LastBuild(rs, false) == if builds == [] then [] else builds[|builds| - 1]
  {
    if rs == [] {
      builds := [];
    } else {
      var before, r := rs[..|rs| - 1], rs[|rs| - 1];
      builds := LastBuildIsLast(before);
      assert rs == before + [r];
      if builds != [] && Consistent(builds[|builds| - 1] + [r]) {
        CutLonger(before, builds, r);
        builds := builds[..|builds| - 1] + [builds[|builds| - 1] + [r]];
      } else {
        CutNew(before, builds, r);
        if builds == [] {
          assert LastBuild(rs, false) == [r] by { ConsistentOne(r); }
        }
        builds := builds + [[r]];
      }
    }
  }

  lemma ConsistentPart(rs: seq<Record>, n: nat)
    requires n <= |rs| && Consistent(rs)
    ensures Consistent(rs[..n])
  {
    forall j, k | 0 <= j < k < n ensures Compatible(rs[..n][j], rs[..n][k]) {
      assert Compatible(rs[j], rs[k]);
    }
  }

  /** If the first build of one division of the log is shorter than a consistent first build of
      another, the record after it fits it. */
  lemma ShorterCouldGrow(a: seq<seq<Record>>, b: seq<seq<Record>>, rs: seq<Record>)
    requires a != [] && b != [] && Flatten(a) == rs == Flatten(b) && Consistent(a[0])
    requires forall i :: 0 <= i < |b| ==> b[i] != []
    requires |b[0]| < |a[0]|
    ensures |b| > 1 && Consistent(b[0] + [b[1][0]])
  {
    var rest := Flatten(b[1..]);
    assert rs == a[0] + Flatten(a[1..]) == b[0] + rest;
    assert b[1..] != [] && b[1..][0] == b[1];
    assert rest[0] == b[1][0];
    var n := |b[0]| + 1;
    assert a[0][..n] == rs[..n] == b[0] + [b[1][0]];
    ConsistentPart(a[0], n);
  }

  /** Two such cuts of one log start with the same build. */
  lemma FirstBuildReaches(a: seq<seq<Record>>, b: seq<seq<Record>>, rs: seq<Record>)
    requires IsCut(rs, a) && IsCut(rs, b) && a != [] && b != []
    ensures |a[0]| <= |b[0]|
  {
    if |b[0]| < |a[0]| {
      ShorterCouldGrow(a, b, rs);
      assert false;
    }
  }

  lemma CutTail(rs: seq<Record>, a: seq<seq<Record>>)
    requires IsCut(rs, a) && a != []
    ensures IsCut(rs[|a[0]|..], a[1..])
  {
    assert rs == a[0] + Flatten(a[1..]);
    forall i | 0 < i < |a[1..]| ensures !Consistent(a[1..][i - 1] + [a[1..][i][0]]) {
      assert a[1..][i] == a[i + 1] && a[1..][i - 1] == a[i];
    }
  }

  /** So the builds are determined by the log. */
  lemma {:induction false} CutIsUnique(rs: seq<Record>, a: seq<seq<Record>>, b: seq<seq<Record>>)
    requires IsCut(rs, a) && IsCut(rs, b)
    ensures a == b
    decreases |a|
  {
    if a == [] || b == [] {
      assert rs == [];
      assert a == [] && b == [];
    } else {
      FirstBuildReaches(a, b, rs);
      FirstBuildReaches(b, a, rs);
      assert rs == a[0] + Flatten(a[1..]) && rs == b[0] + Flatten(b[1..]);
      assert a[0] == rs[..|a[0]|] == b[0];
      CutTail(rs, a);
      CutTail(rs, b);
      CutIsUnique(rs[|a[0]|..], a[1..], b[1..]);
    }
  }

  /** The last build, whatever the cut. */
  lemma LastOfAnyCut(rs: seq<Record>, builds: seq<seq<Record>>)
    requires IsCut(rs, builds) && rs != []
    ensures builds != [] && LastBuild(rs, false) == builds[|builds| - 1]
  {
    var own := LastBuildIsLast(rs);
    CutIsUnique(rs, builds, own);
  }

  /** A consistent log is a single build. */
  lemma ConsistentIsOneBuild(rs: seq<Record>)
    requires Consistent(rs)
    ensures LastBuild(rs, false) == rs
  {
    if rs != [] {
      assert Flatten([rs]) == rs by { assert [rs][1..] == []; }
      LastOfAnyCut(rs, [rs]);
    }
  }

  // ---------- Lines, names and order ----------

  lemma RecordsOfOne(line: Line)
    ensures Records([line]) == match line case Malformed => [] case Entry(r) => [r]
  {
    assert [line][..0] == [];
  }

  /** The records are those of the well-formed lines, in order. */
  lemma {:induction false} RecordsOfLines(lines: seq<Line>, more: seq<Line>)
    ensures Records(lines + more) == Records(lines) + Records(more)
  {
    if more == [] {
      assert lines + more == lines;
    } else {
      var n := |more| - 1;
      RecordsOfLines(lines, more[..n]);
      assert (lines + more)[..|lines| + n] == lines + more[..n];
    }
  }

  /** The times of a target are those of the first record with its hash, in seconds. */
  lemma {:induction false} FirstIsFirst(rs: seq<Record>, hash: string) returns (k: nat)
    requires Seen(rs, hash)
    ensures k < |rs| && rs[k].hash == hash && forall j :: 0 <= j < k ==> rs[j].hash != hash
    ensures GroupOf(rs, hash).start * 1000.0 == rs[k].start as real
    ensures GroupOf(rs, hash).end * 1000.0 == rs[k].end as real
    ensures FirstWith(rs, hash) == rs[k]
  {
    k := 0;
    while rs[k].hash != hash
      invariant k < |rs| && forall j :: 0 <= j < k ==> rs[j].hash != hash
      decreases |rs| - k
    {
      var i :| 0 <= i < |rs| && rs[i].hash == hash;
      assert i > k;
      k := k + 1;
    }
    FirstWithAt(rs, hash, k);
  }

  lemma {:induction false} FirstWithAt(rs: seq<Record>, hash: string, k: nat)
    requires k < |rs| && rs[k].hash == hash && forall j :: 0 <= j < k ==> rs[j].hash != hash
    ensures Seen(rs, hash) && FirstWith(rs, hash) == rs[k]
  {
    if k > 0 {
      assert rs[0].hash != hash && rs[1..][k - 1] == rs[k];
      FirstWithAt(rs[1..], hash, k - 1);
    }
  }

  lemma MembersOfOne(r: Record, hash: string)
    ensures Members([r], hash) == if r.hash == hash then [r] else []
  {
    assert [r][..0] == [];
  }

  lemma MembersAppend(rs: seq<Record>, r: Record, hash: string)
    ensures Members(rs + [r], hash) == Members(rs, hash) + if r.hash == hash then [r] else []
  {
    assert (rs + [r])[..|rs|] == rs;
  }

  /** A target has the records of its hash in their order. */
  lemma {:induction false} MembersInOrder(rs: seq<Record>, more: seq<Record>, hash: string)
    ensures Members(rs + more, hash) == Members(rs, hash) + Members(more, hash)
  {
    if more == [] {
      assert rs + more == rs;
    } else {
      var most, last := more[..|more| - 1], more[|more| - 1];
      MembersInOrder(rs, most, hash);
      MembersAppend(rs + most, last, hash);
      MembersAppend(most, last, hash);
      assert rs + more == (rs + most) + [last] && more == most + [last];
    }
  }

  /** An earlier target has a record before all records of a later one. */
  ghost predicate Precedes(rs: seq<Record>, earlier: string, later: string) {
    exists k :: 0 <= k < |rs| && rs[k].hash == earlier && forall j :: 0 <= j <= k ==> rs[j].hash != later
  }

  lemma {:induction false} HashesInOrder(rs: seq<Record>, p: nat, q: nat)
    requires p < q < |Hashes(rs)|
    ensures Precedes(rs, Hashes(rs)[p], Hashes(rs)[q])
  {
    var n := |rs| - 1;
    var before, hs := rs[..n], Hashes(rs[..n]);
    HashesContents(before);
    assert hs[p] in hs;
    if q < |hs| {
      HashesInOrder(before, p, q);
      var k :| 0 <= k < n && before[k].hash == hs[p] && forall j :: 0 <= j <= k ==> before[j].hash != hs[q];
      assert rs[k].hash == hs[p] && forall j :: 0 <= j <= k ==> rs[j] == before[j];
    } else {
      var k :| 0 <= k < n && before[k].hash == hs[p];
      assert rs[k].hash == hs[p];
      forall j | 0 <= j <= k ensures rs[j].hash != rs[n].hash {
        assert before[j] == rs[j];
      }
    }
  }
}
