/** Reading the build log: the records of the last build, grouped into targets by command hash. */
module NinjaLog {
  import opened Sequences
  import opened NinjaReport

  /** A log line: times are milliseconds.  A line without exactly five fields is malformed. */
  datatype Line = Malformed | Entry(record: Record)

  datatype Record = Record(start: int, end: int, name: string, hash: string)

  function Seconds(ms: int): real {
    ms as real / 1000.0
  }

  function Records(lines: seq<Line>): seq<Record> {
    if lines == [] then []
    else
      var rs := Records(lines[..|lines| - 1]);
      var line := lines[|lines| - 1];
      if line.Entry? then rs + [line.record] else rs
  }

  // ---------- Which records belong to the last build ----------

  predicate SameTimes(a: Record, b: Record) {
    a.start == b.start && a.end == b.end
  }

  /** End times do not go back, and equal commands have equal times. */
  ghost predicate Compatible(earlier: Record, later: Record) {
    earlier.end <= later.end && (earlier.hash == later.hash ==> SameTimes(earlier, later))
  }

  /** Records one build can have written: end times in order, one pair of times per command. */
  ghost predicate Consistent(rs: seq<Record>) {
    forall j, k {:trigger Compatible(rs[j], rs[k])} :: 0 <= j < k < |rs| ==> Compatible(rs[j], rs[k])
  }

  /** A build with one more record, or a new one if the record does not fit. */
  ghost function Extend(build: seq<Record>, r: Record, showAll: bool): seq<Record> {
    if showAll || Consistent(build + [r]) then build + [r] else [r]
  }

  /** The log is cut into builds, each extended as long as it stays consistent; this is the last one.
      With `showAll` nothing is cut. */
  ghost function LastBuild(rs: seq<Record>, showAll: bool): seq<Record> {
    if rs == [] then [] else Extend(LastBuild(rs[..|rs| - 1], showAll), rs[|rs| - 1], showAll)
  }

  ghost predicate IsSuffix(rs: seq<Record>, part: seq<Record>) {
    |part| <= |rs| && part == rs[|rs| - |part|..]
  }

  lemma {:induction false} LastBuildIsSuffix(rs: seq<Record>, showAll: bool)
    ensures IsSuffix(rs, LastBuild(rs, showAll))
    ensures showAll ==> LastBuild(rs, showAll) == rs
  {
    if rs != [] {
      var n := |rs| - 1;
      LastBuildIsSuffix(rs[..n], showAll);
      ExtendIsSuffix(rs, LastBuild(rs[..n], showAll), showAll);
    }
  }

  lemma ExtendIsSuffix(rs: seq<Record>, build: seq<Record>, showAll: bool)
    requires rs != [] && IsSuffix(rs[..|rs| - 1], build)
    ensures IsSuffix(rs, Extend(build, rs[|rs| - 1], showAll))
    ensures showAll && build == rs[..|rs| - 1] ==> Extend(build, rs[|rs| - 1], showAll) == rs
  {
    var last := rs[|rs| - 1];
    assert rs[..|rs| - 1] + [last] == rs;
    assert IsSuffix(rs, build + [last]);
  }

  lemma {:induction false} LastBuildIsConsistent(rs: seq<Record>)
    ensures rs != [] ==> LastBuild(rs, false) != []
    ensures Consistent(LastBuild(rs, false))
  {
  }

  /** The last build after the first `n` lines. */
  ghost function BuildAfter(lines: seq<Line>, n: nat, showAll: bool): (build: seq<Record>)
    requires n <= |lines|
  {
    LastBuild(Records(lines[..n]), showAll)
  }

  lemma BuildAfterNext(lines: seq<Line>, n: nat, showAll: bool)
    requires n < |lines|
    ensures BuildAfter(lines, n + 1, showAll)
         == if lines[n].Entry? then Extend(BuildAfter(lines, n, showAll), lines[n].record, showAll)
            else BuildAfter(lines, n, showAll)
  {
    assert lines[..n + 1][..n] == lines[..n];
    if lines[n].Entry? {
      var rs := Records(lines[..n]);
      assert (rs + [lines[n].record])[..|rs|] == rs;
    }
  }

  // ---------- Grouping ----------

  datatype Group = Group(start: real, end: real, names: seq<string>)

  function Names(rs: seq<Record>, hash: string): seq<string> {
    if rs == [] then []
    else
      var names := Names(rs[..|rs| - 1], hash);
      if rs[|rs| - 1].hash == hash then names + [rs[|rs| - 1].name] else names
  }

  /** The command hashes in the order of their first record. */
  function Hashes(rs: seq<Record>): seq<string> {
    if rs == [] then []
    else
      var hs := Hashes(rs[..|rs| - 1]);
      if rs[|rs| - 1].hash in hs then hs else hs + [rs[|rs| - 1].hash]
  }

  /** The first record with the given hash. */
  function FirstWith(rs: seq<Record>, hash: string): (r: Record)
    requires exists k :: 0 <= k < |rs| && rs[k].hash == hash
    ensures r in rs && r.hash == hash
  {
    if rs[0].hash == hash then rs[0] else FirstWith(rs[1..], hash)
  }

  lemma {:induction false} HashesContents(rs: seq<Record>)
    ensures forall h :: h in Hashes(rs) <==> exists k :: 0 <= k < |rs| && rs[k].hash == h
    ensures forall p, q :: 0 <= p < q < |Hashes(rs)| ==> Hashes(rs)[p] != Hashes(rs)[q]
  {
    if rs != [] {
      var n := |rs| - 1;
      HashesContents(rs[..n]);
      forall h ensures h in Hashes(rs) <==> exists k :: 0 <= k < |rs| && rs[k].hash == h {
        if h in Hashes(rs[..n]) {
          var k :| 0 <= k < n && rs[..n][k].hash == h;
          assert rs[k].hash == h;
        }
        if k :| 0 <= k < n && rs[k].hash == h {
          assert rs[..n][k].hash == h;
        }
        assert rs[n].hash in Hashes(rs);
      }
    }
  }

  ghost predicate Seen(rs: seq<Record>, hash: string) {
    exists k :: 0 <= k < |rs| && rs[k].hash == hash
  }

  lemma {:induction false} FirstWithAppend(rs: seq<Record>, r: Record, hash: string)
    requires Seen(rs, hash)
    ensures Seen(rs + [r], hash) && FirstWith(rs + [r], hash) == FirstWith(rs, hash)
  {
    var k :| 0 <= k < |rs| && rs[k].hash == hash;
    assert (rs + [r])[k].hash == hash;
    if rs[0].hash != hash {
      assert rs[1..][k - 1].hash == hash;
      FirstWithAppend(rs[1..], r, hash);
      assert (rs + [r])[1..] == rs[1..] + [r];
    }
  }

  lemma {:induction false} FirstWithNew(rs: seq<Record>, r: Record)
    requires !Seen(rs, r.hash)
    ensures Seen(rs + [r], r.hash) && FirstWith(rs + [r], r.hash) == r
    ensures Names(rs, r.hash) == []
  {
    assert (rs + [r])[|rs|].hash == r.hash;
    if rs != [] {
      assert rs[0].hash != r.hash;
      assert forall k :: 0 <= k < |rs[1..]| ==> rs[1..][k] == rs[k + 1];
      FirstWithNew(rs[1..], r);
      assert (rs + [r])[1..] == rs[1..] + [r];
    }
    NoNames(rs, r.hash);
  }

  lemma {:induction false} NoNames(rs: seq<Record>, hash: string)
    requires !Seen(rs, hash)
    ensures Names(rs, hash) == []
  {
    if rs != [] {
      assert forall k :: 0 <= k < |rs| - 1 ==> rs[..|rs| - 1][k] == rs[k];
      NoNames(rs[..|rs| - 1], hash);
    }
  }

  ghost function GroupOf(rs: seq<Record>, hash: string): Group
    requires Seen(rs, hash)
  {
    var first := FirstWith(rs, hash);
    Group(Seconds(first.start), Seconds(first.end), Names(rs, hash))
  }

  // ---------- The reader ----------

  /** What the dictionary holds after the records `build`: per hash a target of its own. */
  ghost predicate HoldsBuild(build: seq<Record>, keys: seq<string>, dict: map<string, Target>)
    reads dict.Values
  {
    && keys == Hashes(build)
    && (forall h :: h in dict <==> h in keys)
    && (forall h, h' :: h in dict && h' in dict && h != h' ==> dict[h] != dict[h'])
    && (forall h :: h in dict ==> Seen(build, h))
    && (forall h :: h in dict ==> GroupOf(build, h) == Group(dict[h].start, dict[h].end, dict[h].targets))
  }

  /** The targets are the groups of the records, one per hash, in the order of first appearance. */
  ghost predicate Represents(build: seq<Record>, targets: seq<Target>)
    reads targets
  {
    && |targets| == |Hashes(build)|
    && forall i :: 0 <= i < |targets| ==>
         && Seen(build, Hashes(build)[i])
         && Group(targets[i].start, targets[i].end, targets[i].targets) == GroupOf(build, Hashes(build)[i])
  }

  lemma AppendedIsCompatible(build: seq<Record>, r: Record, j: nat)
    requires Consistent(build) && j < |build|
    requires build[|build| - 1].end <= r.end
    requires Seen(build, r.hash) ==> SameTimes(FirstWith(build, r.hash), r)
    ensures Compatible(build[j], r)
  {
    var last := |build| - 1;
    assert j < last ==> Compatible(build[j], build[last]);
    if build[j].hash == r.hash {
      var k :| 0 <= k < |build| && build[k] == FirstWith(build, r.hash);
      assert k < j ==> Compatible(build[k], build[j]);
      assert j < k ==> Compatible(build[j], build[k]);
    }
  }

  lemma LastIsCompatible(build: seq<Record>, r: Record)
    requires Consistent(build + [r])
    ensures forall k :: 0 <= k < |build| ==> Compatible(build[k], r)
  {
    var longer := build + [r];
    forall k | 0 <= k < |build| ensures Compatible(build[k], r) {
      assert Compatible(longer[k], longer[|build|]);
    }
  }

  lemma AppendedIsConsistent(build: seq<Record>, r: Record)
    requires Consistent(build)
    requires build != [] ==> build[|build| - 1].end <= r.end
    requires Seen(build, r.hash) ==> SameTimes(FirstWith(build, r.hash), r)
    ensures Consistent(build + [r])
  {
    var longer := build + [r];
    forall j, k | 0 <= j < k < |longer| ensures Compatible(longer[j], longer[k]) {
      if k == |build| {
        AppendedIsCompatible(build, r, j);
      } else {
        assert Compatible(build[j], build[k]);
      }
    }
  }

  /** Whether the dictionary must be emptied before the next record, read off the first record of
      its hash and the last record. */
  lemma ConsistentAppend(build: seq<Record>, r: Record)
    requires Consistent(build)
    ensures Consistent(build + [r]) <==>
              && (build != [] ==> build[|build| - 1].end <= r.end)
              && (Seen(build, r.hash) ==> SameTimes(FirstWith(build, r.hash), r))
  {
    if Consistent(build + [r]) {
      LastIsCompatible(build, r);
      if Seen(build, r.hash) {
        var k :| 0 <= k < |build| && build[k] == FirstWith(build, r.hash);
        assert Compatible(build[k], r);
      }
    }
    if (build != [] ==> build[|build| - 1].end <= r.end) && (Seen(build, r.hash) ==> SameTimes(FirstWith(build, r.hash), r)) {
      AppendedIsConsistent(build, r);
    }
  }

  /** Appending the record's name to the group of its hash, and to no other. */
  lemma GroupAppend(build: seq<Record>, r: Record, h: string)
    requires Seen(build, h)
    ensures Seen(build + [r], h)
    ensures GroupOf(build + [r], h)
         == if h == r.hash then GroupOf(build, h).(names := GroupOf(build, h).names + [r.name]) else GroupOf(build, h)
  {
    FirstWithAppend(build, r, h);
    assert (build + [r])[..|build|] == build;
  }

  lemma GroupNew(build: seq<Record>, r: Record)
    requires !Seen(build, r.hash)
    ensures Seen(build + [r], r.hash)
    ensures GroupOf(build + [r], r.hash) == Group(Seconds(r.start), Seconds(r.end), [r.name])
  {
    FirstWithNew(build, r);
    assert (build + [r])[..|build|] == build;
  }

  lemma HashesAppend(build: seq<Record>, r: Record)
    ensures Hashes(build + [r]) == if Seen(build, r.hash) then Hashes(build) else Hashes(build) + [r.hash]
    ensures r.hash in Hashes(build) <==> Seen(build, r.hash)
  {
    assert (build + [r])[..|build|] == build;
    HashesContents(build);
  }

  /** Stores one record: in the target of its hash, made now if there is none. */
  method Store(ghost build: seq<Record>, keys: seq<string>, dict: map<string, Target>, r: Record)
    returns (keys': seq<string>, dict': map<string, Target>)
    requires HoldsBuild(build, keys, dict)
    modifies dict.Values
    ensures HoldsBuild(build + [r], keys', dict')
    ensures forall h :: h in dict' ==> (h in dict && dict'[h] == dict[h]) || fresh(dict'[h])
  {
    keys', dict' := keys, dict;
    HashesAppend(build, r);
    if r.hash !in dict {
      var target := new Target(Seconds(r.start), Seconds(r.end));
      GroupNew(build, r);
      keys', dict' := keys + [r.hash], dict[r.hash := target];
    }
    var target := dict'[r.hash];
    target.targets := target.targets + [r.name];
    forall h | h in dict'
      ensures Seen(build + [r], h)
      ensures GroupOf(build + [r], h) == Group(dict'[h].start, dict'[h].end, dict'[h].targets)
    {
      if h in dict { GroupAppend(build, r, h); }
    }
  }

  ghost predicate EndsAt(build: seq<Record>, lastEndSeen: real) {
    build != [] ==> lastEndSeen == Seconds(build[|build| - 1].end)
  }

  /** Empties the dictionary when the record cannot belong to the same build. */
  method Cut(ghost build: seq<Record>, keys: seq<string>, dict: map<string, Target>, lastEndSeen: real,
             r: Record, showAll: bool)
    returns (keys': seq<string>, dict': map<string, Target>, ghost current: seq<Record>)
    requires HoldsBuild(build, keys, dict) && (showAll || Consistent(build))
    requires EndsAt(build, lastEndSeen)
    ensures HoldsBuild(current, keys', dict')
    ensures dict' == dict || dict' == map[]
    ensures current + [r] == Extend(build, r, showAll)
  {
    keys', dict', current := keys, dict, build;
    if !showAll { ConsistentAppend(build, r); }
    var start, end := Seconds(r.start), Seconds(r.end);
    if !showAll && end < lastEndSeen {
      keys', dict', current := [], map[], [];
    }
    HashesContents(current);
    if r.hash in dict' {
      var target := dict'[r.hash];
      if !showAll && (target.start != start || target.end != end) {
        keys', dict', current := [], map[], [];
      }
    }
    assert [] + [r] == [r];
  }

  /** One record: empties the dictionary if need be and stores the record. */
  method ReadRecord(ghost build: seq<Record>, keys: seq<string>, dict: map<string, Target>, lastEndSeen: real,
                    r: Record, showAll: bool)
    returns (keys': seq<string>, dict': map<string, Target>)
    requires HoldsBuild(build, keys, dict) && (showAll || Consistent(build))
    requires EndsAt(build, lastEndSeen)
    modifies dict.Values
    ensures HoldsBuild(Extend(build, r, showAll), keys', dict')
    ensures EndsAt(Extend(build, r, showAll), Seconds(r.end))
    ensures showAll || Consistent(Extend(build, r, showAll))
    ensures forall t :: t in dict'.Values ==> t in dict.Values || fresh(t)
  {
    ghost var current;
    keys', dict', current := Cut(build, keys, dict, lastEndSeen, r, showAll);
    keys', dict' := Store(current, keys', dict', r);
  }

  /** The values of the dictionary, in insertion order. */
  method InOrder(ghost build: seq<Record>, keys: seq<string>, dict: map<string, Target>) returns (targets: seq<Target>)
    requires HoldsBuild(build, keys, dict)
    ensures forall i :: 0 <= i < |targets| ==> targets[i] in dict.Values
    ensures forall p, q :: 0 <= p < q < |targets| ==> targets[p] != targets[q]
    ensures Represents(build, targets)
  {
    HashesContents(build);
    targets := seq(|keys|, i requires 0 <= i < |keys| => dict[keys[i]]);
  }

  /** The loop over the lines: fills the dictionary. */
  method ReadLines(lines: seq<Line>, showAll: bool) returns (keys: seq<string>, dict: map<string, Target>)
    ensures HoldsBuild(LastBuild(Records(lines), showAll), keys, dict)
    ensures fresh(dict.Values)
  {
    var lastEndSeen := 0.0;
    keys, dict := [], map[];
    for n := 0 to |lines|
      invariant EndsAt(BuildAfter(lines, n, showAll), lastEndSeen)
      invariant showAll || Consistent(BuildAfter(lines, n, showAll))
      invariant HoldsBuild(BuildAfter(lines, n, showAll), keys, dict) && fresh(dict.Values)
    {
      BuildAfterNext(lines, n, showAll);
      if lines[n].Entry? {
        keys, dict := ReadRecord(BuildAfter(lines, n, showAll), keys, dict, lastEndSeen, lines[n].record, showAll);
        lastEndSeen := Seconds(lines[n].record.end);
      }
    }
    assert lines[..|lines|] == lines;
  }

  /** Reads the log.  The targets are those of the last build, in the order of their first record;
      each has its own object. */
  method ReadTargets(lines: seq<Line>, showAll: bool) returns (targets: seq<Target>)
    ensures fresh(targets)
    ensures forall p, q :: 0 <= p < q < |targets| ==> targets[p] != targets[q]
    ensures Represents(LastBuild(Records(lines), showAll), targets)
  {
    var keys, dict := ReadLines(lines, showAll);
    targets := InOrder(LastBuild(Records(lines), showAll), keys, dict);
  }

  // ---------- What the grouping means ----------

  /** The records of one target, in order. */
  function Members(rs: seq<Record>, hash: string): (members: seq<Record>)
    ensures forall r :: r in members ==> r.hash == hash
  {
    if rs == [] then []
    else
      var members := Members(rs[..|rs| - 1], hash);
      if rs[|rs| - 1].hash == hash then members + [rs[|rs| - 1]] else members
  }

  /** A target's names are those of its records. */
  lemma {:induction false} NamesOfMembers(rs: seq<Record>, hash: string)
    ensures |Names(rs, hash)| == |Members(rs, hash)|
    ensures forall k :: 0 <= k < |Names(rs, hash)| ==> Names(rs, hash)[k] == Members(rs, hash)[k].name
  {
    if rs != [] { NamesOfMembers(rs[..|rs| - 1], hash); }
  }

  ghost function AllMembers(rs: seq<Record>, hs: seq<string>): multiset<Record> {
    if hs == [] then multiset{} else multiset(Members(rs, hs[0])) + AllMembers(rs, hs[1..])
  }

  lemma {:induction false} AllMembersExtend(rs: seq<Record>, r: Record, hs: seq<string>)
    requires Distinct(hs)
    ensures AllMembers(rs + [r], hs) == AllMembers(rs, hs) + if r.hash in hs then multiset{r} else multiset{}
  {
    if hs != [] {
      AllMembersExtend(rs, r, hs[1..]);
      assert (rs + [r])[..|rs|] == rs;
      assert r.hash in hs <==> r.hash == hs[0] || r.hash in hs[1..];
    }
  }

  lemma {:induction false} AllMembersAppend(rs: seq<Record>, hs: seq<string>, h: string)
    ensures AllMembers(rs, hs + [h]) == AllMembers(rs, hs) + multiset(Members(rs, h))
  {
    if hs == [] {
      assert hs + [h] == [h];
    } else {
      AllMembersAppend(rs, hs[1..], h);
      assert (hs + [h])[1..] == hs[1..] + [h];
    }
  }

  lemma NoMembers(rs: seq<Record>, hash: string)
    requires !Seen(rs, hash)
    ensures Members(rs, hash) == []
  {
    NoNames(rs, hash);
    NamesOfMembers(rs, hash);
  }

  /** One more record adds itself to exactly one target. */
  lemma PartitionStep(before: seq<Record>, r: Record)
    ensures AllMembers(before + [r], Hashes(before + [r])) == AllMembers(before, Hashes(before)) + multiset{r}
  {
    var rs, hs := before + [r], Hashes(before);
    HashesContents(before);
    HashesAppend(before, r);
    AllMembersExtend(before, r, hs);
    if r.hash !in hs {
      AllMembersAppend(rs, hs, r.hash);
      NoMembers(before, r.hash);
      assert rs[..|before|] == before;
      assert Members(rs, r.hash) == [r];
    }
  }

  /** The targets partition the records: the records of all targets together are those of the log,
      each in exactly one target. */
  lemma {:induction false} GroupsPartitionRecords(rs: seq<Record>)
    ensures AllMembers(rs, Hashes(rs)) == multiset(rs)
  {
    if rs != [] {
      var before, r := rs[..|rs| - 1], rs[|rs| - 1];
      assert rs == before + [r];
      GroupsPartitionRecords(before);
      PartitionStep(before, r);
    }
  }

  /** In the last build all records of one target carry the times of the target, and the end times
      never go back. */
  lemma GroupTimes(rs: seq<Record>, k: nat)
    requires k < |LastBuild(rs, false)|
    ensures var build := LastBuild(rs, false);
            && Seen(build, build[k].hash)
            && GroupOf(build, build[k].hash).start == Seconds(build[k].start)
            && GroupOf(build, build[k].hash).end == Seconds(build[k].end)
            && forall j :: 0 <= j < k ==> build[j].end <= build[k].end
  {
    LastBuildIsConsistent(rs);
    var build := LastBuild(rs, false);
    var first := FirstWith(build, build[k].hash);
    var j :| 0 <= j < |build| && build[j] == first;
    if j < k {
      assert Compatible(build[j], build[k]);
    } else if k < j {
      assert Compatible(build[k], build[j]);
    }
    forall i | 0 <= i < k ensures build[i].end <= build[k].end {
      assert Compatible(build[i], build[k]);
    }
  }
}
