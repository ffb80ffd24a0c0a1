/** What one call of the rebalancer does, move by move. */
module RebalanceTraces {
  import opened ExtendedReals
  import opened RequestQueues
  import opened Servers
  import opened Rebalance

  /** `h` is the first server with the greatest estimate and `l` the first with the least. */
  ghost predicate Extremes(lat: seq<Latency>, h: nat, l: nat) {
    && h < |lat| && l < |lat|
    && (forall k :: 0 <= k < |lat| ==> !Less(lat[h], lat[k]) && !Less(lat[k], lat[l]))
    && (forall k :: 0 <= k < h ==> lat[k] != lat[h])
    && (forall k :: 0 <= k < l ==> lat[k] != lat[l])
  }

  /** The first request of server `h` went to server `l`; afterwards both estimates are below the one
      that was greatest before. */
  ghost predicate IsMove(c: Clocked, sv: seq<Server>, qs: seq<Queue>, h: nat, l: nat, qs': seq<Queue>)
    requires |sv| == |qs| == |qs'|
  {
    var lat, lat' := Latencies(c, sv, qs), Latencies(c, sv, qs');
    && Extremes(lat, h, l) && h != l && qs[h] != []
    && qs'[h] == qs[h][1..] && qs'[l] == Insert(qs[l], qs[h][0])
    && (forall k :: 0 <= k < |qs| && k != h && k != l ==> qs'[k] == qs[k])
    && Less(lat'[h], lat[h]) && Less(lat'[l], lat[h])
  }

  /** No move lowers the greatest estimate. */
  ghost predicate NoMove(c: Clocked, sv: seq<Server>, qs: seq<Queue>)
    requires |sv| == |qs|
  {
    forall h: nat, l: nat, qs': seq<Queue> :: |qs'| == |qs| ==> !IsMove(c, sv, qs, h, l, qs')
  }

  /** A move after which the receiver's estimate is, or is not, below the giver's. */
  ghost predicate MovesOn(c: Clocked, sv: seq<Server>, qs: seq<Queue>, qs': seq<Queue>, receiverBelow: bool)
    requires |sv| == |qs| == |qs'|
  {
    exists h: nat, l: nat :: h < |qs| && l < |qs| && IsMove(c, sv, qs, h, l, qs') &&
      (Less(Latencies(c, sv, qs')[l], Latencies(c, sv, qs')[h]) <==> receiverBelow)
  }

  lemma ExtremesAreUnique(lat: seq<Latency>, h: nat, l: nat)
    requires lat != []
    ensures Extremes(lat, h, l) <==> h == ArgMax(lat) && l == ArgMin(lat)
  {
    var h', l' := ArgMax(lat), ArgMin(lat);
    if Extremes(lat, h, l) {
      assert !Less(lat[h], lat[h']) && !Less(lat[h'], lat[h]);
      assert !Less(lat[l], lat[l']) && !Less(lat[l'], lat[l]);
    }
  }

  /** The pass moves whenever a move lowers both estimates below the old maximum, and performs it. */
  lemma MoveExactly(c: Clocked, sv: seq<Server>, qs: seq<Queue>)
    requires Matched(sv, qs)
    ensures Improves(c, sv, qs) <==> !NoMove(c, sv, qs)
    ensures Improves(c, sv, qs) ==> IsMove(c, sv, qs, High(c, sv, qs), Low(c, sv, qs), Moved(c, sv, qs))
    ensures forall h: nat, l: nat, qs': seq<Queue> :: |qs'| == |qs| && IsMove(c, sv, qs, h, l, qs') ==>
              h == High(c, sv, qs) && l == Low(c, sv, qs) && Improves(c, sv, qs) && qs' == Moved(c, sv, qs)
  {
    var h0, l0 := High(c, sv, qs), Low(c, sv, qs);
    ExtremesAreUnique(Latencies(c, sv, qs), h0, l0);
    forall h: nat, l: nat, qs': seq<Queue> | |qs'| == |qs| && IsMove(c, sv, qs, h, l, qs')
      ensures h == h0 && l == l0 && Improves(c, sv, qs) && qs' == Moved(c, sv, qs)
    {
      OnlyMove(c, sv, qs, h, l, qs');
    }
    if Improves(c, sv, qs) { MovedIsMove(c, sv, qs); }
  }

  lemma OnlyMove(c: Clocked, sv: seq<Server>, qs: seq<Queue>, h: nat, l: nat, qs': seq<Queue>)
    requires Matched(sv, qs) && |qs'| == |qs| && IsMove(c, sv, qs, h, l, qs')
    ensures h == High(c, sv, qs) && l == Low(c, sv, qs) && Improves(c, sv, qs) && qs' == Moved(c, sv, qs)
  {
    ExtremesAreUnique(Latencies(c, sv, qs), h, l);
    assert qs' == qs[h := qs[h][1..]][l := Insert(qs[l], qs[h][0])];
  }

  lemma MovedIsMove(c: Clocked, sv: seq<Server>, qs: seq<Queue>)
    requires Matched(sv, qs) && Improves(c, sv, qs)
    ensures IsMove(c, sv, qs, High(c, sv, qs), Low(c, sv, qs), Moved(c, sv, qs))
  {
    ExtremesAreUnique(Latencies(c, sv, qs), High(c, sv, qs), Low(c, sv, qs));
    MovedLatencies(c, sv, qs);
  }

  /** A move is followed by another pass exactly when it leaves the receiver below the giver. */
  lemma PassExactly(c: Clocked, sv: seq<Server>, qs: seq<Queue>, again: bool)
    requires Matched(sv, qs)
    ensures Improves(c, sv, qs) && Continues(c, sv, qs) == again
       <==> exists qs' :: |qs'| == |qs| && MovesOn(c, sv, qs, qs', again)
    ensures forall qs': seq<Queue> :: |qs'| == |qs| && MovesOn(c, sv, qs, qs', again) ==> qs' == Moved(c, sv, qs)
  {
    forall qs': seq<Queue> | |qs'| == |qs| && MovesOn(c, sv, qs, qs', again)
      ensures Improves(c, sv, qs) && Continues(c, sv, qs) == again && qs' == Moved(c, sv, qs)
    {
      var h: nat, l: nat :| h < |qs| && l < |qs| && IsMove(c, sv, qs, h, l, qs') &&
        (Less(Latencies(c, sv, qs')[l], Latencies(c, sv, qs')[h]) <==> again);
      OnlyMove(c, sv, qs, h, l, qs');
    }
    if Improves(c, sv, qs) && Continues(c, sv, qs) == again {
      MovedIsMove(c, sv, qs);
      assert MovesOn(c, sv, qs, Moved(c, sv, qs), again);
    }
  }

  // ---------- The whole call ----------

  /** The queues before and after each move of a call: every move but the last leaves the receiver
      below the giver; the last one does not, or no further move lowers the greatest estimate. */
  ghost predicate IsTrace(c: Clocked, sv: seq<Server>, trace: seq<seq<Queue>>) {
    && sv != [] && trace != []
    && (forall k :: 0 <= k < |trace| ==> |trace[k]| == |sv|)
    && (forall k :: 0 <= k < |trace| - 2 ==> MovesOn(c, sv, trace[k], trace[k + 1], true))
    && (|trace| == 1 ==> NoMove(c, sv, trace[0]))
    && (|trace| > 1 ==>
          var before, after := trace[|trace| - 2], trace[|trace| - 1];
          MovesOn(c, sv, before, after, false) || (MovesOn(c, sv, before, after, true) && NoMove(c, sv, after)))
  }

  lemma TraceExtends(c: Clocked, sv: seq<Server>, qs: seq<Queue>, trace: seq<seq<Queue>>)
    requires IsTrace(c, sv, trace) && |qs| == |sv| && MovesOn(c, sv, qs, trace[0], true)
    ensures IsTrace(c, sv, [qs] + trace)
  {
    var longer := [qs] + trace;
    forall k | 0 <= k < |longer| - 2 ensures MovesOn(c, sv, longer[k], longer[k + 1], true) {
      if k > 0 { assert longer[k] == trace[k - 1] && longer[k + 1] == trace[k]; }
    }
    forall k | 0 <= k < |longer| ensures |longer[k]| == |sv| {
      if k > 0 { assert longer[k] == trace[k - 1]; }
    }
  }

  lemma StoppedTrace(c: Clocked, sv: seq<Server>, qs: seq<Queue>)
    requires Matched(sv, qs) && NoMove(c, sv, qs)
    ensures IsTrace(c, sv, [qs])
  {
  }

  lemma LastMoveTrace(c: Clocked, sv: seq<Server>, qs: seq<Queue>, qs': seq<Queue>)
    requires Matched(sv, qs) && |qs'| == |qs| && MovesOn(c, sv, qs, qs', false)
    ensures IsTrace(c, sv, [qs, qs'])
  {
  }

  /** A call that finds no move changes nothing. */
  lemma NoMoveCall(c: Clocked, sv: seq<Server>, qs: seq<Queue>)
    requires Matched(sv, qs)
    ensures NoMove(c, sv, qs) <==> !Improves(c, sv, qs)
    ensures NoMove(c, sv, qs) ==> Rebalanced(c, sv, qs) == qs
  {
    MoveExactly(c, sv, qs);
  }

  /** A call that finds one goes on after it exactly if the receiver is then below the giver. */
  lemma MoveCall(c: Clocked, sv: seq<Server>, qs: seq<Queue>, qs': seq<Queue>, again: bool)
    requires Matched(sv, qs) && |qs'| == |qs| && MovesOn(c, sv, qs, qs', again)
    ensures Improves(c, sv, qs) && Continues(c, sv, qs) == again && qs' == Moved(c, sv, qs)
    ensures Rebalanced(c, sv, qs) == if again then Rebalanced(c, sv, qs') else qs'
  {
    PassExactly(c, sv, qs, again);
  }

  lemma MovedOn(c: Clocked, sv: seq<Server>, qs: seq<Queue>)
    requires Matched(sv, qs) && Improves(c, sv, qs)
    ensures MovesOn(c, sv, qs, Moved(c, sv, qs), Continues(c, sv, qs))
  {
    MovedIsMove(c, sv, qs);
  }

  /** One pass stops without a move, or moves and asks for another pass if the receiver is then below. */
  lemma PassIsMove(c: Clocked, sv: seq<Server>, qs: seq<Queue>)
    requires Matched(sv, qs)
    ensures if NoMove(c, sv, qs) then Passed(c, sv, qs) == qs && !PassesAgain(c, sv, qs)
            else MovesOn(c, sv, qs, Passed(c, sv, qs), PassesAgain(c, sv, qs))
  {
    NoMoveCall(c, sv, qs);
    if Improves(c, sv, qs) { MovedOn(c, sv, qs); }
  }

  /** Every call is such a chain of moves. */
  lemma {:induction false} CallIsTrace(c: Clocked, sv: seq<Server>, qs: seq<Queue>) returns (trace: seq<seq<Queue>>)
    requires Matched(sv, qs)
    ensures IsTrace(c, sv, trace) && trace[0] == qs && trace[|trace| - 1] == Rebalanced(c, sv, qs)
    decreases |Queued(qs)|, Measure(c, sv, qs)
  {
    NoMoveCall(c, sv, qs);
    if !Improves(c, sv, qs) {
      trace := [qs];
      StoppedTrace(c, sv, qs);
    } else {
      var qs' := Moved(c, sv, qs);
      MovedOn(c, sv, qs);
      if Continues(c, sv, qs) {
        MoveDescends(c, sv, qs);
        var rest := CallIsTrace(c, sv, qs');
        TraceExtends(c, sv, qs, rest);
        trace := [qs] + rest;
      } else {
        trace := [qs, qs'];
        LastMoveTrace(c, sv, qs, qs');
      }
    }
  }

  /** Such a chain leads from `qs` to `qs'`. */
  ghost predicate HasTrace(c: Clocked, sv: seq<Server>, qs: seq<Queue>, qs': seq<Queue>) {
    exists trace :: IsTrace(c, sv, trace) && trace[0] == qs && trace[|trace| - 1] == qs'
  }

  lemma CallHasTrace(c: Clocked, sv: seq<Server>, qs: seq<Queue>)
    requires Matched(sv, qs)
    ensures HasTrace(c, sv, qs, Rebalanced(c, sv, qs))
  {
    var trace := CallIsTrace(c, sv, qs);
  }

  lemma TraceTail(c: Clocked, sv: seq<Server>, trace: seq<seq<Queue>>)
    requires IsTrace(c, sv, trace) && |trace| > 2
    ensures MovesOn(c, sv, trace[0], trace[1], true) && IsTrace(c, sv, trace[1..])
  {
    var tail := trace[1..];
    forall k | 0 <= k < |tail| - 2 ensures MovesOn(c, sv, tail[k], tail[k + 1], true) {
      assert tail[k] == trace[k + 1] && tail[k + 1] == trace[k + 2];
    }
  }

  lemma ShortTrace(c: Clocked, sv: seq<Server>, trace: seq<seq<Queue>>)
    requires IsTrace(c, sv, trace) && |trace| <= 2
    ensures trace[|trace| - 1] == Rebalanced(c, sv, trace[0])
  {
    if |trace| == 1 {
      NoMoveCall(c, sv, trace[0]);
    } else if MovesOn(c, sv, trace[0], trace[1], false) {
      MoveCall(c, sv, trace[0], trace[1], false);
    } else {
      MoveCall(c, sv, trace[0], trace[1], true);
      NoMoveCall(c, sv, trace[1]);
    }
  }

  /** And any such chain of moves ends where the call ends: the result is determined. */
  lemma {:induction false} TraceIsCall(c: Clocked, sv: seq<Server>, trace: seq<seq<Queue>>)
    requires IsTrace(c, sv, trace)
    ensures trace[|trace| - 1] == Rebalanced(c, sv, trace[0])
    decreases |trace|
  {
    if |trace| <= 2 {
      ShortTrace(c, sv, trace);
    } else {
      TraceTail(c, sv, trace);
      MoveCall(c, sv, trace[0], trace[1], true);
      TraceIsCall(c, sv, trace[1..]);
      assert trace[1..][|trace| - 2] == trace[|trace| - 1];
    }
  }
}
