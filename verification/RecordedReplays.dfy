/** Replays of data with recorded times: when the final sort keeps the order of the turns, and which
    samples the time limit drops. */
module RecordedReplays {
  import opened Options
  import opened StableSorting
  import opened Admission
  import opened Conversations
  import opened RecordedTimes
  import opened Replay

  /** The samples of conversation `c` that the time limit keeps, in turn order. */
  function Kept(plan: Plan, samples: seq<Sample>, c: nat): seq<Sample> {
    Filter(Block(samples, c), WithinTime(plan.settings.timeLimit))
  }

  lemma NeverBackIsSorted(samples: seq<Sample>)
    ensures NeverBack(samples) <==> SortedBy(samples, ByTime)
  {
    if SortedBy(samples, ByTime) {
      forall j, k | 0 <= j < k < |samples| ensures samples[j].timestamp <= samples[k].timestamp {
        assert Leq(ByTime(samples[j]), ByTime(samples[k]));
      }
    }
  }

  /** Whatever is recorded, the result shows the kept turns of a conversation in turn order if and
      only if their timestamps never go back. */
  lemma OrderKeptExactly(plan: Plan, samples: seq<Sample>, c: nat)
    ensures Filter(Finished(plan, samples), OfConversation(c)) == Kept(plan, samples, c)
       <==> NeverBack(Kept(plan, samples, c))
  {
    FinishedBlock(plan, samples, c);
    SortedExactly(Kept(plan, samples, c), ByTime);
    NeverBackIsSorted(Kept(plan, samples, c));
  }

  /** If all turns of a conversation are recorded, the final sort keeps its turn order if and only if
      the scaled recorded times of its samples never go back. */
  lemma RecordedOrderKept(plan: Plan, data: seq<Conversation>, c: nat)
    ensures match Run(plan, data, Fresh())
            case None => true
            case Some(w) =>
              |w.convs| <= |data| &&
              (c < |w.convs| && TurnsRecorded(data[c]) ==>
                 var block := Block(w.samples, c);
                 && |block| <= |TurnPositions(data[c], 0)|
                 && (Filter(Sort(w.samples, ByTime), OfConversation(c)) == block
                     <==> RecordedInOrder(plan.settings, data[c], |block|)))
  {
    RunReplayed(plan, data, Fresh());
    match Run(plan, data, Fresh())
    case None =>
    case Some(w) =>
      if c < |w.convs| && TurnsRecorded(data[c]) {
        assert BlockIsRight(plan, data, w, c);
        var block := Block(w.samples, c);
        FilterSort(w.samples, ByTime, OfConversation(c));
        SortedExactly(block, ByTime);
        NeverBackIsSorted(block);
        RecordedOrder(plan.settings, c, data[c], w.convs[c].start, block);
      }
  }

  /** Sample `k` of conversation `c` is missing from the result if and only if its turn is late, by its
      recorded time or, for an unrecorded first turn, by the start.  A late turn is the first or a
      recorded one that does not directly follow the turn before it. */
  lemma DroppedExactly(plan: Plan, data: seq<Conversation>, c: nat, k: nat)
    ensures match Run(plan, data, Fresh())
            case None => true
            case Some(w) =>
              |w.convs| <= |data| &&
              (c < |w.convs| && k < |Block(w.samples, c)| ==>
                 var s, conv, positions := plan.settings, data[c], TurnPositions(data[c], 0);
                 && k < |positions| && positions[k] < |conv|
                 && (Block(w.samples, c)[k] !in Finished(plan, w.samples)
                     <==> Late(s, conv, w.convs[c].start, positions, k))
                 && (Late(s, conv, w.convs[c].start, positions, k) && k > 0 ==>
                       conv[positions[k]].recorded.Some? && positions[k] != positions[k - 1] + 2))
  {
    RunReplayed(plan, data, Fresh());
    match Run(plan, data, Fresh())
    case None =>
    case Some(w) =>
      if c < |w.convs| && k < |Block(w.samples, c)| {
        assert BlockIsRight(plan, data, w, c);
        var block := Block(w.samples, c);
        LateSamples(plan.settings, c, data[c], w.convs[c].start, TurnPositions(data[c], 0), block, k);
        FinishedMember(plan, w.samples, c, k);
      }
  }

  lemma FinishedMember(plan: Plan, samples: seq<Sample>, c: nat, k: nat)
    requires k < |Block(samples, c)|
    ensures Block(samples, c)[k] in Finished(plan, samples)
       <==> Block(samples, c)[k].timestamp <= plan.settings.timeLimit
  {
    var x := Block(samples, c)[k];
    FilterMembers(samples, OfConversation(c));
    assert x in Block(samples, c);
    SortKeepsElements(samples, ByTime);
    FilterMembers(Sort(samples, ByTime), WithinTime(plan.settings.timeLimit));
  }

  // ---------- Two inputs ----------

  /** A conversation of two turns recorded at `t` and `u`. */
  function TwoTurns(t: real, u: real): Conversation {
    [Message(true, "a", 1, Some(t)), Message(false, "b", 1, None),
     Message(true, "c", 1, Some(u)), Message(false, "d", 1, None)]
  }

  /** A conversation of one turn recorded at `t`. */
  function OneTurn(t: real): Conversation {
    TwoTurns(t, t)[..2]
  }

  function UntilTimeFive(delays: (nat, nat) -> real): Plan {
    Plan(Settings(10, 0, 1.0, 5.0, delays), 10, _ => 0.0)
  }

  lemma SecondFirst(a: Sample, b: Sample)
    requires b.timestamp < a.timestamp
    ensures Sort([a, b], ByTime) == [b, a]
  {
    assert [a, b][1..] == [b] && [b][1..] == [];
    assert Sort([b], ByTime) == [b];
    assert InsertBefore(a, [], ByTime) == [a];
  }

  /** Recorded times that go back: the result shows the second turn before the first. */
  lemma RecordedTimesSwapTurns(delays: (nat, nat) -> real)
    ensures match Run(UntilTimeFive(delays), [TwoTurns(3.0, 1.0)], Fresh())
            case None => false
            case Some(w) =>
              var out := Finished(UntilTimeFive(delays), w.samples);
              |out| == 2 && out[0].turn == 1 && out[1].turn == 0
  {
    var plan, conv := UntilTimeFive(delays), TwoTurns(3.0, 1.0);
    var s := plan.settings;
    var c0 := Begin(0.0, []);
    var c1 := Advance(s, 0, conv, 0.0, c0);
    var c2 := Advance(s, 0, conv, 0.0, c1);
    assert c1.i == 2 && c1.reqTime == 1.0;
    assert Lay(s, 0, conv, 0.0, c1).samples == c2.samples;
    var a, b := c2.samples[0], c2.samples[1];
    assert c2.samples == [a, b] && a.timestamp == 3.0 && b.timestamp == 1.0;
    var w := Open(plan, [conv], Fresh(), Admitted(0.0, []));
    assert Admit([], 0.0, 10) == Admitted(0.0, []);
    assert Run(plan, [conv], Fresh()) == Run(plan, [conv], w) == Some(w);
    SecondFirst(a, b);
    FilterAll([b, a], WithinTime(5.0));
  }

  /** A turn recorded beyond the time limit is the only sample of its conversation. */
  lemma LateTurn(delays: (nat, nat) -> real, id: nat, before: seq<Sample>)
    requires |before| < 10
    ensures var end := Lay(UntilTimeFive(delays).settings, id, OneTurn(9.0), 0.0, Begin(0.0, before));
            |end.samples| == |before| + 1 && end.samples[..|before|] == before
            && end.samples[|before|].timestamp == 9.0 && end.lastReqTime == 9.0 && end.outputLen == 1
  {
    var c := Advance(UntilTimeFive(delays).settings, id, OneTurn(9.0), 0.0, Begin(0.0, before));
    assert c.i == 2;
  }

  /** Two conversations whose first turns are recorded beyond the time limit: both samples are
      dropped. */
  lemma TwoSamplesDropped(delays: (nat, nat) -> real)
    ensures match Run(UntilTimeFive(delays), [OneTurn(9.0), OneTurn(9.0)], Fresh())
            case None => false
            case Some(w) => |w.samples| == 2 && Finished(UntilTimeFive(delays), w.samples) == []
  {
    var plan, data := UntilTimeFive(delays), [OneTurn(9.0), OneTurn(9.0)];
    LateTurn(delays, 0, []);
    var w := Open(plan, data, Fresh(), Admitted(0.0, []));
    assert Admit([], 0.0, 10) == Admitted(0.0, []);
    assert Run(plan, data, Fresh()) == Run(plan, data, w);
    assert w.heap == [9.0 + 1.0 / 30.0];
    LateTurn(delays, 1, w.samples);
    var w' := Open(plan, data, w, Admitted(0.0, w.heap));
    assert Admit(w.heap, 0.0, 10) == Admitted(0.0, w.heap);
    assert Run(plan, data, w) == Run(plan, data, w') == Some(w');
    assert w'.samples[0] == w.samples[0];
    SortKeepsElements(w'.samples, ByTime);
    var sorted := Sort(w'.samples, ByTime);
    forall k | 0 <= k < |sorted| ensures !WithinTime(5.0)(sorted[k]) {
      assert sorted[k] in w'.samples;
    }
    FilterNone(sorted, WithinTime(5.0));
  }
}
