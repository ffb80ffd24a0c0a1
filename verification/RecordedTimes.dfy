/** Conversations with times recorded in the data set. */
module RecordedTimes {
  import opened Options
  import opened Conversations

  /** The recorded time of a message on the time line of the replay. */
  function RecordedAt(s: Settings, conv: Conversation, start: real, p: nat): real
    requires p < |conv| && conv[p].recorded.Some?
  {
    start + conv[p].recorded.value * s.reqScale
  }

  /** The timestamp of sample `k`: the recorded time of its message; or what the sample before it
      announced, or the start of the conversation.  Nothing is sampled after an announcement beyond the
      limit. */
  ghost predicate StampIsRight(s: Settings, conv: Conversation, start: real, positions: seq<nat>,
                               added: seq<Sample>, k: nat)
    requires k < |added| <= |positions| && positions[k] < |conv|
  {
    var p := positions[k];
    && (conv[p].recorded.Some? ==> added[k].timestamp == RecordedAt(s, conv, start, p))
    && (conv[p].recorded.None? && k == 0 ==> added[k].timestamp == start)
    && (k > 0 ==> positions[k - 1] + 2 <= p && added[k - 1].nextTimestamp <= s.timeLimit)
    && (k > 0 && (conv[p].recorded.None? || p == positions[k - 1] + 2) ==>
          added[k].timestamp == added[k - 1].nextTimestamp)
  }

  /** What sample `k` announces for the message after the next: its recorded time, or a time after the
      delay drawn for this turn; nothing if there is no such message. */
  ghost predicate AnnouncementIsRight(s: Settings, id: nat, conv: Conversation, start: real, positions: seq<nat>,
                                      added: seq<Sample>, k: nat)
    requires k < |added| <= |positions|
  {
    var next, announced := positions[k] + 2, added[k].nextTimestamp;
    if next >= |conv| then announced == 1000000000.0
    else if conv[next].recorded.Some? then announced == RecordedAt(s, conv, start, next)
    else announced == added[k].timestamp + s.delays(id, k)
  }

  ghost predicate SampleIsRight(s: Settings, id: nat, conv: Conversation, start: real, positions: seq<nat>,
                                added: seq<Sample>, k: nat)
    requires k < |added| <= |positions|
  {
    && positions[k] < |conv|
    && StampIsRight(s, conv, start, positions, added, k)
    && AnnouncementIsRight(s, id, conv, start, positions, added, k)
  }

  ghost predicate Stamped(s: Settings, id: nat, conv: Conversation, start: real, positions: seq<nat>, added: seq<Sample>) {
    && |added| <= |positions|
    && forall k :: 0 <= k < |added| ==> SampleIsRight(s, id, conv, start, positions, added, k)
  }

  /** What the loop knows of the time of the next request. */
  ghost predicate Announced(s: Settings, conv: Conversation, start: real, positions: seq<nat>,
                            added: seq<Sample>, i: nat, reqTime: real)
    requires |added| <= |positions|
  {
    var n := |added|;
    && (n == 0 ==> reqTime == start)
    && (n > 0 && i < |conv| ==>
          && added[n - 1].nextTimestamp == reqTime
          && (i == positions[n - 1] + 2 && conv[i].recorded.Some? ==> reqTime == RecordedAt(s, conv, start, i)))
    && (n > 0 ==> positions[n - 1] + 2 <= i)
  }

  lemma EarlierSample(s: Settings, id: nat, conv: Conversation, start: real, positions: seq<nat>, added: seq<Sample>,
                      sample: Sample, k: nat)
    requires k < |added| < |positions| && SampleIsRight(s, id, conv, start, positions, added, k)
    ensures SampleIsRight(s, id, conv, start, positions, added + [sample], k)
  {
  }

  /** Another sample, made of the messages at `i`. */
  lemma LastSample(s: Settings, id: nat, conv: Conversation, start: real, positions: seq<nat>, added: seq<Sample>,
                   i: nat, reqTime: real, lastReqTime: real)
    requires |added| < |positions| && i == positions[|added|] && i + 1 < |conv|
    requires Announced(s, conv, start, positions, added, i, reqTime)
    requires added != [] ==> reqTime <= s.timeLimit
    ensures SampleIsRight(s, id, conv, start, positions,
                          added + [TurnSample(s, id, conv, start, i, |added|, reqTime, lastReqTime)], |added|)
  {
  }

  lemma StampAppend(s: Settings, id: nat, conv: Conversation, start: real, positions: seq<nat>, added: seq<Sample>,
                    i: nat, reqTime: real, lastReqTime: real)
    requires Stamped(s, id, conv, start, positions, added) && |added| < |positions|
    requires i == positions[|added|] && i + 1 < |conv| && Announced(s, conv, start, positions, added, i, reqTime)
    requires added != [] ==> reqTime <= s.timeLimit
    ensures Stamped(s, id, conv, start, positions,
                    added + [TurnSample(s, id, conv, start, i, |added|, reqTime, lastReqTime)])
  {
    var sample := TurnSample(s, id, conv, start, i, |added|, reqTime, lastReqTime);
    forall k | 0 <= k < |added + [sample]|
      ensures SampleIsRight(s, id, conv, start, positions, added + [sample], k)
    {
      if k < |added| {
        EarlierSample(s, id, conv, start, positions, added, sample, k);
      } else {
        LastSample(s, id, conv, start, positions, added, i, reqTime, lastReqTime);
      }
    }
  }

  ghost predicate Timing(s: Settings, id: nat, conv: Conversation, start: real, positions: seq<nat>, base: nat, c: Cursor) {
    && base <= |c.samples|
    && Stamped(s, id, conv, start, positions, c.samples[base..])
    && Announced(s, conv, start, positions, c.samples[base..], c.i, c.reqTime)
  }

  /** A turn that is not late for the announcement. */
  lemma TurnGoing(s: Settings, id: nat, conv: Conversation, start: real, positions: seq<nat>, added: seq<Sample>,
                  i: nat, reqTime: real, lastReqTime: real)
    requires Stamped(s, id, conv, start, positions, added) && |added| < |positions|
    requires IsTurnAt(conv, i) && positions[|added|] == i
    requires Announced(s, conv, start, positions, added, i, reqTime)
    requires added != [] ==> reqTime <= s.timeLimit
    ensures var turn := |added|;
            var added' := added + [TurnSample(s, id, conv, start, i, turn, reqTime, lastReqTime)];
            && Stamped(s, id, conv, start, positions, added')
            && Announced(s, conv, start, positions, added', i + 2, NextTime(s, id, conv, start, i, turn, reqTime))
  {
    StampAppend(s, id, conv, start, positions, added, i, reqTime, lastReqTime);
  }

  /** The next turn is the one at the current message, if that starts a turn. */
  lemma LaidNext(s: Settings, id: nat, conv: Conversation, base: nat, c: Cursor)
    requires Laid(s, id, conv, base, c) && IsTurnAt(conv, c.i)
    ensures c.turn < |TurnPositions(conv, 0)| && TurnPositions(conv, 0)[c.turn] == c.i
  {
    SkipIsSafe(conv, c.i);
    assert TurnPositions(conv, 0)[c.turn..][0] == c.i;
  }

  lemma AdvanceAppends(s: Settings, id: nat, conv: Conversation, start: real, base: nat, c: Cursor)
    requires IsTurnAt(conv, c.i) && base <= |c.samples| && c.turn == |c.samples| - base
    ensures var sample := TurnSample(s, id, conv, start, c.i, c.turn, c.reqTime, c.lastReqTime);
            Advance(s, id, conv, start, c).samples[base..] == c.samples[base..] + [sample]
  {
  }

  lemma AdvanceTiming(s: Settings, id: nat, conv: Conversation, start: real, positions: seq<nat>, base: nat, c: Cursor)
    requires Timing(s, id, conv, start, positions, base, c) && c.i + 1 < |conv|
    requires c.turn == |c.samples| - base && (c.turn > 0 ==> c.reqTime <= s.timeLimit)
    requires IsTurnAt(conv, c.i) ==> c.turn < |positions| && positions[c.turn] == c.i
    ensures Timing(s, id, conv, start, positions, base, Advance(s, id, conv, start, c))
  {
    var c' := Advance(s, id, conv, start, c);
    if IsTurnAt(conv, c.i) {
      TurnGoing(s, id, conv, start, positions, c.samples[base..], c.i, c.reqTime, c.lastReqTime);
      AdvanceAppends(s, id, conv, start, base, c);
    } else {
      assert c'.samples == c.samples;
    }
  }

  lemma {:induction false} LayTiming(s: Settings, id: nat, conv: Conversation, start: real, base: nat, c: Cursor)
    requires Laid(s, id, conv, base, c) && Timing(s, id, conv, start, TurnPositions(conv, 0), base, c)
    requires c.turn > 0 ==> c.reqTime <= s.timeLimit
    ensures Timing(s, id, conv, start, TurnPositions(conv, 0), base, Lay(s, id, conv, start, c))
    decreases |conv| - c.i
  {
    if MayContinue(s, conv, c) {
      var positions, c' := TurnPositions(conv, 0), Advance(s, id, conv, start, c);
      if IsTurnAt(conv, c.i) { LaidNext(s, id, conv, base, c); }
      AdvanceTiming(s, id, conv, start, positions, base, c);
      if c'.reqTime <= s.timeLimit {
        AdvanceLaid(s, id, conv, start, base, c);
        LayTiming(s, id, conv, start, base, c');
      }
    }
  }

  /** Every timestamp is right, whatever is recorded. */
  lemma StampsAreRight(s: Settings, id: nat, conv: Conversation, start: real, before: seq<Sample>)
    ensures var samples := Lay(s, id, conv, start, Begin(start, before)).samples;
            before <= samples && Stamped(s, id, conv, start, TurnPositions(conv, 0), samples[|before|..])
  {
    LayTiming(s, id, conv, start, |before|, Begin(start, before));
    TurnsAreExact(s, id, conv, start, before);
  }

  // ---------- Why the samples end ----------

  /** The samples are all turns, unless the request limit was reached, the conversation starts beyond
      the time limit, or the last sample announces a time beyond it. */
  ghost predicate EndsForReason(s: Settings, start: real, positions: seq<nat>, before: nat, added: seq<Sample>) {
    || |added| == |positions|
    || before + |added| >= s.numRequests
    || (added == [] && start > s.timeLimit)
    || (added != [] && added[|added| - 1].nextTimestamp > s.timeLimit)
  }

  lemma {:induction false} LayCount(s: Settings, id: nat, conv: Conversation, start: real, c: Cursor)
    ensures var n := |Lay(s, id, conv, start, c).samples|;
            |c.samples| <= n && (n <= s.numRequests || n == |c.samples|)
    decreases |conv| - c.i
  {
    if MayContinue(s, conv, c) {
      var c' := Advance(s, id, conv, start, c);
      if c'.reqTime <= s.timeLimit { LayCount(s, id, conv, start, c'); }
    }
  }

  /** Together with the announcements this says exactly how many samples a conversation yields. */
  lemma SamplesEnd(s: Settings, id: nat, conv: Conversation, start: real, before: seq<Sample>)
    ensures var samples := Lay(s, id, conv, start, Begin(start, before)).samples;
            && before <= samples && (|samples| <= s.numRequests || samples == before)
            && EndsForReason(s, start, TurnPositions(conv, 0), |before|, samples[|before|..])
  {
    var c, base := Begin(start, before), |before|;
    LayIsLaid(s, id, conv, start, base, c);
    LayTiming(s, id, conv, start, base, c);
    LayStops(s, id, conv, start, c);
    LayCount(s, id, conv, start, c);
  }

  // ---------- Drawn times ----------

  /** The delays drawn for the first `k` turns of a conversation, added up. */
  function DelaySum(s: Settings, id: nat, k: nat): real {
    if k == 0 then 0.0 else DelaySum(s, id, k - 1) + s.delays(id, k - 1)
  }

  /** Without recorded times every request waits for the delays before it. */
  lemma {:induction false} DrawnTimes(s: Settings, id: nat, conv: Conversation, start: real, positions: seq<nat>,
                                      added: seq<Sample>, k: nat)
    requires Stamped(s, id, conv, start, positions, added) && NothingRecorded(conv) && k < |added|
    ensures added[k].timestamp == start + DelaySum(s, id, k)
  {
    assert SampleIsRight(s, id, conv, start, positions, added, k);
    if k > 0 {
      DrawnTimes(s, id, conv, start, positions, added, k - 1);
      assert SampleIsRight(s, id, conv, start, positions, added, k - 1);
    }
  }

  // ---------- Order ----------

  /** Every message that starts a turn has a recorded time. */
  ghost predicate TurnsRecorded(conv: Conversation) {
    forall p: nat :: IsTurnAt(conv, p) ==> conv[p].recorded.Some?
  }

  lemma {:induction false} PositionsAreTurns(conv: Conversation, i: nat)
    ensures forall k :: 0 <= k < |TurnPositions(conv, i)| ==> IsTurnAt(conv, TurnPositions(conv, i)[k])
    decreases |conv| - i
  {
    if i + 1 < |conv| { PositionsAreTurns(conv, i + 1); }
  }

  /** The positions are all messages of a user that are followed by one of another author. */
  lemma {:induction false} PositionsAreAll(conv: Conversation, i: nat, p: nat)
    ensures p in TurnPositions(conv, i) <==> i <= p && p + 1 < |conv| && conv[p].isUser && !conv[p + 1].isUser
    decreases |conv| - i
  {
    if i + 1 < |conv| {
      PositionsAreAll(conv, i + 1, p);
      assert p in TurnPositions(conv, i) <==> (IsTurnAt(conv, i) && p == i) || p in TurnPositions(conv, i + 1);
    }
  }

  /** They are in order. */
  lemma {:induction false} PositionsAscend(conv: Conversation, i: nat, j: nat, k: nat)
    requires j < k < |TurnPositions(conv, i)|
    ensures TurnPositions(conv, i)[j] < TurnPositions(conv, i)[k]
    decreases |conv| - i
  {
    var all, rest := TurnPositions(conv, i), TurnPositions(conv, i + 1);
    if !IsTurnAt(conv, i) {
      PositionsAscend(conv, i + 1, j, k);
    } else if j > 0 {
      PositionsAscend(conv, i + 1, j - 1, k - 1);
    } else {
      assert rest[k - 1] in rest;
      PositionsAreAll(conv, i + 1, rest[k - 1]);
    }
  }

  /** The recorded time of turn `k`, scaled. */
  function ScaledTime(s: Settings, conv: Conversation, k: nat): real
    requires k < |TurnPositions(conv, 0)|
  {
    PositionsAreTurns(conv, 0);
    var m := conv[TurnPositions(conv, 0)[k]];
    if m.recorded.Some? then m.recorded.value * s.reqScale else 0.0
  }

  /** The scaled recorded times of the first `n` turns never go back. */
  ghost predicate RecordedInOrder(s: Settings, conv: Conversation, n: nat)
    requires n <= |TurnPositions(conv, 0)|
  {
    forall j, k :: 0 <= j < k < n ==> ScaledTime(s, conv, j) <= ScaledTime(s, conv, k)
  }

  ghost predicate NeverBack(added: seq<Sample>) {
    forall j, k :: 0 <= j < k < |added| ==> added[j].timestamp <= added[k].timestamp
  }

  /** With every turn recorded, the timestamps never go back if and only if the scaled recorded times
      of the samples never do. */
  lemma RecordedOrder(s: Settings, id: nat, conv: Conversation, start: real, added: seq<Sample>)
    requires Stamped(s, id, conv, start, TurnPositions(conv, 0), added) && TurnsRecorded(conv)
    ensures NeverBack(added) <==> RecordedInOrder(s, conv, |added|)
  {
    PositionsAreTurns(conv, 0);
    forall k | 0 <= k < |added| ensures added[k].timestamp == start + ScaledTime(s, conv, k) {
      assert SampleIsRight(s, id, conv, start, TurnPositions(conv, 0), added, k);
    }
    if NeverBack(added) {
      forall j, k | 0 <= j < k < |added| ensures ScaledTime(s, conv, j) <= ScaledTime(s, conv, k) {
        assert added[j].timestamp <= added[k].timestamp;
      }
    }
  }

  // ---------- Late samples ----------

  /** Turn `k` lies beyond the time limit: its own recorded time, or the start of the conversation. */
  ghost predicate Late(s: Settings, conv: Conversation, start: real, positions: seq<nat>, k: nat)
    requires k < |positions| && positions[k] < |conv|
  {
    if conv[positions[k]].recorded.Some? then RecordedAt(s, conv, start, positions[k]) > s.timeLimit
    else k == 0 && start > s.timeLimit
  }

  /** A sample is beyond the time limit exactly if its turn is late; that can only be the first turn, or
      a recorded one that does not directly follow the turn before it. */
  lemma LateSamples(s: Settings, id: nat, conv: Conversation, start: real, positions: seq<nat>, added: seq<Sample>, k: nat)
    requires Stamped(s, id, conv, start, positions, added) && k < |added|
    ensures positions[k] < |conv|
    ensures added[k].timestamp > s.timeLimit <==> Late(s, conv, start, positions, k)
    ensures Late(s, conv, start, positions, k) && k > 0 ==>
              conv[positions[k]].recorded.Some? && positions[k] != positions[k - 1] + 2
  {
    assert SampleIsRight(s, id, conv, start, positions, added, k);
  }
}
