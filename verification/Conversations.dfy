/** Laying out the turns of one conversation on the time line. */
module Conversations {
  import opened Options

  /** A message: who wrote it, its tokens, and the time recorded in the data set, if any. */
  datatype Message = Message(isUser: bool, text: string, tokens: nat, recorded: Option<real>)

  type Conversation = seq<Message>

  /** A request.  `nextTimestamp` keeps its default while no later message exists. */
  datatype Sample = Sample(
    prompt: string, promptLen: nat, outputLen: int,
    conversation: nat, turn: nat,
    timestamp: real, nextTimestamp: real, interval: real)

  const NO_NEXT: real := 1000000000.0

  /** Settings of a replay: `extraOutput` is added to every output length and `delays` gives the
      random waiting time before each further turn of each conversation. */
  datatype Settings = Settings(
    numRequests: int, extraOutput: int, reqScale: real, timeLimit: real,
    delays: (nat, nat) -> real)

  /** The variables of the turn loop.  `samples` is the list of the whole replay. */
  datatype Cursor = Cursor(
    i: nat, turn: nat, reqTime: real, lastReqTime: real, outputLen: int, samples: seq<Sample>)

  /** A user message followed by a message of another author. */
  predicate IsTurnAt(conv: Conversation, i: nat) {
    i + 1 < |conv| && conv[i].isUser && !conv[i + 1].isUser
  }

  predicate MayContinue(s: Settings, conv: Conversation, c: Cursor) {
    |c.samples| < s.numRequests && c.i + 1 < |conv|
  }

  /** A recorded time on the time line of the replay. */
  function OnTimeLine(s: Settings, start: real, recorded: real): real {
    start + recorded * s.reqScale
  }

  /** The time of the request at message `i`: the recorded one if there is one. */
  function RequestTime(s: Settings, conv: Conversation, start: real, i: nat, reqTime: real): real
    requires i < |conv|
  {
    if conv[i].recorded.Some? then OnTimeLine(s, start, conv[i].recorded.value) else reqTime
  }

  /** The request made of the messages at `i` and `i + 1`. */
  function TurnSample(s: Settings, id: nat, conv: Conversation, start: real, i: nat, turn: nat,
                      reqTime: real, lastReqTime: real): Sample
    requires i + 1 < |conv|
  {
    var now := RequestTime(s, conv, start, i, reqTime);
    Sample(conv[i].text, conv[i].tokens, conv[i + 1].tokens + s.extraOutput, id, turn, now,
           if i + 2 < |conv| then NextTime(s, id, conv, start, i, turn, reqTime) else NO_NEXT, now - lastReqTime)
  }

  /** The time of the request after it: recorded, or after a random delay. */
  function NextTime(s: Settings, id: nat, conv: Conversation, start: real, i: nat, turn: nat, reqTime: real): real
    requires i + 1 < |conv|
  {
    var later := RequestTime(s, conv, start, i, reqTime) + s.delays(id, turn);
    if i + 2 < |conv| then RequestTime(s, conv, start, i + 2, later) else later
  }

  /** One iteration of the loop body. */
  function Advance(s: Settings, id: nat, conv: Conversation, start: real, c: Cursor): Cursor
    requires c.i + 1 < |conv|
  {
    if !IsTurnAt(conv, c.i) then c.(i := c.i + 1)
    else
      var sample := TurnSample(s, id, conv, start, c.i, c.turn, c.reqTime, c.lastReqTime);
      Cursor(c.i + 2, c.turn + 1, NextTime(s, id, conv, start, c.i, c.turn, c.reqTime), sample.timestamp,
             c.outputLen + sample.outputLen, c.samples + [sample])
  }

  /** The loop: stops at either limit or at the end of the conversation. */
  function Lay(s: Settings, id: nat, conv: Conversation, start: real, c: Cursor): Cursor
    decreases |conv| - c.i
  {
    if !MayContinue(s, conv, c) then c
    else
      var c' := Advance(s, id, conv, start, c);
      if c'.reqTime > s.timeLimit then c' else Lay(s, id, conv, start, c')
  }

  function Begin(start: real, samples: seq<Sample>): Cursor {
    Cursor(0, 0, start, start, 0, samples)
  }

  /** The branch that emits a request: returns it with the time of the next one. */
  method TakeTurn(s: Settings, id: nat, conv: Conversation, start: real, i: nat, turn: nat,
                  reqTime: real, lastReqTime: real)
    returns (sample: Sample, reqTime': real)
    requires IsTurnAt(conv, i)
    ensures sample == TurnSample(s, id, conv, start, i, turn, reqTime, lastReqTime)
    ensures reqTime' == NextTime(s, id, conv, start, i, turn, reqTime)
  {
    reqTime' := reqTime;
    if conv[i].recorded.Some? {
      reqTime' := OnTimeLine(s, start, conv[i].recorded.value);
    }
    sample := Sample(conv[i].text, conv[i].tokens, conv[i + 1].tokens + s.extraOutput, id, turn,
                     reqTime', NO_NEXT, reqTime' - lastReqTime);
    reqTime' := reqTime' + s.delays(id, turn);
    if i + 2 < |conv| {
      if conv[i + 2].recorded.Some? {
        reqTime' := OnTimeLine(s, start, conv[i + 2].recorded.value);
      }
      sample := sample.(nextTimestamp := reqTime');
    }
  }

  method LayTurns(s: Settings, id: nat, conv: Conversation, start: real, before: seq<Sample>)
    returns (samples: seq<Sample>, lastReqTime: real, totalOutputLen: int)
    ensures var c := Lay(s, id, conv, start, Begin(start, before));
            samples == c.samples && lastReqTime == c.lastReqTime && totalOutputLen == c.outputLen
  {
    var i: nat, turn: nat, reqTime := 0, 0, start;
    samples, lastReqTime, totalOutputLen := before, start, 0;
    while |samples| < s.numRequests && i < |conv| - 1
      invariant Lay(s, id, conv, start, Cursor(i, turn, reqTime, lastReqTime, totalOutputLen, samples))
             == Lay(s, id, conv, start, Begin(start, before))
      decreases |conv| - i
    {
      if conv[i].isUser && !conv[i + 1].isUser {
        var sample;
        sample, reqTime := TakeTurn(s, id, conv, start, i, turn, reqTime, lastReqTime);
        totalOutputLen := totalOutputLen + sample.outputLen;
        samples := samples + [sample];
        lastReqTime := sample.timestamp;
        turn := turn + 1;
        i := i + 2;
      } else {
        i := i + 1;
      }
      if reqTime > s.timeLimit {
        break;
      }
    }
  }

  // ---------- Which messages become turns ----------

  /** The positions, from `i` on, of all user messages followed by a message of another author. */
  function TurnPositions(conv: Conversation, i: nat): seq<nat>
    decreases |conv| - i
  {
    if i + 1 >= |conv| then []
    else (if IsTurnAt(conv, i) then [i] else []) + TurnPositions(conv, i + 1)
  }

  /** The sample carries the two messages at position `p`. */
  ghost predicate TakenFrom(s: Settings, conv: Conversation, sample: Sample, p: nat) {
    && p + 1 < |conv|
    && sample.prompt == conv[p].text && sample.promptLen == conv[p].tokens
    && sample.outputLen == conv[p + 1].tokens + s.extraOutput
  }

  /** The samples beyond the first `base` are the first turns of the conversation, in order and
      numbered from zero. */
  ghost predicate Turns(s: Settings, id: nat, conv: Conversation, positions: seq<nat>, added: seq<Sample>) {
    && |added| <= |positions|
    && forall k :: 0 <= k < |added| ==>
         TakenFrom(s, conv, added[k], positions[k]) && added[k].conversation == id && added[k].turn == k
  }

  /** After a turn the next message is no user message, so advancing by two misses no turn. */
  lemma SkipIsSafe(conv: Conversation, i: nat)
    requires IsTurnAt(conv, i)
    ensures TurnPositions(conv, i) == [i] + TurnPositions(conv, i + 2)
  {
    assert i + 2 >= |conv| || !IsTurnAt(conv, i + 1);
  }

  /** Everything the loop has added so far, and what it needs to go on. */
  ghost predicate Laid(s: Settings, id: nat, conv: Conversation, base: nat, c: Cursor) {
    && base <= |c.samples| && c.turn == |c.samples| - base
    && c.turn <= |TurnPositions(conv, 0)|
    && TurnPositions(conv, 0)[c.turn..] == TurnPositions(conv, c.i)
    && Turns(s, id, conv, TurnPositions(conv, 0), c.samples[base..])
  }

  lemma TurnsAppend(s: Settings, id: nat, conv: Conversation, positions: seq<nat>, added: seq<Sample>, sample: Sample)
    requires Turns(s, id, conv, positions, added) && |added| < |positions|
    requires TakenFrom(s, conv, sample, positions[|added|]) && sample.conversation == id && sample.turn == |added|
    ensures Turns(s, id, conv, positions, added + [sample])
  {
  }

  lemma AdvanceLaid(s: Settings, id: nat, conv: Conversation, start: real, base: nat, c: Cursor)
    requires Laid(s, id, conv, base, c) && c.i + 1 < |conv|
    ensures Laid(s, id, conv, base, Advance(s, id, conv, start, c))
  {
    if IsTurnAt(conv, c.i) {
      var all, added := TurnPositions(conv, 0), c.samples[base..];
      var sample := TurnSample(s, id, conv, start, c.i, c.turn, c.reqTime, c.lastReqTime);
      SkipIsSafe(conv, c.i);
      assert all[c.turn..][0] == c.i;
      assert all[c.turn + 1..] == all[c.turn..][1..];
      TurnsAppend(s, id, conv, all, added, sample);
      assert (c.samples + [sample])[base..] == added + [sample];
    }
  }

  lemma {:induction false} LayIsLaid(s: Settings, id: nat, conv: Conversation, start: real, base: nat, c: Cursor)
    requires Laid(s, id, conv, base, c)
    ensures Laid(s, id, conv, base, Lay(s, id, conv, start, c))
    ensures c.samples <= Lay(s, id, conv, start, c).samples
    decreases |conv| - c.i
  {
    if MayContinue(s, conv, c) {
      AdvanceLaid(s, id, conv, start, base, c);
      var c' := Advance(s, id, conv, start, c);
      if c'.reqTime <= s.timeLimit {
        LayIsLaid(s, id, conv, start, base, c');
      }
    }
  }

  /** Why the loop stopped. */
  lemma {:induction false} LayStops(s: Settings, id: nat, conv: Conversation, start: real, c: Cursor)
    ensures var end := Lay(s, id, conv, start, c);
            |end.samples| >= s.numRequests || end.i + 1 >= |conv| || end.reqTime > s.timeLimit
    decreases |conv| - c.i
  {
    if MayContinue(s, conv, c) {
      var c' := Advance(s, id, conv, start, c);
      if c'.reqTime <= s.timeLimit { LayStops(s, id, conv, start, c'); }
    }
  }

  /** The new samples are the first turns of the conversation; they are all of them unless the request
      limit or the time limit was reached. */
  lemma TurnsAreExact(s: Settings, id: nat, conv: Conversation, start: real, before: seq<Sample>)
    ensures var end := Lay(s, id, conv, start, Begin(start, before));
            && before <= end.samples
            && Turns(s, id, conv, TurnPositions(conv, 0), end.samples[|before|..])
            && (|end.samples| < s.numRequests && end.reqTime <= s.timeLimit ==>
                  |end.samples[|before|..]| == |TurnPositions(conv, 0)|)
  {
    var c := Begin(start, before);
    LayIsLaid(s, id, conv, start, |before|, c);
    LayStops(s, id, conv, start, c);
  }

  // ---------- The time line ----------

  function Intervals(samples: seq<Sample>): real {
    if samples == [] then 0.0 else Intervals(samples[..|samples| - 1]) + samples[|samples| - 1].interval
  }

  /** Each timestamp is the start plus the intervals so far, whether recorded or drawn. */
  ghost predicate IntervalsAddUp(start: real, added: seq<Sample>) {
    forall k :: 0 <= k < |added| ==> added[k].timestamp == start + Intervals(added[..k + 1])
  }

  ghost predicate Timed(start: real, base: nat, c: Cursor) {
    && base <= |c.samples|
    && c.lastReqTime == start + Intervals(c.samples[base..])
    && IntervalsAddUp(start, c.samples[base..])
  }

  lemma IntervalAppend(start: real, added: seq<Sample>, sample: Sample)
    requires IntervalsAddUp(start, added) && sample.timestamp == start + Intervals(added) + sample.interval
    ensures IntervalsAddUp(start, added + [sample])
    ensures sample.timestamp == start + Intervals(added + [sample])
  {
    var added' := added + [sample];
    assert added'[..|added|] == added;
    forall k | 0 <= k < |added'| ensures added'[k].timestamp == start + Intervals(added'[..k + 1]) {
      if k < |added| {
        assert added'[..k + 1] == added[..k + 1];
      } else {
        assert added'[..k + 1] == added';
      }
    }
  }

  lemma AdvanceTimed(s: Settings, id: nat, conv: Conversation, start: real, base: nat, c: Cursor)
    requires Timed(start, base, c) && c.i + 1 < |conv|
    ensures Timed(start, base, Advance(s, id, conv, start, c))
  {
    if IsTurnAt(conv, c.i) {
      var sample := TurnSample(s, id, conv, start, c.i, c.turn, c.reqTime, c.lastReqTime);
      IntervalAppend(start, c.samples[base..], sample);
      assert (c.samples + [sample])[base..] == c.samples[base..] + [sample];
    }
  }

  lemma {:induction false} LayTimed(s: Settings, id: nat, conv: Conversation, start: real, base: nat, c: Cursor)
    requires Timed(start, base, c)
    ensures Timed(start, base, Lay(s, id, conv, start, c))
    decreases |conv| - c.i
  {
    if MayContinue(s, conv, c) {
      AdvanceTimed(s, id, conv, start, base, c);
      var c' := Advance(s, id, conv, start, c);
      if c'.reqTime <= s.timeLimit { LayTimed(s, id, conv, start, base, c'); }
    }
  }

  ghost predicate NothingRecorded(conv: Conversation) {
    forall i :: 0 <= i < |conv| ==> conv[i].recorded == None
  }

  ghost predicate DelaysNonNegative(s: Settings) {
    forall id, turn :: s.delays(id, turn) >= 0.0
  }

  /** Without recorded times: the samples of the conversation follow one another, each announcing the
      next, within the time limit except perhaps the first. */
  ghost predicate Chained(s: Settings, start: real, added: seq<Sample>) {
    && (added != [] ==> added[0].timestamp == start)
    && (forall k :: 0 <= k < |added| - 1 ==> added[k].nextTimestamp == added[k + 1].timestamp)
    && (forall j, k :: 0 <= j < k < |added| ==> added[j].timestamp <= added[k].timestamp)
    && (forall k :: 0 < k < |added| ==> added[k].timestamp <= s.timeLimit)
  }

  /** The loop is ready for another turn. */
  ghost predicate Ready(s: Settings, conv: Conversation, start: real, base: nat, c: Cursor) {
    && base <= |c.samples| && c.turn == |c.samples| - base
    && Chained(s, start, c.samples[base..])
    && (c.turn == 0 ==> c.reqTime == start)
    && (c.turn > 0 ==>
          var last := c.samples[|c.samples| - 1];
          && last.timestamp <= c.reqTime
          && (c.i < |conv| ==> last.nextTimestamp == c.reqTime))
  }

  lemma ChainAppend(s: Settings, start: real, added: seq<Sample>, sample: Sample)
    requires Chained(s, start, added)
    requires if added == [] then sample.timestamp == start
             else added[|added| - 1].timestamp <= sample.timestamp == added[|added| - 1].nextTimestamp
                  && sample.timestamp <= s.timeLimit
    ensures Chained(s, start, added + [sample])
  {
    forall j | 0 <= j < |added| ensures added[j].timestamp <= sample.timestamp {
      assert j < |added| - 1 ==> added[j].timestamp <= added[|added| - 1].timestamp;
    }
  }

  lemma AdvanceReady(s: Settings, id: nat, conv: Conversation, start: real, base: nat, c: Cursor)
    requires NothingRecorded(conv) && DelaysNonNegative(s)
    requires Ready(s, conv, start, base, c) && c.i + 1 < |conv|
    requires c.turn > 0 ==> c.reqTime <= s.timeLimit
    ensures Ready(s, conv, start, base, Advance(s, id, conv, start, c))
  {
    if IsTurnAt(conv, c.i) {
      var added := c.samples[base..];
      var sample := TurnSample(s, id, conv, start, c.i, c.turn, c.reqTime, c.lastReqTime);
      assert s.delays(id, c.turn) >= 0.0;
      assert added != [] ==> added[|added| - 1] == c.samples[|c.samples| - 1];
      assert (c.samples + [sample])[base..] == added + [sample];
      ChainAppend(s, start, added, sample);
    }
  }

  lemma {:induction false} LayReady(s: Settings, id: nat, conv: Conversation, start: real, base: nat, c: Cursor)
    requires NothingRecorded(conv) && DelaysNonNegative(s)
    requires Ready(s, conv, start, base, c)
    requires c.turn > 0 ==> c.reqTime <= s.timeLimit
    ensures Ready(s, conv, start, base, Lay(s, id, conv, start, c))
    ensures start > s.timeLimit && c.turn == 0 ==> Lay(s, id, conv, start, c).turn <= 1
    decreases |conv| - c.i
  {
    if MayContinue(s, conv, c) {
      AdvanceReady(s, id, conv, start, base, c);
      var c' := Advance(s, id, conv, start, c);
      if c'.reqTime <= s.timeLimit { LayReady(s, id, conv, start, base, c'); }
    }
  }

  function TotalOutput(samples: seq<Sample>): int {
    if samples == [] then 0 else samples[0].outputLen + TotalOutput(samples[1..])
  }

  lemma {:induction false} TotalOutputAppend(samples: seq<Sample>, sample: Sample)
    ensures TotalOutput(samples + [sample]) == TotalOutput(samples) + sample.outputLen
  {
    if samples == [] {
      assert samples + [sample] == [sample];
    } else {
      TotalOutputAppend(samples[1..], sample);
      assert (samples + [sample])[1..] == samples[1..] + [sample];
    }
  }

  /** The time of the last sample, or the start of the conversation if it has none. */
  function LastTime(start: real, samples: seq<Sample>): real {
    if samples == [] then start else samples[|samples| - 1].timestamp
  }

  ghost predicate Totalled(start: real, base: nat, c: Cursor) {
    && base <= |c.samples|
    && c.lastReqTime == LastTime(start, c.samples[base..])
    && c.outputLen == TotalOutput(c.samples[base..])
  }

  /** The time line of one conversation.  Timestamps are the start plus the intervals, and the loop
      ends with the last of them and the sum of the output lengths.  If nothing is
      recorded they never go back, every sample announces the timestamp of the next one, only the
      first can be beyond the time limit, and then it is the only one. */
  lemma TimelineIsRight(s: Settings, id: nat, conv: Conversation, start: real, before: seq<Sample>)
    ensures var added := Lay(s, id, conv, start, Begin(start, before)).samples;
            before <= added && IntervalsAddUp(start, added[|before|..])
    ensures Totalled(start, |before|, Lay(s, id, conv, start, Begin(start, before)))
    ensures NothingRecorded(conv) && DelaysNonNegative(s) ==>
              var end := Lay(s, id, conv, start, Begin(start, before));
              && Chained(s, start, end.samples[|before|..])
              && (start > s.timeLimit ==> |end.samples| - |before| <= 1)
  {
    var c, base := Begin(start, before), |before|;
    TurnsAreExact(s, id, conv, start, before);
    LayTimed(s, id, conv, start, base, c);
    LayTotals(s, id, conv, start, base, c);
    if NothingRecorded(conv) && DelaysNonNegative(s) {
      LayReady(s, id, conv, start, base, c);
    }
  }

  /** The loop remembers the time of its latest sample and adds up the output lengths. */
  lemma {:induction false} LayTotals(s: Settings, id: nat, conv: Conversation, start: real, base: nat, c: Cursor)
    requires Totalled(start, base, c)
    ensures Totalled(start, base, Lay(s, id, conv, start, c))
    decreases |conv| - c.i
  {
    if MayContinue(s, conv, c) {
      var c' := Advance(s, id, conv, start, c);
      if IsTurnAt(conv, c.i) {
        assert c'.samples[base..] == c.samples[base..] + [c'.samples[|c.samples|]];
        TotalOutputAppend(c.samples[base..], c'.samples[|c.samples|]);
      }
      if c'.reqTime <= s.timeLimit { LayTotals(s, id, conv, start, base, c'); }
    }
  }
}
