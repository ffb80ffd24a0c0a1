/** A whole replay: conversations are admitted one after the other, their turns laid out, and all
    requests sorted by time. */
module Replay {
  import opened Options
  import opened StableSorting
  import opened Admission
  import opened Conversations
  import opened RecordedTimes

  /** `gaps` gives the random time between the start of one conversation and the candidate start of
      the next; at most `maxActive` conversations may be active. */
  datatype Plan = Plan(settings: Settings, maxActive: int, gaps: nat -> real)

  /** A conversation that was opened, when `before` samples had been made; it has no finish time if its
      last request time is negative. */
  datatype Opened = Opened(before: nat, candidate: real, start: real, finish: Option<real>)

  /** The loop variables, with the history of opened conversations. */
  datatype World = World(samples: seq<Sample>, heap: seq<real>, lastStart: real, convs: seq<Opened>)

  datatype Outcome = Samples(samples: seq<Sample>) | NoData | PopFromEmptyHeap

  const TOKENS_PER_SECOND := 30.0

  function Fresh(): World {
    World([], [], 0.0, [])
  }

  predicate MayOpen(plan: Plan, data: seq<Conversation>, w: World) {
    |w.convs| < |data| && |w.samples| < plan.settings.numRequests && w.lastStart <= plan.settings.timeLimit
  }

  function Candidate(plan: Plan, w: World): real {
    w.lastStart + plan.gaps(|w.convs|)
  }

  /** One conversation, given that it was admitted. */
  function Open(plan: Plan, data: seq<Conversation>, w: World, a: Admitted): (w': World)
    requires |w.convs| < |data| && a.Admitted?
    ensures |w'.convs| == |w.convs| + 1
  {
    var id := |w.convs|;
    var c := Lay(plan.settings, id, data[id], a.start, Begin(a.start, w.samples));
    var finish := c.lastReqTime + c.outputLen as real / TOKENS_PER_SECOND;
    if c.lastReqTime >= 0.0
    then World(c.samples, Push(a.heap, finish), a.start, w.convs + [Opened(|w.samples|, Candidate(plan, w), a.start, Some(finish))])
    else World(c.samples, a.heap, a.start, w.convs + [Opened(|w.samples|, Candidate(plan, w), a.start, None)])
  }

  /** The loop over the conversations; nothing if the heap runs empty. */
  function Run(plan: Plan, data: seq<Conversation>, w: World): Option<World>
    decreases |data| - |w.convs|
  {
    if !MayOpen(plan, data, w) then Some(w)
    else
      var a := Admit(w.heap, Candidate(plan, w), plan.maxActive);
      if a.HeapExhausted? then None else Run(plan, data, Open(plan, data, w, a))
  }

  function ByTime(x: Sample): Key {
    Key(x.timestamp, 0)
  }

  function WithinTime(limit: real): Sample -> bool {
    (x: Sample) => x.timestamp <= limit
  }

  function OfConversation(c: nat): Sample -> bool {
    (x: Sample) => x.conversation == c
  }

  /** The final stable sort and filter. */
  function Finished(plan: Plan, samples: seq<Sample>): seq<Sample> {
    Filter(Sort(samples, ByTime), WithinTime(plan.settings.timeLimit))
  }

  method SampleRequests(plan: Plan, data: seq<Conversation>) returns (r: Outcome)
    ensures r == if data == [] then NoData
                 else match Run(plan, data, Fresh())
                      case None => PopFromEmptyHeap
                      case Some(w) => Samples(Finished(plan, w.samples))
  {
    var samples: seq<Sample>, heap: seq<real>, lastStart := [], [], 0.0;
    ghost var w := Fresh();
    var id := 0;
    while id < |data| && |samples| < plan.settings.numRequests && lastStart <= plan.settings.timeLimit
      invariant id == |w.convs| && samples == w.samples && heap == w.heap && lastStart == w.lastStart
      invariant Run(plan, data, w) == Run(plan, data, Fresh())
      decreases |data| - id
    {
      var a := AdmitConversation(heap, lastStart + plan.gaps(id), plan.maxActive);
      if a.HeapExhausted? {
        return PopFromEmptyHeap;
      }
      w := Open(plan, data, w, a);
      heap, lastStart := a.heap, a.start;
      var lastReqTime, totalOutputLen;
      samples, lastReqTime, totalOutputLen := LayTurns(plan.settings, id, data[id], lastStart, samples);
      if lastReqTime >= 0.0 {
        heap := Push(heap, lastReqTime + totalOutputLen as real / TOKENS_PER_SECOND);
      }
      id := id + 1;
    }
    if data == [] {
      return NoData;
    }
    r := Samples(Finished(plan, samples));
  }

  // ---------- Admission over the whole replay ----------

  /** The finish times of the conversations, in order of opening. */
  function Finishes(convs: seq<Opened>): seq<real> {
    if convs == [] then []
    else
      var fs := Finishes(convs[..|convs| - 1]);
      if convs[|convs| - 1].finish.Some? then fs + [convs[|convs| - 1].finish.value] else fs
  }

  ghost predicate GapsNonNegative(plan: Plan) {
    forall id :: plan.gaps(id) >= 0.0
  }

  /** When the conversation before `c` started. */
  function PreviousStart(convs: seq<Opened>, c: nat): real
    requires c <= |convs|
  {
    if c == 0 then 0.0 else convs[c - 1].start
  }

  /** Conversation `c` started at the earliest time, from its candidate on, at which fewer than
      `maxActive` of the earlier conversations were active. */
  ghost predicate StartedEarliest(plan: Plan, convs: seq<Opened>, c: nat)
    requires c < |convs|
  {
    var earlier := Finishes(convs[..c]);
    && convs[c].candidate == PreviousStart(convs, c) + plan.gaps(c) <= convs[c].start
    && |After(earlier, convs[c].start)| < plan.maxActive
    && forall u :: convs[c].candidate <= u < convs[c].start ==> |After(earlier, u)| >= plan.maxActive
  }

  ghost predicate Scheduled(plan: Plan, w: World) {
    && Agrees(w.heap, Finishes(w.convs), w.lastStart)
    && (forall c :: 0 <= c < |w.convs| ==> StartedEarliest(plan, w.convs, c))
    && w.lastStart == PreviousStart(w.convs, |w.convs|)
    && 0.0 <= w.lastStart
  }

  lemma OlderStart(plan: Plan, convs: seq<Opened>, o: Opened, c: nat)
    requires c < |convs| && StartedEarliest(plan, convs, c)
    ensures StartedEarliest(plan, convs + [o], c)
  {
    assert (convs + [o])[..c] == convs[..c];
  }

  /** What opening changes apart from the samples. */
  lemma OpenEffect(plan: Plan, data: seq<Conversation>, w: World, a: Admitted)
    requires |w.convs| < |data| && a.Admitted?
    ensures var w' := Open(plan, data, w, a);
            var o := w'.convs[|w.convs|];
            && w'.convs == w.convs + [o] && o.candidate == Candidate(plan, w) && o.start == a.start
            && o.before == |w.samples|
            && w'.lastStart == a.start
            && w'.heap == (if o.finish.Some? then Push(a.heap, o.finish.value) else a.heap)
            && Finishes(w'.convs) == Finishes(w.convs) + if o.finish.Some? then [o.finish.value] else []
  {
    var w' := Open(plan, data, w, a);
    assert w'.convs[..|w.convs|] == w.convs;
  }

  lemma NewStart(plan: Plan, convs: seq<Opened>, o: Opened, heap: seq<real>)
    requires o.candidate == PreviousStart(convs, |convs|) + plan.gaps(|convs|) <= o.start
    requires multiset(heap) == After(Finishes(convs), o.start) && |heap| < plan.maxActive
    requires forall u :: o.candidate <= u < o.start ==> |After(Finishes(convs), u)| >= plan.maxActive
    ensures StartedEarliest(plan, convs + [o], |convs|)
  {
    assert |heap| == |multiset(heap)|;
    assert (convs + [o])[..|convs|] == convs;
  }

  lemma OpenScheduled(plan: Plan, data: seq<Conversation>, w: World)
    requires GapsNonNegative(plan) && Scheduled(plan, w) && MayOpen(plan, data, w)
    ensures var a := Admit(w.heap, Candidate(plan, w), plan.maxActive);
            && (a.HeapExhausted? <==> plan.maxActive <= 0)
            && (a.Admitted? ==>
                  && Scheduled(plan, Open(plan, data, w, a))
                  && multiset(a.heap) == After(Finishes(w.convs), a.start))
  {
    assert plan.gaps(|w.convs|) >= 0.0;
    AdmissionIsExact(w.heap, Finishes(w.convs), w.lastStart, Candidate(plan, w), plan.maxActive);
    var a := Admit(w.heap, Candidate(plan, w), plan.maxActive);
    if a.Admitted? {
      AdmittedScheduled(plan, data, w, a);
    }
  }

  lemma AdmittedScheduled(plan: Plan, data: seq<Conversation>, w: World, a: Admitted)
    requires Scheduled(plan, w) && |w.convs| < |data| && a.Admitted?
    requires 0.0 <= Candidate(plan, w) <= a.start
    requires multiset(a.heap) == After(Finishes(w.convs), a.start) && |a.heap| < plan.maxActive
    requires forall u :: Candidate(plan, w) <= u < a.start ==> |After(Finishes(w.convs), u)| >= plan.maxActive
    requires Agrees(a.heap, Finishes(w.convs), a.start)
    ensures Scheduled(plan, Open(plan, data, w, a))
  {
    var id, w' := |w.convs|, Open(plan, data, w, a);
    var o := w'.convs[id];
    OpenEffect(plan, data, w, a);
    NewStart(plan, w.convs, o, a.heap);
    forall c | 0 <= c < |w'.convs| ensures StartedEarliest(plan, w'.convs, c) {
      if c < id { OlderStart(plan, w.convs, o, c); }
    }
    if o.finish.Some? {
      PushAgrees(a.heap, Finishes(w.convs), a.start, o.finish.value);
    } else {
      assert Finishes(w'.convs) == Finishes(w.convs);
    }
  }

  lemma {:induction false} RunScheduled(plan: Plan, data: seq<Conversation>, w: World)
    requires GapsNonNegative(plan) && Scheduled(plan, w)
    ensures Run(plan, data, w) == None <==> MayOpen(plan, data, w) && plan.maxActive <= 0
    ensures Run(plan, data, w).Some? ==> Scheduled(plan, Run(plan, data, w).value)
    decreases |data| - |w.convs|
  {
    if MayOpen(plan, data, w) {
      OpenScheduled(plan, data, w);
      var a := Admit(w.heap, Candidate(plan, w), plan.maxActive);
      if a.Admitted? {
        RunScheduled(plan, data, Open(plan, data, w, a));
      }
    }
  }

  /** Over a whole replay, every conversation is opened at the earliest possible time; the replay
      fails exactly when a conversation is to be opened but none may be active. */
  lemma EveryStartIsEarliest(plan: Plan, data: seq<Conversation>, c: nat)
    requires GapsNonNegative(plan)
    ensures Run(plan, data, Fresh()) == None <==> MayOpen(plan, data, Fresh()) && plan.maxActive <= 0
    ensures match Run(plan, data, Fresh())
            case None => true
            case Some(w) => c < |w.convs| ==> StartedEarliest(plan, w.convs, c)
  {
    assert Scheduled(plan, Fresh());
    RunScheduled(plan, data, Fresh());
  }

  /** How many of the conversations have started by `u` and finish after it. */
  function ActiveAt(convs: seq<Opened>, u: real): nat {
    if convs == [] then 0
    else
      var o := convs[|convs| - 1];
      ActiveAt(convs[..|convs| - 1], u) + if o.start <= u && o.finish.Some? && u < o.finish.value then 1 else 0
  }

  lemma {:induction false} ActiveFinishAfter(convs: seq<Opened>, u: real)
    ensures ActiveAt(convs, u) <= |After(Finishes(convs), u)|
  {
    if convs != [] {
      var n := |convs| - 1;
      ActiveFinishAfter(convs[..n], u);
      if convs[n].finish.Some? { AfterAppend(Finishes(convs[..n]), convs[n].finish.value, u); }
    }
  }

  /** If every conversation started when fewer than the limit were active, then at no time are more
      than the limit active. */
  lemma {:induction false} ActiveWithinLimit(plan: Plan, convs: seq<Opened>, u: real)
    requires forall c :: 0 <= c < |convs| ==> StartedEarliest(plan, convs, c)
    ensures convs != [] ==> ActiveAt(convs, u) <= plan.maxActive
  {
    if convs != [] {
      var n := |convs| - 1;
      var before := convs[..n];
      assert StartedEarliest(plan, convs, n);
      if convs[n].start <= u {
        ActiveFinishAfter(before, u);
        AfterMonotone(Finishes(before), convs[n].start, u);
      } else {
        forall c | 0 <= c < n ensures StartedEarliest(plan, before, c) {
          assert StartedEarliest(plan, convs, c) && before[..c] == convs[..c];
        }
        ActiveWithinLimit(plan, before, u);
      }
    }
  }

  /** At every time of a replay at most the allowed number of conversations are active. */
  lemma NeverTooManyActive(plan: Plan, data: seq<Conversation>, u: real)
    requires GapsNonNegative(plan)
    ensures match Run(plan, data, Fresh())
            case None => true
            case Some(w) => w.convs != [] ==> ActiveAt(w.convs, u) <= plan.maxActive
  {
    assert Scheduled(plan, Fresh());
    RunScheduled(plan, data, Fresh());
    if Run(plan, data, Fresh()).Some? {
      ActiveWithinLimit(plan, Run(plan, data, Fresh()).value.convs, u);
    }
  }

  // ---------- The requests of each conversation ----------

  lemma {:induction false} FilterAppend<T>(s: seq<T>, t: seq<T>, p: T -> bool)
    ensures Filter(s + t, p) == Filter(s, p) + Filter(t, p)
  {
    if s == [] {
      assert s + t == t;
    } else {
      FilterAppend(s[1..], t, p);
      assert (s + t)[1..] == s[1..] + t;
    }
  }

  lemma {:induction false} FilterAll<T>(s: seq<T>, p: T -> bool)
    requires forall k :: 0 <= k < |s| ==> p(s[k])
    ensures Filter(s, p) == s
  {
    if s != [] { FilterAll(s[1..], p); }
  }

  lemma {:induction false} FilterNone<T>(s: seq<T>, p: T -> bool)
    requires forall k :: 0 <= k < |s| ==> !p(s[k])
    ensures Filter(s, p) == []
  {
    if s != [] { FilterNone(s[1..], p); }
  }

  lemma {:induction false} FilterCommutes<T>(s: seq<T>, p: T -> bool, q: T -> bool)
    ensures Filter(Filter(s, p), q) == Filter(Filter(s, q), p)
  {
    if s != [] {
      FilterCommutes(s[1..], p, q);
      assert ([s[0]] + Filter(s[1..], p))[1..] == Filter(s[1..], p);
      assert ([s[0]] + Filter(s[1..], q))[1..] == Filter(s[1..], q);
    }
  }

  /** The samples of conversation `c`, in the order in which they were made. */
  function Block(samples: seq<Sample>, c: nat): seq<Sample> {
    Filter(samples, OfConversation(c))
  }

  /** Without recorded times the samples are chained in time, and only one can be late. */
  ghost predicate ChainIsRight(s: Settings, conv: Conversation, start: real, block: seq<Sample>) {
    NothingRecorded(conv) && DelaysNonNegative(s) ==>
      Chained(s, start, block) && (start > s.timeLimit ==> |block| <= 1)
  }

  /** The samples `added` for a conversation that starts at `start`, when `before` samples have been made,
      are right. */
  ghost predicate AddedIsRight(s: Settings, id: nat, conv: Conversation, before: nat, start: real, added: seq<Sample>) {
    && Turns(s, id, conv, TurnPositions(conv, 0), added)
    && Stamped(s, id, conv, start, TurnPositions(conv, 0), added)
    && ChainIsRight(s, conv, start, added)
    && EndsForReason(s, start, TurnPositions(conv, 0), before, added)
  }

  /** The samples of an opened conversation are its first turns, with the right times. */
  ghost predicate BlockIsRight(plan: Plan, data: seq<Conversation>, w: World, c: nat)
    requires c < |w.convs| <= |data|
  {
    var start, block := w.convs[c].start, Block(w.samples, c);
    && AddedIsRight(plan.settings, c, data[c], w.convs[c].before, start, block)
    && w.convs[c].finish == FinishOf(start, block)
  }

  /** When a conversation with these samples finishes: its output follows its last request. */
  function FinishOf(start: real, samples: seq<Sample>): Option<real> {
    var last := LastTime(start, samples);
    if last >= 0.0 then Some(last + TotalOutput(samples) as real / 30.0) else None
  }

  ghost predicate Replayed(plan: Plan, data: seq<Conversation>, w: World) {
    && |w.convs| <= |data|
    && (forall k :: 0 <= k < |w.samples| ==> w.samples[k].conversation < |w.convs|)
    && (forall c :: 0 <= c < |w.convs| ==> BlockIsRight(plan, data, w, c))
    && (forall c :: 0 <= c < |w.convs| - 1 ==> w.convs[c].start <= plan.settings.timeLimit)
    && (w.convs != [] ==> w.lastStart == w.convs[|w.convs| - 1].start)
  }

  ghost predicate AllUnrecorded(data: seq<Conversation>) {
    forall c :: 0 <= c < |data| ==> NothingRecorded(data[c])
  }

  lemma LayIsRight(s: Settings, id: nat, conv: Conversation, start: real, before: seq<Sample>)
    ensures var samples := Lay(s, id, conv, start, Begin(start, before)).samples;
            before <= samples && AddedIsRight(s, id, conv, |before|, start, samples[|before|..])
  {
    TurnsAreExact(s, id, conv, start, before);
    StampsAreRight(s, id, conv, start, before);
    TimelineIsRight(s, id, conv, start, before);
    SamplesEnd(s, id, conv, start, before);
  }

  /** The samples that opening a conversation adds. */
  lemma OpenAdds(plan: Plan, data: seq<Conversation>, w: World, a: Admitted) returns (added: seq<Sample>)
    requires |w.convs| < |data| && a.Admitted?
    ensures Open(plan, data, w, a).samples == w.samples + added
    ensures AddedIsRight(plan.settings, |w.convs|, data[|w.convs|], |w.samples|, a.start, added)
  {
    var id := |w.convs|;
    LayIsRight(plan.settings, id, data[id], a.start, w.samples);
    added := Open(plan, data, w, a).samples[|w.samples|..];
  }

  lemma OpenFinishes(plan: Plan, data: seq<Conversation>, w: World, a: Admitted, added: seq<Sample>)
    requires |w.convs| < |data| && a.Admitted?
    requires Open(plan, data, w, a).samples == w.samples + added
    ensures Open(plan, data, w, a).convs[|w.convs|].finish == FinishOf(a.start, added)
  {
    var id := |w.convs|;
    var c := Begin(a.start, w.samples);
    LayTotals(plan.settings, id, data[id], a.start, |w.samples|, c);
    assert Lay(plan.settings, id, data[id], a.start, c).samples[|w.samples|..] == added;
  }

  /** Appending the samples of one conversation adds its block and leaves the other blocks alone. */
  lemma BlockAppend(samples: seq<Sample>, added: seq<Sample>, id: nat, c: nat)
    requires forall k :: 0 <= k < |samples| ==> samples[k].conversation < id
    requires forall k :: 0 <= k < |added| ==> added[k].conversation == id
    ensures Block(samples + added, c) == if c == id then added else Block(samples, c)
  {
    FilterAppend(samples, added, OfConversation(c));
    if c == id {
      FilterNone(samples, OfConversation(c));
      FilterAll(added, OfConversation(c));
    } else {
      FilterNone(added, OfConversation(c));
    }
  }

  /** Opening a conversation keeps the blocks of the others. */
  lemma BlocksKept(plan: Plan, data: seq<Conversation>, w: World, w': World, added: seq<Sample>, c: nat)
    requires Replayed(plan, data, w) && c < |w.convs| < |w'.convs| <= |data|
    requires w'.samples == w.samples + added && w'.convs[c] == w.convs[c]
    requires forall k :: 0 <= k < |added| ==> added[k].conversation == |w.convs|
    ensures BlockIsRight(plan, data, w', c)
  {
    assert BlockIsRight(plan, data, w, c);
    BlockAppend(w.samples, added, |w.convs|, c);
  }

  lemma BlockAdded(plan: Plan, data: seq<Conversation>, w: World, w': World, added: seq<Sample>, o: Opened)
    requires Replayed(plan, data, w) && |w.convs| < |data|
    requires w'.samples == w.samples + added && w'.convs == w.convs + [o]
    requires AddedIsRight(plan.settings, |w.convs|, data[|w.convs|], |w.samples|, o.start, added)
    requires o.before == |w.samples|
    requires o.finish == FinishOf(o.start, added)
    ensures BlockIsRight(plan, data, w', |w.convs|)
    ensures forall k :: 0 <= k < |added| ==> added[k].conversation == |w.convs|
  {
    BlockAppend(w.samples, added, |w.convs|, |w.convs|);
  }

  /** Another conversation, given what it adds. */
  lemma ReplayedOn(plan: Plan, data: seq<Conversation>, w: World, w': World, added: seq<Sample>, o: Opened)
    requires Replayed(plan, data, w) && MayOpen(plan, data, w)
    requires w'.samples == w.samples + added && w'.convs == w.convs + [o] && w'.lastStart == o.start
    requires AddedIsRight(plan.settings, |w.convs|, data[|w.convs|], |w.samples|, o.start, added)
    requires o.before == |w.samples|
    requires o.finish == FinishOf(o.start, added)
    ensures Replayed(plan, data, w')
  {
    BlockAdded(plan, data, w, w', added, o);
    forall c | 0 <= c < |w'.convs| ensures BlockIsRight(plan, data, w', c) {
      if c < |w.convs| { BlocksKept(plan, data, w, w', added, c); }
    }
  }

  lemma OpenReplayed(plan: Plan, data: seq<Conversation>, w: World, a: Admitted)
    requires Replayed(plan, data, w) && MayOpen(plan, data, w) && a.Admitted?
    ensures Replayed(plan, data, Open(plan, data, w, a))
  {
    var w' := Open(plan, data, w, a);
    var added := OpenAdds(plan, data, w, a);
    OpenFinishes(plan, data, w, a, added);
    OpenEffect(plan, data, w, a);
    ReplayedOn(plan, data, w, w', added, w'.convs[|w.convs|]);
  }

  lemma {:induction false} RunReplayed(plan: Plan, data: seq<Conversation>, w: World)
    requires Replayed(plan, data, w)
    ensures Run(plan, data, w).Some? ==> Replayed(plan, data, Run(plan, data, w).value)
    decreases |data| - |w.convs|
  {
    if MayOpen(plan, data, w) {
      var a := Admit(w.heap, Candidate(plan, w), plan.maxActive);
      if a.Admitted? {
        OpenReplayed(plan, data, w, a);
        RunReplayed(plan, data, Open(plan, data, w, a));
      }
    }
  }

  /** The samples of one conversation in the result: its own, sorted and filtered. */
  lemma FinishedBlock(plan: Plan, samples: seq<Sample>, c: nat)
    ensures Filter(Finished(plan, samples), OfConversation(c))
         == Sort(Filter(Block(samples, c), WithinTime(plan.settings.timeLimit)), ByTime)
  {
    var within := WithinTime(plan.settings.timeLimit);
    FilterCommutes(Sort(samples, ByTime), within, OfConversation(c));
    FilterSort(samples, ByTime, OfConversation(c));
    FilterSort(Block(samples, c), ByTime, within);
  }

  /** Sorting keeps the turn order of a conversation without recorded times; the filter removes
      either nothing of it or, if it started beyond the time limit, its only sample. */
  lemma SortedBlock(plan: Plan, data: seq<Conversation>, w: World, c: nat)
    requires Replayed(plan, data, w) && c < |w.convs|
    requires NothingRecorded(data[c]) && DelaysNonNegative(plan.settings)
    ensures Filter(Finished(plan, w.samples), OfConversation(c))
         == if w.convs[c].start <= plan.settings.timeLimit then Block(w.samples, c) else []
  {
    var block, within := Block(w.samples, c), WithinTime(plan.settings.timeLimit);
    assert BlockIsRight(plan, data, w, c);
    FinishedBlock(plan, w.samples, c);
    SortOfSorted(block, ByTime);
    if w.convs[c].start <= plan.settings.timeLimit {
      FilterAll(block, within);
    } else {
      FilterNone(block, within);
    }
  }

  lemma {:induction false} FilterLengths<T>(s: seq<T>, p: T -> bool, q: T -> bool)
    requires forall k :: 0 <= k < |s| ==> p(s[k]) || q(s[k])
    ensures |s| <= |Filter(s, p)| + |Filter(s, q)|
  {
    if s != [] { FilterLengths(s[1..], p, q); }
  }

  lemma {:induction false} FilterMember(samples: seq<Sample>, k: nat)
    requires k < |samples|
    ensures samples[k] in Block(samples, samples[k].conversation)
  {
    FilterMembers(samples, OfConversation(samples[k].conversation));
  }

  /** A sample beyond the time limit is the first turn of the last conversation, which itself was
      opened beyond the limit. */
  lemma LateSample(plan: Plan, data: seq<Conversation>, w: World, k: nat)
    requires AllUnrecorded(data) && DelaysNonNegative(plan.settings)
    requires Replayed(plan, data, w) && k < |w.samples|
    requires w.samples[k].timestamp > plan.settings.timeLimit
    ensures w.samples[k].conversation == |w.convs| - 1 && w.samples[k].turn == 0
    ensures w.convs[|w.convs| - 1].start > plan.settings.timeLimit
  {
    var c := w.samples[k].conversation;
    assert BlockIsRight(plan, data, w, c);
    FilterMember(w.samples, k);
    var j :| 0 <= j < |Block(w.samples, c)| && Block(w.samples, c)[j] == w.samples[k];
  }

  lemma KeptLength(plan: Plan, samples: seq<Sample>)
    ensures |Finished(plan, samples)| == |Filter(samples, WithinTime(plan.settings.timeLimit))|
  {
    FilterSort(samples, ByTime, WithinTime(plan.settings.timeLimit));
    SortKeepsElements(Filter(samples, WithinTime(plan.settings.timeLimit)), ByTime);
  }

  /** At most one sample of the whole replay is dropped: the first turn of the last conversation. */
  lemma AtMostOneDropped(plan: Plan, data: seq<Conversation>, w: World)
    requires AllUnrecorded(data) && DelaysNonNegative(plan.settings)
    requires Replayed(plan, data, w)
    ensures |w.samples| <= |Finished(plan, w.samples)| + 1
    ensures forall k :: 0 <= k < |w.samples| && w.samples[k].timestamp > plan.settings.timeLimit ==>
              w.samples[k].conversation == |w.convs| - 1 && w.samples[k].turn == 0
  {
    var within := WithinTime(plan.settings.timeLimit);
    forall k | 0 <= k < |w.samples| && w.samples[k].timestamp > plan.settings.timeLimit
      ensures w.samples[k].conversation == |w.convs| - 1 && w.samples[k].turn == 0
      ensures w.convs[|w.convs| - 1].start > plan.settings.timeLimit
    {
      LateSample(plan, data, w, k);
    }
    KeptLength(plan, w.samples);
    if late :| 0 <= late < |w.samples| && w.samples[late].timestamp > plan.settings.timeLimit {
      assert BlockIsRight(plan, data, w, |w.convs| - 1);
      FilterLengths(w.samples, within, OfConversation(|w.convs| - 1));
    } else {
      FilterAll(w.samples, within);
    }
  }

  /** The replay: without recorded times every conversation keeps its turn order through the final
      sort, its turns are numbered from zero, and its finish time follows from its own samples; at most
      one sample in all is dropped. */
  lemma ReplayIsRight(plan: Plan, data: seq<Conversation>, c: nat)
    requires AllUnrecorded(data) && DelaysNonNegative(plan.settings) && GapsNonNegative(plan)
    ensures match Run(plan, data, Fresh())
            case None => true
            case Some(w) =>
              && |w.convs| <= |data|
              && |w.samples| <= |Finished(plan, w.samples)| + 1
              && (c < |w.convs| ==>
                    var block := Filter(Finished(plan, w.samples), OfConversation(c));
                    && Turns(plan.settings, c, data[c], TurnPositions(data[c], 0), block)
                    && Chained(plan.settings, w.convs[c].start, block)
                    && (forall k :: 0 <= k < |block| ==>
                          block[k].timestamp == w.convs[c].start + DelaySum(plan.settings, c, k))
                    && w.convs[c].finish == FinishOf(w.convs[c].start, Block(w.samples, c))
                    && (c < |w.convs| - 1 ==> block == Block(w.samples, c)))
  {
    assert Replayed(plan, data, Fresh());
    RunReplayed(plan, data, Fresh());
    match Run(plan, data, Fresh())
    case None =>
    case Some(w) =>
      AtMostOneDropped(plan, data, w);
      if c < |w.convs| {
        SortedBlock(plan, data, w, c);
        assert BlockIsRight(plan, data, w, c);
        var start, block := w.convs[c].start, Block(w.samples, c);
        forall k | 0 <= k < |block| ensures block[k].timestamp == start + DelaySum(plan.settings, c, k) {
          DrawnTimes(plan.settings, c, data[c], start, TurnPositions(data[c], 0), block, k);
        }
      }
  }
}
