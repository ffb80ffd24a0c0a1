/** When conversations are opened and how many samples are made: the limits of a replay. */
module ReplayLimits {
  import opened Options
  import opened StableSorting
  import opened Admission
  import opened Conversations
  import opened RecordedTimes
  import opened Replay
  import opened RecordedReplays

  /** Conversation `c` was opened when fewer samples than requested had been made, those of the
      conversations before it, and the conversation before it had started within the time limit. */
  ghost predicate OpenedInTime(plan: Plan, w: World, c: nat)
    requires c < |w.convs|
  {
    var before := w.convs[c].before;
    && before < plan.settings.numRequests
    && PreviousStart(w.convs, c) <= plan.settings.timeLimit
    && before <= |w.samples|
    && (forall k :: 0 <= k < |w.samples| ==> (w.samples[k].conversation < c <==> k < before))
  }

  ghost predicate WithinLimits(plan: Plan, data: seq<Conversation>, w: World) {
    && |w.convs| <= |data|
    && (|w.samples| <= plan.settings.numRequests || w.samples == [])
    && w.lastStart == PreviousStart(w.convs, |w.convs|)
    && (forall k :: 0 <= k < |w.samples| ==> w.samples[k].conversation < |w.convs|)
    && (forall c :: 0 <= c < |w.convs| ==> OpenedInTime(plan, w, c))
  }

  /** The samples that opening a conversation adds are its own, and no more than requested. */
  lemma OpenCounts(plan: Plan, data: seq<Conversation>, w: World, a: Admitted) returns (added: seq<Sample>)
    requires |w.convs| < |data| && a.Admitted? && |w.samples| < plan.settings.numRequests
    ensures Open(plan, data, w, a).samples == w.samples + added
    ensures forall k :: 0 <= k < |added| ==> added[k].conversation == |w.convs|
    ensures |w.samples| + |added| <= plan.settings.numRequests
  {
    var id := |w.convs|;
    added := OpenAdds(plan, data, w, a);
    SamplesEnd(plan.settings, id, data[id], a.start, w.samples);
  }

  lemma StillInTime(plan: Plan, w: World, w': World, added: seq<Sample>, o: Opened, c: nat)
    requires c < |w.convs| && OpenedInTime(plan, w, c)
    requires w'.samples == w.samples + added && w'.convs == w.convs + [o]
    requires forall k :: 0 <= k < |added| ==> added[k].conversation == |w.convs|
    ensures OpenedInTime(plan, w', c)
  {
  }

  lemma OpenWithinLimits(plan: Plan, data: seq<Conversation>, w: World, a: Admitted)
    requires WithinLimits(plan, data, w) && MayOpen(plan, data, w) && a.Admitted?
    ensures WithinLimits(plan, data, Open(plan, data, w, a))
  {
    var w' := Open(plan, data, w, a);
    var added := OpenCounts(plan, data, w, a);
    OpenEffect(plan, data, w, a);
    forall c | 0 <= c < |w'.convs| ensures OpenedInTime(plan, w', c) {
      if c < |w.convs| { StillInTime(plan, w, w', added, w'.convs[|w.convs|], c); }
    }
  }

  lemma {:induction false} RunWithinLimits(plan: Plan, data: seq<Conversation>, w: World)
    requires WithinLimits(plan, data, w)
    ensures match Run(plan, data, w)
            case None => true
            case Some(end) => WithinLimits(plan, data, end) && !MayOpen(plan, data, end)
    decreases |data| - |w.convs|
  {
    if MayOpen(plan, data, w) {
      var a := Admit(w.heap, Candidate(plan, w), plan.maxActive);
      if a.Admitted? {
        OpenWithinLimits(plan, data, w, a);
        RunWithinLimits(plan, data, Open(plan, data, w, a));
      }
    }
  }

  /** A replay makes at most the requested number of samples.  It opens a conversation only while fewer
      have been made and the one before started within the time limit, and it opens the next one
      unless one of these limits is reached or no conversation is left. */
  lemma ReplayKeepsLimits(plan: Plan, data: seq<Conversation>, c: nat)
    ensures match Run(plan, data, Fresh())
            case None => true
            case Some(w) =>
              && (|w.samples| <= plan.settings.numRequests || w.samples == [])
              && (c < |w.convs| ==> OpenedInTime(plan, w, c))
              && (|| |w.convs| == |data|
                  || |w.samples| >= plan.settings.numRequests
                  || PreviousStart(w.convs, |w.convs|) > plan.settings.timeLimit)
  {
    RunWithinLimits(plan, data, Fresh());
  }

  /** The replay fails if and only if a conversation is to be opened but none may be active. */
  lemma ReplayFailsExactly(plan: Plan, data: seq<Conversation>)
    requires GapsNonNegative(plan)
    ensures Run(plan, data, Fresh()) == None
       <==> plan.maxActive <= 0 && data != [] && plan.settings.numRequests > 0 && plan.settings.timeLimit >= 0.0
  {
    EveryStartIsEarliest(plan, data, 0);
  }

  /** The result is ordered by time and within the limit. */
  lemma ResultIsOrdered(plan: Plan, samples: seq<Sample>)
    ensures NeverBack(Finished(plan, samples))
    ensures forall x :: x in Finished(plan, samples) <==> x in samples && x.timestamp <= plan.settings.timeLimit
  {
    var within := WithinTime(plan.settings.timeLimit);
    FilterSort(samples, ByTime, within);
    SortSorted(Filter(samples, within), ByTime);
    NeverBackIsSorted(Finished(plan, samples));
    SortKeepsElements(Filter(samples, within), ByTime);
    FilterMembers(samples, within);
  }
}
