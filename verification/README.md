# Verified models of the serving benchmark, its tools and two small libraries

This project models, in Dafny, the stateful algorithms of the repository and proves what they
promise over every input and every run.  Check it with `dafny verify dfyconfig.toml`.

| modules | what they model |
|---|---|
| `RequestQueues`, `Servers`, `Rebalance`, `RebalanceTraces`, `DispatchRuns`, `DispatchRules`, `DispatchBounds`, `ClockShift`, `Draining`, `MovingClock`, `Dispatcher` | the multi-server dispatcher: timestamp-ordered queues, latency estimates, rebalancing, admission, completion |
| `NinjaLog`, `NinjaBuilds`, `NinjaSweep`, `NinjaReport`, `StableSorting` | the build-time report: reading the log, and the sweep that shares time among running steps |
| `Admission`, `Conversations`, `RecordedTimes`, `Replay`, `RecordedReplays`, `ReplayLimits` | sampling of multi-turn conversations with a limit on active ones |
| `GreedyBatching` | the batching loop of the Hugging Face benchmark |
| `BadWords` | the logits processor that forbids bad words |
| `ScalarTypes`, `FloatLimits`, `ScalarValues` | scalar type descriptions: the packed id, and the greatest and least values |
| `Interpolation`, `RowSelection` | interpolation between measured points; choice of one summary per workload |

**Dispatcher.**  `ServerStat` and `RequestDispatcher` carry the mutable fields; their methods are
proved equal to the transition functions of `DispatchRuns`, and every property of runs is proved
about those.  A coroutine runs without interruption between two awaits and never holds the shared
lock across one, so arrival, admission (with the rebalancing it triggers) and completion are atomic
steps.  The latency model is an arbitrary total function of its features.  A run is any
interleaving of steps with any clock readings; the clock is read once in a call of the rebalancer.
The ordered dictionary of a server is the sequence of its values in key order; storing under a key
that is present overwrites.  That makes request conservation conditional, and the condition is
stated exactly (`RequestConservation`), with an input for which it fails
(`SharedTimestampLosesRequest`).  Rebalancing terminates for every predictor: give each estimate its
rank among all estimates that any distribution of the waiting requests could produce, and add two to
the power of the rank over the servers.  A move replaces two estimates by two that are both below
the old maximum, so this sum falls.  The same measure, with the steps the requests still need, bounds
the length of every schedule after the last arrival in which the clock stands while tokens are in
flight; without tokens in flight the measure does not depend on the clock.

**Build report.**  The reference definition of a step's weighted time is the sum, over the
elementary segments between consecutive event times, of the segment's length divided by the number
of steps running throughout it.  The sweep only keeps one accumulator and its value at each start;
it is proved to compute the same numbers, which add up to the measure of the union of all steps.

**Conversation sampling.**  Random draws are arbitrary functions, non-negative where order is
claimed.  The heap is the sorted sequence of its elements.  Times recorded in the data may be
anything; what they do to the order of turns and to the time limit is stated exactly.

**Bad words.**  A logit is minus infinity or a real number.  For any model with finite logits the
sequences that can be generated under the mask are exactly those without a bad word.

**Scalar types.**  A binary64 value is an integer number of units of 2^-1074 (section 3.4 of IEEE
754-2008), so all statements are about integers.  NaN encodings are those the enumeration describes.
A type that is not restricted to finite values has infinities; the source does not say how they are
encoded outside IEEE types, and the model reads every type's infinities as IEEE does, at the greatest
exponent with mantissa zero.

## Inputs for which the code does not do what one would expect

Each comes with a lemma that shows it and with the exact condition.

- Two requests with one timestamp share a key of the ordered queue, so the second replaces the first,
  whose caller waits for ever (`SharedTimestampLosesRequest`, `RequestConservation`).
- With dispatching mode 3 or more, an advancing clock and a request that never completes, another one
  can be moved between two servers for ever without being admitted (`MovedForEver`); bounded schedules
  are guaranteed if and only if the mode is below 3 (`SchedulesEndExactly`).  In every mode and under
  any clock nothing but such moves can go on: all other steps are bounded (`OnlyMovesGoOn`), and while
  no tokens are in flight, or the clock stands while some are, every schedule ends
  (`EveryScheduleEnds`).
- `_floating_point_max_int` is wrong for an IEEE format with a one-bit exponent, for an IEEE format
  restricted to finite values, for other formats when NaN and infinity leave no mantissa, and it is
  negative for an extended-range format without mantissa (`OneBitExponent`,
  `FiniteAtGreatestExponent`, `InfinityAtGreatestMantissa`, `MaximumIsGreatest`).  What is said of
  other formats with infinities rests on their encoding at mantissa zero, which the code does not state.
- The running minimum of the build report treats a negative start as unset (`NegativeStart`,
  `EarliestIsLeast`, `LengthIsSpan`).
- Recorded times that go back make the final sort swap turns (`RecordedTimesSwapTurns`,
  `RecordedOrderKept`), and the time limit can drop one recorded turn of every conversation
  (`TwoSamplesDropped`, `DroppedExactly`).
- `select_rows` depends on the order of the rows when two different ones of a key tie (`TiedRows`,
  `SelectionIgnoresOrder`); and if the list of preferred policies repeats one, some listed policy no
  longer ranks before the unlisted ones (`PreferredFirst`).

## Model

| member | source | states |
|---|---|---|
| RequestQueues.InsertContents | vllm/benchmarks/dispatcher.py:918 | storing a request changes a queue's contents by exactly that request and the one it overwrites |
| RequestQueues.InsertSorted | vllm/benchmarks/dispatcher.py:726 | a queue stays strictly ordered by timestamp, with no contents but the old ones and the new request |
| RequestQueues.DisplacedExactly | vllm/benchmarks/dispatcher.py:918 | a request is overwritten if and only if one with the same timestamp waits in that queue |
| Servers.ServerLatencyIsMaximum | vllm/benchmarks/dispatcher.py:757-766 | a server's estimate bounds the latency of each waiting request, is attained by one, and is minus infinity exactly for an empty queue |
| DispatchRules.LatencyIsPrediction | vllm/benchmarks/dispatcher.py:742-764 | a waiting request's latency is the prediction from the server's parallelism, tokens, progress and number in flight, the tokens queued before it and its own, plus the time it has waited |
| DispatchRules.ProgressIsMean | vllm/benchmarks/dispatcher.py:733-740 | progress is a mean weighted by prompt length: it lies between the ages of the youngest and the oldest running request |
| DispatchRules.OldestWaitsLongest | vllm/benchmarks/dispatcher.py:757-766 | with constant predictions a server's estimate is that of its oldest waiting request |
| Rebalance.HighAndLow | vllm/benchmarks/dispatcher.py:803-811 | the two servers coincide if and only if all estimates are equal; if they differ the higher one has a request to move |
| Rebalance.MovedLatencies | vllm/benchmarks/dispatcher.py:813-842 | the simulated estimates are those of the real queues after the move; the other servers' estimates do not change |
| Rebalance.MoveLowersPeak | vllm/benchmarks/dispatcher.py:822-829 | a move never raises the greatest estimate |
| Rebalance.MoveImprovesStrictly | vllm/benchmarks/dispatcher.py:822-829 | a move lowers the greatest estimate, or leaves it and lowers the number of servers attaining it |
| Rebalance.MoveContents | vllm/benchmarks/dispatcher.py:826-829 | a move changes the union of all queues by exactly the request it overwrites |
| Rebalance.MoveLosesExactly | vllm/benchmarks/dispatcher.py:826-829 | a move overwrites nothing if and only if the receiving queue does not hold the moved timestamp; distinct timestamps ensure it |
| Rebalance.MoveDescends | vllm/benchmarks/dispatcher.py:802-846 | termination for every predictor: each move lowers (number of waiting requests, weight of the estimates) lexicographically |
| Rebalance.RebalancePreserves | vllm/benchmarks/dispatcher.py:797-846 | a whole call preserves the waiting requests, as a multiset, up to the overwritten ones, and never raises the greatest estimate |
| Rebalance.RebalanceDescends | vllm/benchmarks/dispatcher.py:797-846 | a call that changes any queue loses a request or lowers the measure |
| Rebalance.RebalanceLosesExactly | vllm/benchmarks/dispatcher.py:797-846 | a whole call keeps every queue ordered and loses nothing if and only if no receiving queue held the moved timestamp |
| RebalanceTraces.MoveExactly | vllm/benchmarks/dispatcher.py:803-829 | a pass moves if and only if moving the first request of the first server of greatest estimate to the first of least puts both estimates below the old maximum; that is the only move, and the one made |
| RebalanceTraces.PassIsMove | vllm/benchmarks/dispatcher.py:803-846 | a pass either finds no such move, changes nothing and stops, or makes it and asks for another pass exactly if the receiver's estimate is then below the giver's |
| RebalanceTraces.CallIsTrace | vllm/benchmarks/dispatcher.py:797-846 | a call is a chain of moves: after each but the last the receiver is below the giver; after the last it is not, or no move is left |
| RebalanceTraces.TraceIsCall | vllm/benchmarks/dispatcher.py:797-846 | every such chain ends with the queues the call produces |
| DispatchRuns.CompletedAccounts | vllm/benchmarks/dispatcher.py:901-905 | both remove calls find their value, whichever running request completes, and the record again matches the remaining ones |
| DispatchRuns.RunAccounted | vllm/benchmarks/dispatcher.py:848-919 | after every run: count, both lists (as multisets) and the token sum are those of the running requests, at most 64 run per server, and a server has at most pp + 1 requests or at most its concurrency plus one longest prompt in flight |
| DispatchRules.AdmissionExactly | vllm/benchmarks/dispatcher.py:851-893 | in an accounted state a request of a server can be admitted if and only if one waits, fewer than 64 run, and at most pp run or their prompts sum to at most max_concurrency |
| DispatchRules.EarliestIsAdmitted | vllm/benchmarks/dispatcher.py:861-893 | the admitted request has the least timestamp of those waiting for the server after rebalancing; the others go on waiting and no other server changes |
| DispatchRuns.RunConserves | vllm/benchmarks/dispatcher.py:848-919 | over every run, present plus overwritten requests are the initial plus the arrived ones, with multiplicities |
| DispatchRuns.RequestConservation | vllm/benchmarks/dispatcher.py:848-919 | after a run from the start, waiting, running and resolved requests are exactly the arrived ones if and only if nothing was stored over an equal timestamp |
| DispatchRuns.EachRequestOnce | vllm/benchmarks/dispatcher.py:848-919 | with distinct timestamps each arrived request is in exactly one of the queues, the in-flight sets and the resolved list, exactly once; so no future is resolved twice |
| DispatchRuns.SharedTimestampLosesRequest | vllm/benchmarks/dispatcher.py:913-919 | the failing input as a run: two arrivals with one timestamp, after which the requests present are not those that arrived |
| DispatchBounds.LoadsStayEven | vllm/benchmarks/dispatcher.py:771-893 | in token mode, over runs of arrivals and admissions from the start with distinct timestamps, any two loads differ by at most the longest prompt, and they add up to everything that arrived |
| DispatchRules.ArrivesAtLeast | vllm/benchmarks/dispatcher.py:771-795 | in every mode an arrival is stored at the first server of least load, and no other queue changes |
| DispatchRules.TokenLoad | vllm/benchmarks/dispatcher.py:774-778 | in mode 0 or less the load is the tokens in flight and queued |
| DispatchRules.StagedLoad | vllm/benchmarks/dispatcher.py:785-788 | in mode 1 the load times pp is overhead times (tokens in flight + pp times queued tokens + pp squared times the prompt) |
| DispatchRules.EstimatedLoad | vllm/benchmarks/dispatcher.py:789-790 | in mode 2 or more the load is the latency the request would have behind all that wait, less its own wait |
| DispatchBounds.LoadWithinAverage | vllm/benchmarks/dispatcher.py:771-893 | m times any load is at most the total plus (m - 1) longest prompts |
| DispatchBounds.LeastLoadedIsCompetitive | vllm/benchmarks/dispatcher.py:771-893 | no load exceeds 2 - 1/m times the greatest load of any other assignment of the same requests |
| DispatchBounds.NoDeadlock | vllm/benchmarks/dispatcher.py:852-859 | while a request waits or runs, some handler can act: the gate never shuts out an idle server |
| DispatchBounds.EveryScheduleDrains | vllm/benchmarks/dispatcher.py:848-911 | in modes below 3, with any clock, once arrivals stop every schedule resolves everything, in a number of steps fixed by the state |
| Draining.EveryScheduleEnds | vllm/benchmarks/dispatcher.py:848-911 | in every mode, once arrivals stop, if the clock stands while tokens are in flight: a bound on the length of every schedule, and no handler can act if and only if every request is resolved or was overwritten |
| Draining.OnlyMovesGoOn | vllm/benchmarks/dispatcher.py:848-911 | in every mode and under any clock, once arrivals stop: all steps other than moves made while tokens are in flight are at most as many as a bound fixed by the first state |
| Draining.CompletionIsEnabled | vllm/benchmarks/dispatcher.py:896-911 | whenever tokens are in flight some running request can complete |
| ClockShift.MeasureIgnoresClock | vllm/benchmarks/dispatcher.py:729-766 | with no tokens in flight the clock shifts every estimate alike, so the measure of rebalancing does not depend on it |
| MovingClock.MovedForEver | vllm/benchmarks/dispatcher.py:851-867 | for every mode of 3 or more and every n a run of n admissions, without arrivals and under a clock that reads 0, 1, 2, ..., that only move one request to and fro while the request in flight never completes |
| MovingClock.SchedulesEndExactly | vllm/benchmarks/dispatcher.py:848-911 | schedules after the last arrival are bounded for every latency model, every accounted state and any clock if and only if the mode is below 3 |
| Dispatcher.ServerStat.EstimateMaxLatency | vllm/benchmarks/dispatcher.py:757-766 | the loop computes the maximum described by ServerLatencyIsMaximum |
| Dispatcher.RequestDispatcher.ChooseServer | vllm/benchmarks/dispatcher.py:771-795 | the first server of least load |
| Dispatcher.RequestDispatcher.Enqueue | vllm/benchmarks/dispatcher.py:913-919 | the arrival step |
| Dispatcher.RequestDispatcher.RebalanceOnce | vllm/benchmarks/dispatcher.py:803-846 | one pass in place, as PassIsMove characterises it; neither raise statement is reached |
| Dispatcher.RequestDispatcher.RebalanceQueues | vllm/benchmarks/dispatcher.py:797-846 | the loop terminates, and a chain of moves leads from the old queues to the new |
| Dispatcher.RequestDispatcher.TryAdmit | vllm/benchmarks/dispatcher.py:851-893 | one turn of an idle handler: in an accounted state it admits exactly if a request waits, fewer than 64 run, at most pp run or at most max_concurrency tokens, and rebalancing leaves a request |
| Dispatcher.RequestDispatcher.Complete | vllm/benchmarks/dispatcher.py:896-911 | the completion step |
| NinjaLog.LastBuildIsSuffix | vllm/tools/report_build_time_ninja.py:112-134 | the records kept are a suffix of the log, and the whole log with show_all |
| NinjaLog.LastBuildIsConsistent | vllm/tools/report_build_time_ninja.py:122-141 | in the kept suffix end times never go back and records of one command have equal times |
| NinjaBuilds.LastBuildIsLast | vllm/tools/report_build_time_ninja.py:110-146 | the log is a concatenation of non-empty consistent builds, the first record of each inconsistent with the build before it; the records kept are the last of them |
| NinjaBuilds.CutIsUnique | vllm/tools/report_build_time_ninja.py:110-146 | there is only one way to cut a log like that |
| NinjaBuilds.ConsistentIsOneBuild | vllm/tools/report_build_time_ninja.py:122-141 | nothing of a consistent log is thrown away |
| NinjaBuilds.RecordsOfLines | vllm/tools/report_build_time_ninja.py:112-118 | the records are those of the well-formed lines, in order |
| NinjaLog.ConsistentAppend | vllm/tools/report_build_time_ninja.py:122-141 | the two tests of the loop reset the dictionary if and only if the record is inconsistent with some record kept |
| NinjaLog.ReadTargets | vllm/tools/report_build_time_ninja.py:103-146 | the returned objects are distinct and are the groups of the last build, one per command hash, in order of first appearance |
| NinjaLog.GroupsPartitionRecords | vllm/tools/report_build_time_ninja.py:131-146 | the records of all targets together are, as a multiset, the records kept; each is in the target of its hash |
| NinjaLog.GroupTimes | vllm/tools/report_build_time_ninja.py:122-143 | every record of a target has the target's start and end; end times over the kept suffix never go back |
| NinjaBuilds.FirstIsFirst | vllm/tools/report_build_time_ninja.py:119-143 | a target has the times of the first record of its hash, a thousandth of the logged number in seconds |
| NinjaBuilds.HashesInOrder | vllm/tools/report_build_time_ninja.py:131-146 | an earlier target has a record before all records of a later one |
| NinjaBuilds.MembersInOrder | vllm/tools/report_build_time_ninja.py:145 | a target has the records of its hash in their order |
| NinjaSweep.RunningIsCovering | vllm/tools/report_build_time_ninja.py:228-253 | between two different times the running dictionary holds exactly the steps running throughout |
| NinjaSweep.SweepRefinesDefinition | vllm/tools/report_build_time_ninja.py:227-253 | the sweep's weighted duration is the segment-by-segment sum |
| NinjaSweep.SharesAddUp | vllm/tools/report_build_time_ninja.py:227-253 | the weighted times of all steps sum exactly to the busy time |
| NinjaSweep.BusyWithinSpan | vllm/tools/report_build_time_ninja.py:205-218 | the busy time is at most the time from first to last event, with equality if and only if there is no idle gap |
| NinjaSweep.WeightWithinDuration | vllm/tools/report_build_time_ninja.py:73-88 | a weighted duration lies between zero and the duration, so the assertion holds |
| NinjaReport.LengthIsSpan | vllm/tools/report_build_time_ninja.py:207-218 | the reported length is the time from first to last event if and only if the start and end times allow it; they do if no start is negative |
| NinjaReport.EarliestIsLeast | vllm/tools/report_build_time_ninja.py:207-212 | the running minimum is the least start if and only if no start is negative, or the last one is and none is less |
| NinjaReport.LatestIsGreatest | vllm/tools/report_build_time_ninja.py:208-214 | the running maximum is the greatest end if and only if some end is not negative |
| NinjaReport.NegativeStart | vllm/tools/report_build_time_ninja.py:207-218 | an input with a negative start: the reported length is 1 and the weighted total 2 |
| NinjaReport.TotalWithinLength | vllm/tools/report_build_time_ninja.py:256-260 | the weighted total is at most the length, with equality if and only if there is no idle gap: always if the reported length is right, else exactly if the total is less and there is a gap |
| NinjaReport.Sweep | vllm/tools/report_build_time_ninja.py:227-254 | the loop fails exactly if some step ends before it starts; else it gives every target its weight, returns their sum, and ends with nothing running |
| NinjaReport.ConservedThroughout | vllm/tools/report_build_time_ninja.py:236-253 | at every event the total so far plus what is pending for the running steps is the busy time so far |
| NinjaReport.SummarizeEntries | vllm/tools/report_build_time_ninja.py:196-254 | every target's field is its weighted time by the definition and at most its duration; the total is the busy time |
| NinjaReport.ElapsedIsSum | vllm/tools/report_build_time_ninja.py:215 | the processor time is the sum of the durations |
| StableSorting.FilterSort | vllm/benchmarks/benchmark_dataset.py:499-503 | stability: filtering commutes with sorting |
| Admission.AdmitConversation | vllm/benchmarks/benchmark_dataset.py:391-411 | the two loops compute the start time and the heap of Admit |
| Admission.AdmissionIsExact | vllm/benchmarks/benchmark_dataset.py:386-411 | at the start the heap is exactly the multiset of earlier finish times after it, smaller than the limit, and at every earlier time from the candidate on the limit was reached; failure exactly for a limit that is not positive |
| Conversations.SkipIsSafe | vllm/benchmarks/benchmark_dataset.py:480-484 | advancing by two after a pair misses no turn |
| Conversations.LayTurns | vllm/benchmarks/benchmark_dataset.py:413-487 | the loop appends the samples of Lay, which the following rows determine |
| Conversations.TurnsAreExact | vllm/benchmarks/benchmark_dataset.py:419-487 | the samples are the first user messages followed by another author's, numbered 0, 1, ...; all of them unless a limit was reached |
| Conversations.TimelineIsRight | vllm/benchmarks/benchmark_dataset.py:454-486 | timestamps are the start plus the intervals, and the loop ends with the last of them and the sum of the output lengths; a conversation without recorded times never goes back, announces every timestamp, and only its first can be late |
| RecordedTimes.StampsAreRight | vllm/benchmarks/benchmark_dataset.py:454-478 | for any recorded times: each timestamp is the start plus the scaled recorded time, or the one announced by the sample before, or the start; each announcement is the recorded time of the next message but one, or the timestamp plus the delay drawn for the turn, or 1e9 |
| RecordedTimes.DrawnTimes | vllm/benchmarks/benchmark_dataset.py:468-486 | without recorded times turn k is at the start plus the delays drawn for turns 0 to k - 1 |
| RecordedTimes.SamplesEnd | vllm/benchmarks/benchmark_dataset.py:419-487 | a conversation ends with all its turns, at the request limit, with a start beyond the time limit, or with an announcement beyond it |
| RecordedTimes.PositionsAreAll | vllm/benchmarks/benchmark_dataset.py:428-433 | the turn positions are exactly the user messages followed by one of another author |
| Replay.SampleRequests | vllm/benchmarks/benchmark_dataset.py:359-507 | the whole sampling loop, with its two failures |
| Replay.EveryStartIsEarliest | vllm/benchmarks/benchmark_dataset.py:378-493 | every conversation of a replay starts at the least time, from the start before it plus the drawn gap on, at which fewer than the limit are active |
| Replay.NeverTooManyActive | vllm/benchmarks/benchmark_dataset.py:378-493 | at every time of a replay at most max_active_conversations have started and not finished |
| ReplayLimits.ReplayKeepsLimits | vllm/benchmarks/benchmark_dataset.py:378-384 | at most num_requests samples are made; a conversation is opened exactly as long as fewer have been made, the one before started within the time limit, and one is left |
| ReplayLimits.ReplayFailsExactly | vllm/benchmarks/benchmark_dataset.py:398-400 | the heap runs empty if and only if no conversation may be active and one is to be opened |
| ReplayLimits.ResultIsOrdered | vllm/benchmarks/benchmark_dataset.py:499-503 | the result is ordered by time and holds exactly the samples within the limit |
| Replay.SortedBlock | vllm/benchmarks/benchmark_dataset.py:499-503 | after sort and filter the samples of a conversation without recorded times are its original ones in order, or none if it started too late |
| Replay.AtMostOneDropped | vllm/benchmarks/benchmark_dataset.py:499-506 | without recorded times at most one sample is dropped, and it is turn 0 of the last conversation opened |
| Replay.ReplayIsRight | vllm/benchmarks/benchmark_dataset.py:378-507 | without recorded times every conversation of the result shows its first turns in order, each at the start plus the delays drawn so far, chained in time; its finish time is that of its last request plus its output length over 30 |
| RecordedReplays.OrderKeptExactly | vllm/benchmarks/benchmark_dataset.py:499-503 | for any data, the result shows the kept turns of a conversation in turn order if and only if their timestamps never go back |
| RecordedReplays.RecordedOrderKept | vllm/benchmarks/benchmark_dataset.py:454-503 | with every turn recorded, the sort keeps the turn order if and only if the scaled recorded times of the samples never go back |
| RecordedReplays.DroppedExactly | vllm/benchmarks/benchmark_dataset.py:454-503 | which samples of any conversation the time limit drops |
| RecordedReplays.RecordedTimesSwapTurns | vllm/benchmarks/benchmark_dataset.py:454-500 | an input whose result shows turn 1 before turn 0 |
| RecordedReplays.TwoSamplesDropped | vllm/benchmarks/benchmark_dataset.py:454-503 | an input of which two samples are dropped |
| GreedyBatching.RunBatches | vllm/benchmarks/benchmark_throughput.py:168-206 | the batches concatenate to the requests, meet both limits, could not take their successor, and each asks for its longest output |
| GreedyBatching.StaysAhead | vllm/benchmarks/benchmark_throughput.py:168-206 | a maximal split needs no more batches than any split of a longer list |
| GreedyBatching.GreedyIsOptimal | vllm/benchmarks/benchmark_throughput.py:168-206 | no other way to cut the requests into consecutive batches within the limits makes fewer generator calls |
| GreedyBatching.AdmissibleExactly | vllm/benchmarks/benchmark_throughput.py:178-184 | a batch meets the limits if and only if it is a single request, or has at most max_batch_size and no prompt and output of it exceed 2048 tokens together |
| BadWords.NoBadWordsLogitsProcessor.CheckTokenIdsBounds | vllm/vllm/logits_process.py:107-121 | succeeds if and only if every token is in the vocabulary |
| BadWords.NoBadWordsLogitsProcessor.InitWordBias | vllm/vllm/logits_process.py:90-105 | caches minus infinity for exactly the one-token words |
| BadWords.NoBadWordsLogitsProcessor.LastTokenBias | vllm/vllm/logits_process.py:66-84 | minus infinity for exactly the tokens that complete a longer word; fails exactly if a word is empty |
| BadWords.NoBadWordsLogitsProcessor.Call | vllm/vllm/logits_process.py:58-88 | a logit becomes minus infinity exactly if its token completes a bad word, else it is unchanged; the same with a cached and a fresh bias |
| BadWords.OutcomeExactly | vllm/vllm/logits_process.py:58-121 | which of three outcomes a call has: a token outside the vocabulary, an empty word, or logits |
| BadWords.MaskedExactly | vllm/vllm/logits_process.py:66-88 | a logit becomes minus infinity exactly if some word ends the sequence with its token, and is otherwise unchanged |
| BadWords.GeneratedIsFree | vllm/vllm/logits_process.py:58-88 | for every model with finite logits, the sequences generated under the mask are precisely those with no bad word as a contiguous block |
| BadWords.BadConfigurationBlocks | vllm/vllm/logits_process.py:107-121 | with an empty word or a token outside the vocabulary nothing is generated |
| ScalarTypes.Id | vllm/vllm/scalar_type.py:134-161 | the id is the packing of the six members, and fits in 58 bits |
| ScalarValues.IdValue | vllm/vllm/scalar_type.py:152-157 | the id as a sum: exponent, mantissa, sign, bias, flag and NaN convention from bits 0, 8, 16, 17, 49 and 50 |
| ScalarTypes.FieldOfPacked | vllm/csrc/core/scalar_type.hpp:142-157 | extracting a field gives its member reduced to the width |
| ScalarTypes.SamePacked | vllm/vllm/scalar_type.py:145-157 | packings are equal if and only if all members agree up to their widths |
| ScalarValues.IdsAgree | vllm/vllm/scalar_type.py:134-161 | two types share an id if and only if they agree, exponent and mantissa modulo 256 and bias modulo 2^32 |
| ScalarValues.IdReadsBack | vllm/csrc/core/scalar_type.hpp:124-157 | an id reads back as the type if and only if exponent and mantissa are below 256 and the bias is a signed 32-bit integer |
| FloatLimits.FloatingPointMaxInt | vllm/vllm/scalar_type.py:69-102 | for every type with an exponent: the bits of the maximum, a failed assertion exactly if the format does not fit a double, and a negative number exactly for an extended-range type without mantissa |
| ScalarValues.RefusedExactly | vllm/vllm/scalar_type.py:70-86 | an assertion fails if and only if the mantissa has more than 52 bits or the exponent more than 11, or 11 outside IEEE |
| FloatLimits.MaxFieldsAreGreatest | vllm/vllm/scalar_type.py:74-84 | for a suitable type the chosen fields encode a finite value that no finite value exceeds |
| FloatLimits.OneBitExponent | vllm/vllm/scalar_type.py:78-102 | failing family: IEEE formats with one exponent bit |
| FloatLimits.FiniteAtGreatestExponent | vllm/vllm/scalar_type.py:78-84 | failing family: IEEE formats restricted to finite values, whose greatest exponent holds a finite value |
| FloatLimits.InfinityAtGreatestMantissa | vllm/vllm/scalar_type.py:74-84 | failing family: other formats with infinities whose greatest mantissa is zero |
| FloatLimits.MaximumIsGreatest | vllm/vllm/scalar_type.py:69-106 | read as a double, the result is the greatest finite value of the format if and only if the type is suitable, for every combination of exponent, mantissa, NaN convention and the finite-values-only flag that passes the assertions |
| ScalarValues.KnownMaxima | vllm/vllm/scalar_type.py:69-106 | the maxima of float8_e4m3fn, float8_e5m2, float6_e3m2f and float4_e2m1fn are 448, 57344, 28 and 6 |
| FloatLimits.MinimumIsNegative | vllm/vllm/scalar_type.py:116-124 | the minimum reads as exactly minus the maximum, where there is one |
| FloatLimits.IntegerRange | vllm/vllm/scalar_type.py:108-180 | for an integer type a number is storable if and only if it lies between min and max |
| ScalarValues.IntegerLimits | vllm/vllm/scalar_type.py:108-132 | the limits of an integer type are given if and only if they are 64-bit signed integers |
| Interpolation.AlwaysOnSegment | vllm_cache_bench/plot_throughput.py:18-49 | with two or more ascending points every value lies on the line of its segment |
| Interpolation.ValuesAreProportional | vllm_cache_bench/plot_throughput.py:31-47 | within and beyond a segment ordinates keep the proportion of the abscissas |
| Interpolation.LevelEnds | vllm_cache_bench/plot_throughput.py:28-38 | a single point, or an end whose points share an abscissa, is continued level |
| Interpolation.InterpolationHitsPoints | vllm_cache_bench/plot_throughput.py:28-48 | every given point is reproduced |
| Interpolation.InterpolationIsMonotone | vllm_cache_bench/plot_throughput.py:18-49 | monotone across all segments and both extrapolated ends; no value only for empty or unequal data |
| RowSelection.SelectRows | vllm_cache_bench/summarize_workloads.py:81-95 | the result lists every key once, in order, with the first of its best rows |
| RowSelection.SelectedIsBest | vllm_cache_bench/summarize_workloads.py:90-94 | no row of its key has a better rank than the selected one; at equal rank none has completed more requests; at equal number none has a lesser source |
| RowSelection.FirstOfEqualsIsSelected | vllm_cache_bench/summarize_workloads.py:84-94 | of rows that agree in all three, the first is selected |
| RowSelection.RankIsPosition | vllm_cache_bench/summarize_workloads.py:83-91 | in a list without repetition a policy ranks by its position, an unlisted one last |
| RowSelection.SelectionByKey | vllm_cache_bench/summarize_workloads.py:95 | the result is ordered by model, then workload |
| RowSelection.StringLessExactly | vllm_cache_bench/summarize_workloads.py:92-95 | strings compare by the first difference, a proper beginning first |
| RowSelection.SelectionIgnoresOrder | vllm_cache_bench/summarize_workloads.py:84-95 | the selection is the same for every order of the rows if and only if no two different rows of a key are both best |
| RowSelection.SourcesDecide | vllm_cache_bench/summarize_workloads.py:84-95 | distinct sources within each key make the best rows unique |
| RowSelection.TiedRows | vllm_cache_bench/summarize_workloads.py:84-95 | an input of two tied rows whose selection depends on their order |
| RowSelection.PreferredFirst | vllm_cache_bench/summarize_workloads.py:83-91 | every preferred policy ranks before the unlisted ones if and only if the list has no repetition |

## Supporting members

Steps on the way to the results above, and methods whose contracts equate them with the functions those
results are about.

- `Servers.ArgMax` (vllm/benchmarks/dispatcher.py:807): the first position of the greatest latency.
- `Servers.ArgMin` (vllm/benchmarks/dispatcher.py:808): the first position of the least latency.
- `Rebalance.PassAdvances` (vllm/benchmarks/dispatcher.py:802-846): one pass of the loop leaves the result of the whole call unchanged, keeps the queues ordered, and descends if it is followed by another.
- `DispatchRuns.StepAccounted` (vllm/benchmarks/dispatcher.py:848-919): every step keeps the accounting and the load limits.
- `DispatchRuns.RunLosesExactly` (vllm/benchmarks/dispatcher.py:848-919): a run overwrites nothing if and only if no step stored a request where one with its timestamp waited.
- `DispatchRuns.DistinctRunIsFree` (vllm/benchmarks/dispatcher.py:848-919): with distinct timestamps no step of any run overwrites a request.
- `DispatchBounds.ArriveLoads` (vllm/benchmarks/dispatcher.py:774-782): in token mode an arrival raises the load of a least loaded server by its prompt length and no other.
- `DispatchBounds.RunLoads` (vllm/benchmarks/dispatcher.py:771-893): over runs of arrivals and admissions, loads stay within the longest prompt of each other and add up to everything that arrived.
- `Draining.StepDescends` (vllm/benchmarks/dispatcher.py:851-911): in every mode each admission, rebalancing or completion lowers (steps still needed, measure at a fixed reading) lexicographically; the step must read the same clock only while tokens are in flight.
- `Draining.MeasureIsBounded` (vllm/benchmarks/dispatcher.py:797-846): no state of the servers and no distribution of the requests exceeds a bound that depends only on the requests and the number of servers.
- `MovingClock.StillWaiting` (vllm/benchmarks/dispatcher.py:851-867): the states of that run satisfy the accounting, and the same request waits in them.
- `Dispatcher.ServerStat.EstimateRequestLatency` (vllm/benchmarks/dispatcher.py:729-755): the prediction for the features of the current state.
- `Dispatcher.ServerStat.EstimateLoad` (vllm/benchmarks/dispatcher.py:774-790): the load of a server in each dispatching mode.
- `Dispatcher.ServerStat.Dispatch` (vllm/benchmarks/dispatcher.py:886-890): the record after a dispatch.
- `Dispatcher.ServerStat.Finish` (vllm/benchmarks/dispatcher.py:901-905): the record after a completion; each remove drops the first equal value.
- `Dispatcher.RequestDispatcher.Simulate` (vllm/benchmarks/dispatcher.py:803-823): the two extreme servers and whether the move between them helps.
- `Dispatcher.RequestDispatcher.TakeFirst` (vllm/benchmarks/dispatcher.py:869-893): the first request leaves the queue, runs, and is accounted for.
- `NinjaLog.NamesOfMembers` (vllm/tools/report_build_time_ninja.py:145): a target's names are those of its records, in order.
- `NinjaSweep.ChargeIsGain` (vllm/tools/report_build_time_ninja.py:239-249): a segment charges a step exactly what the accumulator gains while the step is held.
- `NinjaSweep.PlanOfIsValid` (vllm/tools/report_build_time_ninja.py:221-225): in the sorted list every step has one start and one stop, the start first exactly if the step does not end before it starts.
- `StableSorting.SortSorted` (vllm/tools/report_build_time_ninja.py:221-222): the result is ordered by key.
- `StableSorting.SortPermutes` (vllm/tools/report_build_time_ninja.py:221-222): the result is a permutation.
- `Admission.WaitIsEarliest` (vllm/benchmarks/benchmark_dataset.py:397-406): waiting ends below the limit, never skips a possible start, and keeps the conversations still active.
- `Admission.PushAgrees` (vllm/benchmarks/benchmark_dataset.py:489-491): recording a finish time keeps the heap in step with the history.
- `Conversations.TakeTurn` (vllm/benchmarks/benchmark_dataset.py:434-478): the emitted request and the time of the next one.
- `RecordedTimes.RecordedOrder` (vllm/benchmarks/benchmark_dataset.py:454-478): with every turn recorded, timestamps never go back if and only if the scaled recorded times do not.
- `RecordedTimes.LateSamples` (vllm/benchmarks/benchmark_dataset.py:454-486): a sample is beyond the limit exactly if its recorded time is, or it is an unrecorded first turn of a late start; only a first turn or a recorded one after a gap can be.
- `Replay.RunScheduled` (vllm/benchmarks/benchmark_dataset.py:378-493): the heap agrees with the history after every conversation.
- `GreedyBatching.CanAddNext` (vllm/benchmarks/benchmark_throughput.py:178-184): the test decides whether the batch with the next request meets both limits.
- `GreedyBatching.PartIsAdmissible` (vllm/benchmarks/benchmark_throughput.py:178-184): the limits are inherited by every consecutive part of a batch.
- `BadWords.MatchIsEndsWith` (vllm/vllm/logits_process.py:72-84): the prefix comparison decides whether the word is a suffix of the extended sequence.
- `BadWords.MaskIsSum` (vllm/vllm/logits_process.py:86): the two biases together mark exactly the completing tokens.
- `ScalarTypes.OrOfDisjoint` (vllm/vllm/scalar_type.py:149): joining bits above the packed ones adds them.
- `ScalarTypes.OrAndAdvance` (vllm/vllm/scalar_type.py:145-150): one more member is packed above the earlier ones.
- `ScalarTypes.PackedFits` (vllm/vllm/scalar_type.py:145-150): packed members are below two to the sum of their widths.
- `FloatLimits.Compose` (vllm/vllm/scalar_type.py:100-102): the two shifted fields do not overlap.
- `FloatLimits.MagnitudeMonotone` (vllm/vllm/scalar_type.py:69-102): finite values grow with the exponent field and then the mantissa field, across the subnormal border.
- `ScalarTypes.SameId` (vllm/vllm/scalar_type.py:134-161): two types share an id if and only if they agree up to the widths of their fields.
- `ScalarTypes.FromIdOfId` (vllm/csrc/core/scalar_type.hpp:124-157): an id reads back as the type if and only if its members fit their fields.
- `Dispatcher.RequestDispatcher.RunPasses` (vllm/benchmarks/dispatcher.py:802-846): passes follow one another until one asks for no other.

## Left out

- Floating-point rounding: times, latencies, logits and weights are exact reals; NaN and plus infinity do not occur.
- Rebalance.MoveDescends: one call of the rebalancer reads the clock once; readings that differ within a call are not modelled.
- DispatchBounds.EveryScheduleDrains: for dispatching modes below 3, in which every schedule drains under any clock; the other modes are the subject of Draining and MovingClock.
- DispatchBounds.LeastLoadedIsCompetitive: for mode 0 or less and runs without completions; the other modes weigh loads by predictions.
- A missing latency model (a ValueError) is not modelled: the predictor is total.
- The per-request statistics, the log file, ttft, predicted_latency and the history lists (prompt_lens, accumulated_lens, queue_latencys) are not part of the model; no decision reads them.
- HTTP calls, event loop and futures: a completion is the step in which the result of a running request arrives; starvation of a handler by the event loop is not modelled.
- Conversations.TimelineIsRight: its order and chaining are for conversations without recorded times; RecordedTimes and RecordedReplays say what holds otherwise.
- Replay.EveryStartIsEarliest: for non-negative gaps; the exponential distribution of the draws is not modelled.
- Tokenizer and LoRA choice: a message carries its number of tokens.
- Python's heapq, list.sort and SortedDict are represented by what they promise, as ordered sequences; their own algorithms are not modelled.
- Parsing of a log line into five fields and of the times into integers; the header check; GetExtension and the summaries by extension.
- The docstring of ReadTargets says the result is sorted by duration; the code keeps the order of first appearance, and so does the model.
- run_hf unpacks a request as a triple; the model's request is that triple, and tokenization and generation are only recorded as calls.
- BadWords.NoBadWordsLogitsProcessor.Call: an instance whose bias was cached is called with the same vocabulary size, since adding tensors of different sizes is an error.
- FloatLimits.MaximumIsGreatest: speaks of the value before the bias of the type is subtracted, with the standard exponent bias that the source assumes; the assertion that a type with a minimum is signed is not modelled.
- has_nans, is_ieee_754 and the name of a scalar type compare an enumeration member with an integer and do not do what their documentation says.
- Statistics, percentiles and the inference of names in the workload summary; plotting.
- The cache evictor and policy scheduler of the readme are not part of this model.
