# Remote storage and fan-in: a verified model

This project models, in Dafny, the parts of the repository that move samples to remote storage
and that combine local and remote series for a query, and proves what they promise.

* **The write queue** (`storage/remote/queue_manager.go`). `QueueProtocol` is a state machine
  whose actions are the single steps of its goroutines: an append, one receive or one answer of
  the remote end in a shard, closing one channel, starting one shard, a tick, Stop, and so on.
  A run is any sequence of enabled actions, so a statement about all runs is a statement about
  all interleavings. A panic (send on a closed channel, double close, division by zero shards,
  negative channel count) sets `crashed` and ends the run. `ShardMachine` is the goroutine of one
  shard, `ShardRuns` its runs among appends and the closing of its channel, and `ShardWorker` its
  code with its loops, proved to be such a run.
* **The controller** (`ReshardDecision`, `Ewma`, `Controller`, `Downscaling`): rates, desired number
  of shards and the decision, over reals. The state machine carries the controller's counters and
  integral, so a count is only ever handed over when the run so far makes the code compute it.
* **The writer** (`WriterProtocol`, `WriterRuns`, `WriterAppends`, `Writer`): reconfiguration around the queues
  and the appends that share its lock. Every queue that
  ever existed stays in the state and may move whenever one of its goroutines can.
* **Fan-in** (`SampleStream`, `MergeSamples`, `MergeIterator`, `ReadPaths`, `FaninQuery`,
  `ScheduleIndependence`): binary search iterators, the sorted merge, the two read paths, the grouping
  of concurrent remotes, and when the order in which they finish can be seen.
* **Write and read** (`ExternalLabels`, `WriteReadRoundTrip`): the external labels on both sides, and
  what a sample sent by the queue is when it is read back.
* **Smaller algorithms**: `SharedMatchers` (the append of matchers when remotes run concurrently),
  `LabelMatching`, `RemoveDuplicate`.

Relabelling, fingerprints, regular expressions and the remote end's answers are arbitrary
functions, so every result holds for all of them.

## How the actions follow the code

| action | code |
|---|---|
| Append | storage/remote/queue_manager.go:220-251, 426-438 |
| CallStart, Launch, LaunchDone | storage/remote/queue_manager.go:262-270, 413-417 |
| Tick, TickOut, TickDuration, Propose, RecordCount | storage/remote/queue_manager.go:285-356 |
| Swap, CloseOld, OldDrained | storage/remote/queue_manager.go:371-386, 419-424 |
| OldShard, LiveShard | storage/remote/queue_manager.go:440-512 |
| CallStop, UpdateLoopExits, ReshardLoopExits, LockForStop, CloseLive, StopReturns | storage/remote/queue_manager.go:274-297, 358-369, 419-424 |

## Results that differ from what one might expect

* The shard count is clamped from above only. A count below one is handed over exactly when
  samples have gone out and either no time was spent on them or twice the incoming rate with the
  integral is no more than the outgoing rate (`HandsOverBelowOneIff`). A negative count then waits
  for a swap that panics, whatever else happens (`NegativeCountRuns`). A zero leaves a queue without
  shards (`BelowOneHandedOver`), which panics at the next sample that survives relabelling and stays
  without shards until another count is handed over (`WithoutShardsRuns`). If that happens before a
  sample comes, the queue recovers exactly under positive demand (`WithoutShardsHandsOver`).
* In any configuration a single sample gets there: if at least five passes fall into its send
  (`DrainedQueuePanics`), or if a pass falls between counting the sample and counting the time, after
  which either the next sample panics or the next pass asks for a shard again
  (`PassBetweenCounters`). A queue that is stopped once, is not used after that and hands over no
  count below one never panics (`PoliteRunsAreSafe`, `NoQueuePanics`).
* `Writer.Stop` (storage/remote/write.go:67-71) takes no lock and leaves its queues linked; an
  append or another stop after it panics (`UseAfterStopPanics`). Reconfiguration through
  `ApplyConfig` keeps its order in every run, whatever panics (`ReconfigurationKeepsOrder`), and no
  Append takes place during it (`ReconfigurationTrace`).
* Once called, Stop can return exactly if no negative count waits for the swap, also on a queue without shards
  (`StopReturnsIff`).
* The two read paths of a merged series agree exactly when samples at the very first and very
  last representable time do no harm (`ReadPathsAgreeIff`, `EndsDoMatter`).
* Different schedules of the remotes' goroutines can give different answers (`DisagreementShows`).
  They cannot exactly if all remotes with a sample have the same one at every time without a local
  sample (`RangesIgnoreScheduleIff`), or, for single values, at every time at which the remotes are
  asked (`ValuesIgnoreScheduleIff`).
* The doc comment of `mergeIterator` (storage/fanin/fanin.go:162-166) says remote samples count only
  before the first local sample of the series. The code cuts at the first local sample of the
  queried interval: with local samples at 10 and 30, the query from 15 to 40 has the remote sample
  at 20 (`LaterQueriesNeedNot`). The comment holds for a query exactly if no remote has a sample in a
  certain part of the interval (`RemotesOnlyBeforeIff`), and for all queries that start early enough
  (`EarlyQueriesCutThere`).
* A range query with its end before its start panics for some series (`BackwardsIntervalPanics`), and
  `RangeValues` says for which.
* The first sleep after an error is MinBackoff even if that exceeds MaxBackoff, so the total is within
  MaxBackoff per error exactly if it does not (`TotalSleep`).
* The remotes of one query are handed the same matcher slice and each appends its external labels to
  it. If the slice has spare capacity and the remotes' maps yield the labels in different orders, some
  schedule has a remote ask without one of its labels (`EachKeepsItsOwnIff`, `TwoLabelsCanLose`).
* An empty external label value merges series on the read path (`EmptyValueMerges`).

## Model

| member | source | states |
|---|---|---|
| QueueTheorems.OrderAcrossResharding | storage/remote/queue_manager.go:371-386 | In every reachable state and for every series, finished samples, then what the retiring shards hold, then what the live shards hold, is the series as accepted, wherever the hash put it |
| QueueTheorems.SentIsPrefix | storage/remote/queue_manager.go:382-385 | Samples are delivered in order: the finished part of a series is always a prefix of its accepted samples |
| QueueTheorems.OrderOfMetric | storage/remote/queue_manager.go:426-438 | The same order for the samples of any one metric, without mention of fingerprints: finished, retiring, live is as accepted, through any number of reshards |
| QueueTheorems.SentOfMetricIsPrefix | storage/remote/queue_manager.go:382-385 | In every reachable state the finished samples of a metric are a prefix of its accepted ones |
| QueueTheorems.Conservation | storage/remote/queue_manager.go:220-251 | Every sample that survives relabelling is exactly once among dropped-as-full, succeeded, failed, pending and queued |
| QueueTheorems.CountersAgree | storage/remote/queue_manager.go:426-427 | Whatever ticks fell in between, all in and out events ever counted equal accepted plus dropped-as-full and succeeded plus failed, so never more goes out than came in; the rest of the appended samples was dropped by relabelling |
| QueueTheorems.NothingElseWaits | storage/remote/queue_manager.go:220-297 | What may happen in every reachable state: an append waits for nothing but a Stop with the lock, a tick for nothing but the pass before it, Stop for nothing; a count is handed over only to a loop that waits for it; after Stop each loop may leave whenever it rests; a live shard takes what is queued, meets its deadline and gets any answer |
| Model.RelabelledMeans | storage/remote/queue_manager.go:221-236 | What reaches the shards is the relabelling of the metric with each external label it does not have, with the time and the value of the sample |
| QueueTheorems.StopDrains | storage/remote/queue_manager.go:272-283 | When Stop has returned nothing is queued or pending and each series, and each metric, was finished completely and in order |
| QueueTheorems.PanicExactlyWhenFatal | storage/remote/queue_manager.go:371-438 | The exact actions that panic in a reachable state: using a stopped queue, appending to zero shards, swapping to a negative count; in particular no channel is closed twice and none is sent on while it is closed by a reshard |
| QueueTheorems.PoliteRunsAreSafe | storage/remote/queue_manager.go:299-386 | In a run that hands counts over only under positive demand, with one Stop and no append after it, nothing panics and there are always between 1 and MaxShards shards |
| QueueTheorems.RecordedCountIsLive | storage/remote/queue_manager.go:348-351 | In every reachable state with no reshard on its way the recorded count is the number of live shards, and a count just handed over becomes it |
| QueueTheorems.UseAfterStopPanics | storage/remote/write.go:66-71 | In any configuration a stopped queue is reachable on which both an append and another stop panic |
| Downscaling.HandsOverBelowOneIff | storage/remote/queue_manager.go:315-349 | In every reachable state at the end of a pass: a count below one can be handed over exactly if samples went out and no time was spent on them or twice the incoming rate plus the integral is at most the outgoing rate (and, with no shard left, the count is negative) |
| Downscaling.BelowOneHandedOver | storage/remote/queue_manager.go:348-375 | Handing over a count below one leads in that very run to a negative count waiting for the swap, or after the swap to a queue without shards |
| Downscaling.NegativeCountRuns | storage/remote/queue_manager.go:371-403 | From any state of the invariant in which a negative count waits: every run has it waiting still or has panicked, and has panicked once the swap was made |
| Downscaling.WithoutShardsRuns | storage/remote/queue_manager.go:426-438 | From any state of the invariant without shards: in every run that hands over no count the queue stays without them, a sample that survives relabelling panics, and nothing else does but a second Stop |
| Downscaling.WithoutShardsHandsOver | storage/remote/queue_manager.go:339-349 | A reachable queue without shards that hands over a count has shards again after the swap under positive demand, and else has handed over a negative count |
| Downscaling.DrainedQueueProposesBelowOne | storage/remote/queue_manager.go:299-349 | In any configuration, for any k >= 5: one sample whose send k passes fell into, as the history of the counters shows, makes the next pass ask for a count below one |
| Downscaling.DrainedQueuePanics | storage/remote/queue_manager.go:371-438 | With passes ten seconds apart and a send that takes as long, that run goes on to a panic: at the next sample for up to ten passes, at the swap from twelve on |
| Downscaling.PassBetweenCounters | storage/remote/queue_manager.go:481-484 | In any configuration a pass that falls between the two counters of one send asks for no shard; in the run that goes on from there the next sample panics, or a further pass asks for a shard again |
| QueueInvariant.StepKeepsInv | storage/remote/queue_manager.go:371-475 | The inductive invariant (phases of both generations, routing, per-series order, ledger) is kept by every action |
| QueueInvariant.LiveRunsAlone | storage/remote/queue_manager.go:380-385 | A shard of the live generation can only run when no retiring generation is left |
| QueueTermination.OwnStepsAreBounded | storage/remote/queue_manager.go:358-475 | No schedule of the queue's own steps is longer than its measure, also none that ends in a panic |
| QueueTermination.StuckMeansDelivered | storage/remote/queue_manager.go:440-475 | A running queue that can do nothing more by itself has nothing queued or pending and has finished each series, and each metric, completely and in order |
| QueueTermination.StopTerminates | storage/remote/queue_manager.go:274-283 | Once Stop is called, a run that cannot go on by the queue's own steps has Stop returned or has panicked, also when Stop arrives during a reshard |
| QueueTermination.StopReturnsIff | storage/remote/queue_manager.go:274-283 | After Stop was called the queue's own steps can lead to Stop returned exactly if no negative count waits for the swap, also with no shard left |
| QueueTermination.StopEndsUnderAppends | storage/remote/queue_manager.go:274-283 | However many samples keep arriving, only boundedly many of the steps Stop waits for happen before the clock starts a new pass, and one of them is possible until Stop has returned |
| QueueTermination.StopStepsCount | storage/remote/queue_manager.go:274-283 | The steps counted there are the own steps of the queue, those of live shards only once Stop has the lock |
| QueueTermination.InternalLowersMeasure | storage/remote/queue_manager.go:358-475 | Every step the queue takes by itself lowers one measure of samples, retries, channels and loop positions |
| QueueTermination.ReshardEnds | storage/remote/queue_manager.go:371-386 | However many samples keep arriving, a reshard takes boundedly many steps and one of them is possible until it is over |
| QueueTermination.ReshardStepsCount | storage/remote/queue_manager.go:371-386 | The steps counted there are closing, draining, unlinking and launching |
| ShardMachine.StepKeepsOrder | storage/remote/queue_manager.go:447-474 | One step of a shard: what it sends followed by what it still holds is what it held |
| ShardMachine.StepLowersPotential | storage/remote/queue_manager.go:440-512 | Every step of a shard lowers a bound on its remaining steps, counting retries left |
| ShardMachine.SendBegins | storage/remote/queue_manager.go:464-495 | A send has all that is pending, between 1 and MaxSamplesPerSend samples, and MaxRetries calls to make, of which each recoverable answer uses up one |
| ShardMachine.SendOutcome | storage/remote/queue_manager.go:488-512 | A send ends with its whole batch succeeded after an ok answer, and failed after a fatal one or without retries; after a recoverable error it has not ended |
| ShardWorker.StorageClient.Store | storage/remote/client.go:76-140 | One call is recorded; it is a success exactly for a 2xx status, recoverable exactly without response or for a 5xx status, and fatal otherwise |
| ShardWorker.Worker.SendSamplesWithBackoff | storage/remote/queue_manager.go:488-512 | At most MaxRetries calls, all but the last answered by a recoverable error, ending on success, on a fatal error or when retries run out; exactly one counter grows, by the batch; the sleeps are the capped doubling backoffs |
| ShardWorker.Worker.SendSamples | storage/remote/queue_manager.go:477-485 | The out counter grows by the batch and the duration counter by its time whatever the outcome, and the batch is finished with that outcome |
| ShardWorker.Worker.RunShard | storage/remote/queue_manager.go:440-475 | The goroutine's loops cut exactly the batches of the specification, every sample is counted once, the remote end sees the batches in order, and the steps are a run of the shard machine, from an empty open channel and within its capacity, that ends empty |
| ShardRuns.SendTraceRuns | storage/remote/queue_manager.go:488-512 | The calls made for a batch and the counting after them are steps of the shard machine that finish it as succeeded exactly if the last answer was ok |
| ShardRuns.EveryRunCutsChunks | storage/remote/queue_manager.go:440-475 | However appends, the closing of the channel and the goroutine's steps interleave, a shard that runs until it exits cuts what its select saw into exactly the specified batches |
| ShardRuns.ChannelNeverWaits | storage/remote/queue_manager.go:426-460 | In those runs a sample arrives whenever the channel has room or the goroutine waits at its select, the channel closes at any time, and the goroutine moves whenever it can |
| ShardWorker.BackoffDoubles | storage/remote/queue_manager.go:504-508 | Doubling and capping step by step gives min(MinBackoff * 2^k, MaxBackoff) |
| ShardWorker.TotalSleep | storage/remote/queue_manager.go:489-509 | Each sleep is the capped power, and the total is at most MaxBackoff per error, exactly if there was no error or MinBackoff is at most MaxBackoff |
| Batching.ChunksKeepEverything | storage/remote/queue_manager.go:447-474 | The batches joined together are the samples received |
| Batching.ChunkSizes | storage/remote/queue_manager.go:444-446 | Every batch has between 1 and MaxSamplesPerSend samples |
| Batching.ChunksFull | storage/remote/queue_manager.go:464-467 | Without deadlines every batch but the last is full |
| Batching.DeadlineCuts | storage/remote/queue_manager.go:468-472 | A deadline ends the current batch: what follows is cut as if the stream started there |
| ReshardDecision.CountPositiveIff | storage/remote/queue_manager.go:339-342 | The capped count is at least one exactly if the desired number is positive and never exceeds MaxShards |
| ReshardDecision.CappedMeans | storage/remote/queue_manager.go:339-342 | The count is the one that is not more than MaxShards and is less than one above the desired number, and at least that number unless it is MaxShards |
| ReshardDecision.DecideMeans | storage/remote/queue_manager.go:323-345 | A count is asked for exactly if the desired number is not between 0.7 and 1.3 times the present one, and the rounded and capped number is another |
| ReshardDecision.ProposalMeans | storage/remote/queue_manager.go:299-356 | The whole pass from the measured rates: the desired number is given by its equation, the count by its bounds |
| ReshardDecision.DecisionDirection | storage/remote/queue_manager.go:329-345 | A change up is asked for exactly above the tolerance band and a change down exactly below it |
| ReshardDecision.DecisionSettles | storage/remote/queue_manager.go:334-345 | The same desired number never reshards twice in a row |
| Controller.ShardController.CalculateDesiredShards | storage/remote/queue_manager.go:299-356 | Each event counted before its counter's own tick, also between the ticks, enters the rates once and later ones stay counted; a count is sent only to a waiting loop and after samples went out, it is the decided one, and only then the recorded count changes |
| ReshardDecision.DesiredPositiveIff | storage/remote/queue_manager.go:322-325 | For every duration, the desired number is positive exactly if time was spent sending and twice the incoming rate plus the integral exceeds the outgoing rate (or both signs are reversed) |
| ReshardDecision.BelowOneIff | storage/remote/queue_manager.go:318-349 | For all rates and counts, exactly when the count a pass offers is below one |
| Controller.DrainAsksForNoShards | storage/remote/queue_manager.go:299-345 | The code run on samples that go out a minute after they came in sends the count 0 |
| Controller.PassBetweenCountersAsksForNoShards | storage/remote/queue_manager.go:299-345 | The code run on a send that ends during the first tick and whose time is counted after the last one sends the count 0 |
| Ewma.NoEventLostOrRepeated | storage/remote/ewma.go:49-51 | Whatever increments fall between load and subtraction, every event is in the counter or in exactly one tick |
| Ewma.IncrementBetween | storage/remote/ewma.go:49-51 | An increment can fall between the load and the subtraction and stays counted for the next tick |
| Ewma.EwmaRate.Tick | storage/remote/ewma.go:48-63 | The events counted before the load become one instant rate, later ones stay counted, and the rate is the average of all instant rates |
| Ewma.RateSnoc | storage/remote/ewma.go:48-63 | The first tick sets the rate to the events per second, each later one moves it toward that by the weight |
| Ewma.AverageClosedForm | storage/remote/ewma.go:57-62 | The average is the sum of the instant rates with geometrically decreasing weights |
| Ewma.AverageStaysInRange | storage/remote/ewma.go:57-62 | For a weight between 0 and 1 the average stays between the smallest and largest instant rate |
| WriterProtocol.ReconfigurationKeepsOrder | storage/remote/write.go:30-64 | Over every run of reconfigurations and appends, sends end configuration by configuration, and every send of every queue is on the wire in its order |
| WriterProtocol.ReplacedQueuesAreDone | storage/remote/write.go:55-62 | In every run, every sample a replaced queue accepted has finished, each metric in order, and none of its goroutines can move any more |
| WriterProtocol.ApplyConfigMakesProgressIff | storage/remote/write.go:55-57 | While ApplyConfig waits for a queue that has not panicked, the queue's own steps can lead to the end of its Stop exactly if no negative count waits for the swap |
| WriterRuns.NoQueuePanics | storage/remote/write.go:30-82 | If counts are handed over only under positive demand, no queue ever panics and each has a shard |
| WriterProtocol.ReconfigurationTrace | storage/remote/write.go:30-64 | In every run, from the moment its clients are built until it returns, ApplyConfig stops each old queue, replaces them and starts each new one in this order, with queue moves but no Append in between |
| WriterRuns.NewQueuesHaveTheirConfigs | storage/remote/write.go:35-61 | In every run that goes on after ApplyConfig, queue k of the new pool has configuration k |
| WriterRuns.LockSharing | storage/remote/write.go:30-82 | Appends share the lock, a reconfiguration waits for all of them, a failing one changes nothing, and queues of any age move by themselves whatever the lock |
| WriterRuns.AppendsGoOn | storage/remote/write.go:74-82 | In every run an append under way can take its next queue, unless that has panicked, or can end |
| WriterRuns.ReconfigurationGoesOn | storage/remote/write.go:30-64 | In every run a reconfiguration under way, none of whose queues has panicked, can go on by its own action or a step its queue takes by itself |
| WriterRuns.FirstRun | storage/remote/write.go:30-82 | In any configuration a first ApplyConfig and a first append run to their end, with the sample handed to the new queue and on its channel if it survives relabelling and there is room |
| WriterAppends.EverySampleReachesEveryQueue | storage/remote/write.go:74-82 | In every run each queue has been handed every sample appended to the writer while it was in use exactly once, but for appends that have not come to it yet; a replaced queue has had them all |
| Writer.Writer.ApplyConfig | storage/remote/write.go:30-64 | If a client cannot be built nothing changes; otherwise all old queues are stopped, in order, before the new ones are started, in order; its actions are the trace of the protocol |
| Writer.Writer.BuildQueues | storage/remote/write.go:35-53 | One new queue for each configuration, or none at all if one fails |
| Writer.QueueManager.Append | storage/remote/queue_manager.go:217-251 | The code of Append is the Append step of the protocol; a sample that survives relabelling goes to the channel that the fingerprint of its metric picks and no other changes, panics exactly without shards or on a closed channel, and else is dropped only if its channel has no room and no goroutine waits at it |
| Writer.QueueManager.WithExternalLabels | storage/remote/queue_manager.go:221-229 | The loop adds each external label the metric does not have and overrides none |
| SampleStream.Search | storage/remote/iterator.go:39-41 | Binary search: the predicate is false just before the result and true at it |
| SampleStream.ValueAtOrBeforeTime | storage/remote/iterator.go:33-46 | The newest sample not after the time, or the sentinel: one of the samples up to the time, and none of those is newer |
| SampleStream.RangeValues | storage/remote/iterator.go:48-62 | Exactly the samples of the interval, and exactly when the slice bounds cross |
| SampleStream.SlicePanicsIff | storage/remote/iterator.go:48-62 | The condition for the panic is that the first search stops inside the series and behind the second |
| SampleStream.BackwardsIntervalPanics | storage/remote/iterator.go:48-62 | A series and an interval turned around for which the slice bounds do cross |
| MergeSamples.MergeLists | storage/fanin/fanin.go:246-267 | The two-index loop computes the merge of any two lists |
| MergeSamples.MergeAt | storage/fanin/fanin.go:246-267 | As a map from time to sample, the merge is the union with the left value on a tie |
| MergeSamples.MergeSorted | storage/fanin/fanin.go:246-267 | Merging sorted lists gives a sorted list without duplicate times |
| MergeSamples.MergeAssociative | storage/fanin/fanin.go:205-211 | Merging does not depend on grouping |
| MergeSamples.MergeIdempotent | storage/fanin/fanin.go:246-267 | Merging a list with itself or with an empty list gives the list |
| MergeSamples.MergeCommutesIff | storage/fanin/fanin.go:251-263 | The order of two lists matters exactly where they disagree |
| MergeIterator.RangeValues | storage/fanin/fanin.go:195-213 | Panics exactly if one of the iterators does; otherwise merges the remotes cut before the first local sample of the interval |
| MergeIterator.AnswerMap | storage/fanin/fanin.go:195-213 | The answer is sorted; at each time of the interval it has the local sample, else, before the first local one, the sample of the first remote that has one |
| MergeIterator.AnswerAt | storage/fanin/fanin.go:195-213 | The whole answer, read off the iterators: at a time of the interval the local sample, else that of the first remote that has one if the time is before the latest and before every local sample of the interval, else nothing |
| MergeIterator.AtRemotesLowestIndex | storage/fanin/fanin.go:205-211 | Among remotes the one with the lowest index wins a tie |
| MergeIterator.LocalIsSuffix | storage/fanin/fanin.go:196-211 | The local samples of the interval are exactly the end of the answer |
| MergeIterator.RemotesOnlyBeforeIff | storage/fanin/fanin.go:162-202 | A query follows the doc comment exactly if no remote has a sample after the first local one, at a time without a local sample, in the part of the interval where remotes count |
| MergeIterator.EarlyQueriesCutThere | storage/fanin/fanin.go:162-202 | A query that starts no later than the first local sample always follows it |
| MergeIterator.LaterQueriesNeedNot | storage/fanin/fanin.go:195-213 | A query that starts later and does not |
| ReadPaths.ValueAtOrBeforeTime | storage/fanin/fanin.go:172-193 | The local newest sample, or else the newest remote one with the lowest index on a tie |
| ReadPaths.ValueAtMeans | storage/fanin/fanin.go:172-193 | The newest local sample unless it is the sentinel; else the newest remote sample after the earliest time, from the first remote with one at its time, or the sentinel where there is none |
| ReadPaths.ReadPathsAgreeIff | storage/fanin/fanin.go:172-213 | Reading a value gives the last sample of the range up to that time, or the sentinel, exactly under a condition on samples at the ends of the time range |
| ReadPaths.ReadPathsAgree | storage/fanin/fanin.go:172-213 | With all samples strictly inside the time range both paths always agree |
| ReadPaths.EndsDoMatter | storage/fanin/fanin.go:172-200 | A remote sample at the latest and one at the earliest time each break the agreement condition |
| FaninQuery.Querier.Query | storage/fanin/fanin.go:82-133 | Local errors fail, remote errors are ignored, local-only queries pass through, and otherwise the groups are those of the schedule |
| FaninQuery.AllItsMeans | storage/fanin/fanin.go:103-114 | A remote that answers contributes its iterators, in their order, and one that fails contributes nothing |
| FaninQuery.QueryEntries | storage/fanin/fanin.go:92-132 | In terms of the replies: which fingerprints the answer has, that an entry has the last local series of its fingerprint if there is one, and that its remotes are exactly the iterators of that fingerprint some remote answered |
| FaninQuery.Querier.MergeIterators | storage/fanin/fanin.go:234-244 | The loop groups each iterator under its fingerprint |
| FaninQuery.DeliverAll | storage/fanin/fanin.go:101-116 | Every schedule of the remotes' goroutines delivers every iterator exactly once |
| FaninQuery.GroupsComplete | storage/fanin/fanin.go:92-132 | For every schedule the keys are the fingerprints of all series, each entry has a local or at least one remote iterator, and its remotes are a permutation of all that match |
| FaninQuery.GroupEntry | storage/fanin/fanin.go:94-97 | An entry has the last local series with its fingerprint, in every schedule, and its remotes in the order of delivery |
| FaninQuery.MetricIsSafe | storage/fanin/fanin.go:215-223 | An entry's metric can always be read, is that of the local iterator or else of the first remote one, and has the fingerprint it is filed under |
| ScheduleIndependence.RangesIgnoreScheduleIff | storage/fanin/fanin.go:82-133 | All schedules give the same ranges of a series exactly if, at every time before the latest without a local sample, all remotes that have a sample have the same one |
| ScheduleIndependence.ValuesIgnoreScheduleIff | storage/fanin/fanin.go:82-193 | All schedules give the same values of a series exactly if, at every time after the earliest at which the remotes are asked, all remotes that have a sample have the same one |
| ScheduleIndependence.AgreementIsEnough | storage/fanin/fanin.go:82-133 | Remotes that agree wherever their times coincide meet both conditions |
| ScheduleIndependence.DisagreementShows | storage/fanin/fanin.go:101-116 | Two remotes that disagree at one time give different answers under different schedules |
| ExternalLabels.AddExternalLabels | storage/remote/read.go:103-129 | The external labels the query does not name are added as equality matchers behind the user's, and a metric matches exactly if it matches the user's and carries those labels |
| ExternalLabels.UnnamedMeans | storage/remote/read.go:103-118 | A label is added, with its value, exactly if it is external and no matcher of the user names it |
| ExternalLabels.RemoveLabels | storage/remote/read.go:131-137 | Each series of the result loses exactly the added labels, in place, also if it occurs twice |
| ExternalLabels.ReadAfterWrite | storage/remote/read.go:91-137 | For any metric and query, exactly when a stored metric carries the added labels and exactly when stripping gives the original back |
| ExternalLabels.ReadUndoesWrite | storage/remote/read.go:91-137 | Where neither mentions an external label, a stored metric matches exactly if the original does and comes back unchanged |
| ExternalLabels.NamedLabelsStay | storage/remote/read.go:91-137 | For a query that may name external labels: a stored metric matches as it matches the user, and comes back with its own labels and the named external ones |
| ExternalLabels.NamedValueDecides | storage/remote/read.go:114-118 | A matcher of the user on an external label is decided by its configured value |
| WriteReadRoundTrip.SentReadsBack | storage/remote/read.go:91-137 | Over every run of a queue whose relabelling keeps labels: each sample that was sent is an appended one with its time and value, matches a query exactly if that one does, and is stripped back to it |
| ExternalLabels.ReadReturnsWhatWasAskedFor | storage/remote/read.go:91-101 | Over a whole store the stripped answers are exactly the written metrics that match the query |
| ExternalLabels.StripIsInjective | storage/remote/read.go:131-137 | Without empty external values, different matching series stay different |
| ExternalLabels.EmptyValueMerges | storage/remote/read.go:120-126 | With an empty external value every matching metric has a different twin that strips to the same |
| SharedMatchers.EachKeepsItsOwnIff | storage/remote/read.go:120-129 | Remotes of one query append to one backing array: under every schedule each keeps all its added matchers exactly if their maps yield the labels in the same order as far as the spare capacity goes |
| SharedMatchers.AlwaysSafe | storage/fanin/fanin.go:66-76 | Without spare capacity, with at most one label to add or with one remote, no matcher is lost |
| SharedMatchers.TwoLabelsCanLose | storage/remote/read.go:120-129 | With a spare slot, two labels and two remotes there are orders and a schedule that lose one |
| LabelMatching.LabelMatcher.CalculateScore | storage/metric/matcher.go:93-172 | Every score lies in the range of its class, for all names, values and expressions; the scores of all types and of the special names are given as numbers, 1 exactly for a match of the empty string |
| LabelMatching.LabelMatcher.MatchesEmptyString | storage/metric/matcher.go:174-177 | The cached score says exactly whether the empty string matches |
| LabelMatching.MatchMeans | storage/metric/matcher.go:184-197 | Equality accepts its value only, an expression what it matches, and the negated types exactly what those reject |
| LabelMatching.ClassMeans | storage/metric/matcher.go:93-128 | One class for what matches the empty string, and for the rest one for each type |
| LabelMatching.ClassSeparation | storage/metric/matcher.go:108-111 | A lower class always has a lower score |
| LabelMatching.SortedByClass | storage/metric/matcher.go:48-56 | After sorting, equality matchers stand before expressions, negated expressions and inequalities, in this order, and those matching the empty string are last |
| RemoveDuplicate.RemoveDuplicates | web/api/v1/api.go:592-608 | In place: the front of the array becomes the first occurrences and the rest stays as it was |
| RemoveDuplicate.NoRepeats | web/api/v1/api.go:599-605 | No value is left twice |
| RemoveDuplicate.SameValues | web/api/v1/api.go:595-606 | The same values are left |
| RemoveDuplicate.KeepsOrder | web/api/v1/api.go:595-606 | Values stand in the order of their first occurrences |
| RemoveDuplicate.Idempotent | web/api/v1/api.go:592-608 | Removing duplicates again changes nothing |

## Left out

- Float rounding and 64-bit overflow in rates, durations, scores and counters: reals and unbounded integers are used.
- Wall-clock time: a deadline is an event that may fire at any time, a tick an event that may come at any time, and the duration of a send an arbitrary number.
- The window in `Start` between launching the resharding loop and starting the shards: `CallStart` begins a launch that the loop only leaves once all shards run.
- Some steps of one goroutine are one action: the load and the subtraction of a tick (`NoEventLostOrRepeated` says why), and the count of incoming samples with the channel send.
- `Writer.Stop` itself: its effect is `CallStop` on each queue; what it leaves behind is `UseAfterStopPanics`.
- ExternalLabels.AddExternalLabels: works on a matcher list of its own; what happens when concurrent remotes append to one backing array is `SharedMatchers`, which keeps only the names of the added labels.
- Local series iterators are modelled like remote ones, as sorted sample lists.
- The unlocked map shared by the fan-in goroutines: each update is taken to be atomic.
- `LabelMatchers.Swap`, `Len`, `Filter` and the sorting algorithm itself: `SortedByClass` holds for whatever sort leaves behind.
- Label lengths in scores are counted in characters, not bytes; the class ranges hold for any length.
- `MatrixToIterators`, `querier.read`'s error return and `mergeIterator.Close`: pass-through.
- HTTP, protobuf and JSON in the storage client, metric registration, logging, `relabel.Process`, regular expressions and the `queueLength` gauge.
- `cmd`, `retrieval`, `web/web.go` and the HTTP handlers: plumbing.
