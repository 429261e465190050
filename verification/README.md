# Telegraf's metric pipeline, verified

A Dafny model of the parts of Telegraf through which every metric passes, with proofs of what each part
promises. One module per component:

- `BufferSpec`, `Buffers`, `RunningOutputs`: the circular output buffer, refined from a queue of metrics, and
  the loop that writes it batch by batch while metrics keep arriving.
- `Tracking`, `Pipeline`, `Runs`, `Delivery`: the reference count of a tracked group, with every atomic operation a
  step of its own, and the whole way of a group from the input through the fan-out to all outputs and back to the
  notification.
- `Ordered`: the worker pool that emits results in the order of its input.
- `Topology`: how the agent wires its units and how shutdown runs through them.
- `AmqpConsumer`: the delivery loop with its semaphore and the bounded channel of notifications.
- `FilterTree` (with `Strings`): the template filter tree, refined from a map of filters, and the matcher.
- `Times`, `Ticker`, `Windows`: alignment of times, the ticker that does not drift, aggregation windows.
- `Welford`, `BasicStats`; `Histogram`, `HistogramAggregator`; `Derivative`: the streaming aggregators, against
  definitions over the whole history of samples.
- `MetricTags`: the sorted tag list and the fields of a metric.
- `Metrics`, `Seqs`: what the others share.

Objects that the source updates in place are classes; each method is tied to a function or a history of
abstract values, about which the theorems are proved. Goroutines are step relations: a run is any sequence of
enabled steps, so a theorem about every run is one about every interleaving, and what a run must lead to is said in
terms of its steps. A plugin's answers, arrivals
during a call, random draws and the clock are parameters or steps. Times and durations are integers in
nanoseconds, floating-point numbers are reals, a hash id is the series it stands for, and a filter is the
decision it makes. Capacities, batch sizes, intervals, periods and the number of workers are at least 1.

Where code and documentation differ the model follows the code:

- basicstats documents `diff` as a difference and `rate` as a rate; the field `LAST` is never updated, so both
  are relative to the first sample of the period.
- `non_negative_rate` is sent when the difference is not negative; the rate itself can then be negative if
  metrics arrive out of order (`BasicStats.NegativeRateIsSent`, with the exact condition in
  `Welford.SignOfRate`).
- The template search does not come back from a wildcard child: it can miss a shorter filter that matches
  (`FilterTree.WildcardHidesShorterFilter`, with the exact condition for each line in `FilterTree.FoundExactly`).

## Model

| member | source | states |
|---|---|---|
| `BufferSpec.AddAllSnoc` | models/buffer.go:134-147 | adding metrics one at a time gives the same buffer, and the same drops, as adding them all at once |
| `BufferSpec.StepKeepsOrder` | models/buffer.go:107-221 | every legal operation keeps the queue the newest stretch of everything ever added, in order of arrival, and an outstanding batch right before it as long as the queue is not full |
| `BufferSpec.StepConserves` | models/buffer.go:87-221 | every legal operation keeps added = written + dropped + queued + outstanding, as multisets of metrics |
| `BufferSpec.EveryRunIsSound` | models/buffer.go:87-221 | order and conservation hold after every run of Add, Batch, Accept and Reject with at most one batch out |
| `BufferSpec.SettledAtMostOnce` | models/buffer.go:95-221 | in every run a metric added once is accepted or rejected at most once, never both, and not while it is still held |
| `BufferSpec.FailedWriteIsInvisible` | models/buffer.go:107-221 | Batch, any additions, Reject leaves exactly the newest `cap` metrics of the old queue and the additions, and the same metrics dropped, as the additions alone |
| `Buffers.Buffer.constructor` | models/buffer.go:35-77 | a new buffer is empty and has the given capacity |
| `Buffers.Buffer.Length` | models/buffer.go:80-89 | the length is the number of queued and outstanding metrics, at most the capacity |
| `Buffers.Buffer.NextBy` | models/buffer.go:233-238 | moving an index forward goes round the array |
| `Buffers.Buffer.PrevBy` | models/buffer.go:240-248 | moving an index backward goes round the array |
| `Buffers.Buffer.AddOne` | models/buffer.go:107-131 | the array operation adds one metric to the abstract queue; a full queue drops its oldest metric and says so |
| `Buffers.Buffer.Add` | models/buffer.go:134-147 | adds all metrics and returns the number dropped |
| `Buffers.Buffer.Batch` | models/buffer.go:152-175 | hands out the oldest metrics in order, clearing their slots, and records them as outstanding |
| `Buffers.Buffer.Accept` | models/buffer.go:178-187 | every metric of the batch is counted as written and accepted, and no batch is out any more |
| `Buffers.Buffer.Reject` | models/buffer.go:192-221 | the batch goes back in front of what has arrived since; the oldest metrics that do not fit are rejected; the length does not change |
| `RunningOutputs.RunningOutput.constructor` | models/running_output.go:58-110 | a new output has an empty buffer and no signal pending |
| `RunningOutputs.RunningOutput.AddMetric` | models/running_output.go:134-177 | a metric is filtered or stored and noted, never both |
| `RunningOutputs.RunningOutput.Store` | models/running_output.go:165-166 | the first half of adding: the metric goes into the buffer |
| `RunningOutputs.RunningOutput.Note` | models/running_output.go:168-176 | the second half: the counter goes on modulo MetricBatchSize and BatchReady is raised exactly when it goes round |
| `RunningOutputs.RunningOutput.WriteBatch` | models/running_output.go:212-226 | one plugin call with at most MetricBatchSize of the oldest metrics; success accepts them, an error puts them back, whatever arrives meanwhile |
| `RunningOutputs.ProgressAccept` | models/running_output.go:189-207 | a successful call extends the calls made so far in order of arrival |
| `RunningOutputs.ProgressReject` | models/running_output.go:189-207 | a failed call puts back exactly its own batch, in front of what has arrived since, as far as it fits |
| `RunningOutputs.LeftShrinks` | models/running_output.go:189-207 | each batch takes MetricBatchSize of the metrics present at entry, or all that are left of them, whatever arrives meanwhile |
| `RunningOutputs.BatchesExact` | models/running_output.go:191-195 | the number of rounds is len/batch + 1: one batch less would not exceed the metrics present, and that many do |
| `RunningOutputs.CallsBounded` | models/running_output.go:191-207 | so all calls but one, of full size, are no more than the metrics present when the length was read |
| `RunningOutputs.AllTaken` | models/running_output.go:191-195 | that many batches are enough for all metrics present at entry |
| `RunningOutputs.RunningOutput.Write` | models/running_output.go:180-209 | (calls made - 1) * MetricBatchSize is at most the length that was read, and each call has at most MetricBatchSize metrics, in order of arrival; without an error nothing present when the length was read remains; the first error ends the write, its batch is put back and earlier batches stay accepted; exactly the metrics stored meanwhile were added and those noted meanwhile counted from zero; for all additions, in their two halves, between any two steps of the write |
| `Tracking.NewTrackingMetricGroup` | metric/tracking.go:104-130 | every metric becomes its own handle and the count starts at their number; an empty group is notified at once |
| `Tracking.StepKeepsInv` | metric/tracking.go:55-163 | every atomic step keeps: rc is the number of unreleased handles, the counters are those of the releases counted so far, at most one handle is about to notify |
| `Tracking.EveryRunKeepsInv` | metric/tracking.go:55-163 | the same in every state of every interleaving |
| `Tracking.NotifiedIsFinal` | metric/tracking.go:71-79 | a notification carries the final counts, every handle is done, and no step is possible any more |
| `Tracking.DeliveredMeansNoReject` | metric/tracking.go:175-177 | the notification reports delivery exactly if no handle was rejected |
| `Tracking.AllDoneIsNotified` | metric/tracking.go:154-163 | when all handles are done the notification has been sent |
| `Tracking.EveryRunIsTallied` | metric/tracking.go:55-163 | in every interleaving the handles are those of the group and one for each Copy, rc is their number less the decrements, and a handle is released with verdict v exactly if v was called on it |
| `Tracking.NotifiedExactlyOnce` | metric/tracking.go:55-163 | in every interleaving rc is never negative, there is one notification if all handles are done and none before, it carries the numbers of Accept and Reject calls made, and it reports delivery exactly if Reject was never called |
| `Tracking.ReleasedByItsCall` | metric/tracking.go:132-152 | once the notification is out every handle and every copy has been released by exactly one call |
| `Pipeline.StepKeepsInv` | agent/agent.go:755-763 | every step of the fan-out, in which copying and handing over are two steps, of the buffers and of the releases keeps each handle in exactly one place, in agreement with its phase |
| `Runs.AnswersAreKept` | models/running_output.go:197-226 | in every run an output has accepted exactly the batches that were out when its plugin reported success, one after the other, has taken in exactly the metrics its filter let through, and has rejected exactly the oldest ones that did not fit |
| `Runs.FailureLeavesNoTrace` | models/running_output.go:197-226 | in every run, when the plugin fails the queue of its output is the newest part of what was queued when the batch was taken and what has arrived since, whatever happened in between, and nothing more counts as written |
| `Runs.EveryOutputSeesAll` | agent/agent.go:755-763 | in every run every output is offered every metric that was sent, once and in the order of sending: what it was offered and what is on its way to it are what was sent |
| `Delivery.EveryRunKeepsInv` | agent/agent.go:755-763 | the same in every state of every interleaving |
| `Delivery.LiveMeansHeld` | agent/agent.go:755-763 | a handle is live exactly while it sits in the input, the channel, the loop, its hand, a buffer or a batch |
| `Delivery.RcCountsHeld` | agent/agent.go:755-763 | in every run rc is the number of handles held there plus those whose release has begun but not yet decremented it |
| `Delivery.FiltersAreKept` | models/running_output.go:134-140 | in every run the handles counted as filtered are exactly those that the filter of the output they were meant for turned away |
| `Delivery.DoneIsSettled` | models/buffer.go:95-105 | a released handle was written, dropped by its buffer or filtered, one of these once, and it was rejected exactly if the buffer dropped it |
| `Delivery.OfferedToAll` | agent/agent.go:755-763 | once the handle made by the input is released there is a handle of the metric for every output |
| `Delivery.FailureMeansDropped` | metric/tracking.go:171-177 | a notified group reports failure exactly if some buffer dropped a copy |
| `Delivery.NotifiedMeansSettled` | agent/agent.go:755-763 | when the input is notified every output has settled exactly one copy of every metric exactly once: the copy was in a batch when the plugin reported success, or did not fit into the buffer, or was turned away by the filter; nothing of the group is held anywhere, and Delivered is false exactly if some copy did not fit |
| `Delivery.SettledMeansNotified` | agent/agent.go:755-763 | when nothing of the group is held and no release is under way the notification has been sent |
| `Ordered.StepKeepsInv` | plugins/common/parallel/ordered.go:20-89 | every channel operation of enqueuer, workers and reader keeps futures and jobs in order and accounted for |
| `Ordered.EveryRunKeepsInv` | plugins/common/parallel/ordered.go:20-89 | the same in every state of every interleaving |
| `Ordered.EmitsInOrder` | plugins/common/parallel/ordered.go:40-89 | what is emitted is always a prefix of the results for the metrics of the Enqueue calls made, in their order, and all of them once the reader has finished, for any function and any number of workers |
| `Ordered.HeadFutureMoves` | plugins/common/parallel/ordered.go:40-76 | the future the reader waits for can always make progress, because its job is the oldest unfinished one |
| `Ordered.NoDeadlock` | plugins/common/parallel/ordered.go:20-89 | with at least one worker every reachable state is at rest with the results of all Enqueue calls emitted, or some goroutine has a step |
| `Ordered.InternalStepsRunOut` | plugins/common/parallel/ordered.go:40-89 | every step that is not a call of Enqueue or Stop lowers a bound |
| `Ordered.InternalRunsAreBounded` | plugins/common/parallel/ordered.go:40-89 | so the number of such steps in a row is bounded |
| `Ordered.AllResultsComeOut` | plugins/common/parallel/ordered.go:40-89 | any run followed by such steps until none is possible ends, within the bound, with the results of all Enqueue calls emitted |
| `Topology.StartProcessors` | agent/agent.go:494-530 | the chain of processors links each unit to the channel in front of the one before |
| `Topology.Build` | agent/agent.go:98-160 | every configuration gives a chain from inputs to outputs in which each channel has one reader and one owner; the aggregators also forward to the outputs |
| `Topology.Cascade` | agent/agent.go:533-630 | a unit that has left its loop has only finished units before it |
| `Topology.SendsOnOpenChannel` | agent/agent.go:533-630 | a unit that may still send does so on an open channel that is being read |
| `Topology.StepKeepsInv` | agent/agent.go:269-771 | every step keeps: a channel is closed only by its owner, as its last action, and a loop ends only when its channel is closed and drained |
| `Topology.EveryRunKeepsInv` | agent/agent.go:269-771 | the same in every state of every run |
| `Topology.ShutdownIsSafe` | agent/agent.go:98-184 | in every topology and run, whatever the capacity of the channels, whoever is in a send or about to close finds the channel open; when the outputs end all units have ended, every channel was closed once and is empty |
| `Topology.EveryRunAccounts` | agent/agent.go:269-771 | in every run the sends begun to a channel are as many as the metrics received from it, in it, and in a blocked send to it |
| `Topology.NothingIsLost` | agent/agent.go:98-184 | when the outputs have left their loop every metric that any unit began to send on any channel has been received by the reader of that channel |
| `Topology.ShutdownGoesOn` | agent/agent.go:98-184 | with channels of any capacity of at least 1, as long as a unit is unfinished some step is possible that needs no plugin to emit another metric |
| `Topology.StepsRunOut` | agent/agent.go:98-184 | every step that is not a plugin emitting a metric lowers a bound, and an emission raises it by two |
| `Topology.ShutdownEnds` | agent/agent.go:98-184 | once no plugin emits another metric the agent stops within the bound, and only when all units have finished |
| `AmqpConsumer.StepKeepsInv` | plugins/inputs/amqp_consumer/amqp_consumer.go:426-514 | every step of the loop and every notification keeps tokens, open messages and notifications in agreement |
| `AmqpConsumer.StepKeepsExplained` | plugins/inputs/amqp_consumer/amqp_consumer.go:463-514 | every step keeps the state explained by the steps taken: which messages were read and parsed, which groups were notified and how, and how each settled message was answered |
| `AmqpConsumer.OneOutcome` | plugins/inputs/amqp_consumer/amqp_consumer.go:463-495 | a message parses into one group or not at all |
| `AmqpConsumer.NotesFit` | agent/accumulator.go:122-160 | unread notifications and groups still to be notified together never exceed the size of the channel |
| `AmqpConsumer.ReadKeepsInv` | plugins/inputs/amqp_consumer/amqp_consumer.go:436-450 | every notification read finds its message, settles it and gives the tokens back |
| `AmqpConsumer.EveryRunKeepsInv` | plugins/inputs/amqp_consumer/amqp_consumer.go:426-514 | the invariant holds in every state of every run |
| `AmqpConsumer.InFlightIsBounded` | plugins/inputs/amqp_consumer/amqp_consumer.go:426-514 | at the loop head the tokens are the open messages; open messages never exceed the maximum; whoever may notify finds room in the channel, so the panic is unreachable; a notification that can be read finds its message and the tokens to give back; every message read is open or settled once; a loop that waits for a token waits for a group still to be notified |
| `AmqpConsumer.SettledAsNotified` | plugins/inputs/amqp_consumer/amqp_consumer.go:463-514 | in every run a settled message that did not parse was acknowledged, and one that parsed was acknowledged or rejected as the one notification of its group said; there is one settlement per notification and bad message read |
| `FilterTree.BeforeIsTotal` | internal/templating/node.go:118-128 | the order of siblings is a strict total order with "*" last |
| `FilterTree.PlaceSorts` | internal/templating/node.go:41-44 | appending a child and sorting keeps the children strictly sorted |
| `FilterTree.InsertRepresents` | internal/templating/node.go:19-48 | inserting a filter turns a tree for a map into the tree for the map with that filter set |
| `FilterTree.LowerBoundFinds` | internal/templating/node.go:63-79 | the binary search finds a child among sorted siblings if it is there |
| `FilterTree.SearchIsLookup` | internal/templating/node.go:51-97 | search in a tree equals lookup in the map: exact part before "*", the result of a "*" child even if nil, else the filter ending here |
| `FilterTree.TreeRefinesMap` | internal/templating/node.go:19-97 | after any insertions search equals lookup in the map from filter parts to latest template |
| `FilterTree.FoundMatches` | internal/templating/node.go:57-97 | the filter of a template that is found matches a prefix of the line |
| `FilterTree.TreeIsCanonical` | internal/templating/node.go:25-48 | a map has only one tree |
| `FilterTree.OrderDoesNotMatter` | internal/templating/node.go:19-48 | distinct filters inserted in any order give the same tree |
| `FilterTree.WildcardHidesShorterFilter` | internal/templating/node.go:88-97 | a matching filter can be missed: with "a" and "a.*.b" the line "a.x.c" finds nothing |
| `FilterTree.FoundExactly` | internal/templating/node.go:57-97 | a line finds a template if and only if some filter matches it that is as long as the line, or after which no filter goes on with a wildcard |
| `FilterTree.BestWins` | internal/templating/node.go:57-97 | the template found is that of the one among these filters that beats all others: where two differ first an exact part beats a wildcard, and any part beats the end |
| `FilterTree.NothingMissed` | internal/templating/node.go:57-97 | no line that some filter matches goes without a template if and only if every such line is matched by a filter as long as the line or without a wildcard after it |
| `FilterTree.NoWildcardAfterFilter` | internal/templating/node.go:57-97 | no line is missed if no filter goes on with a wildcard where another one ends |
| `FilterTree.WithoutWildcardsLongestWins` | internal/templating/node.go:57-97 | among filters without wildcards the longest one that is a prefix of the line is found |
| `FilterTree.Matcher.constructor` | internal/templating/matcher.go:15-20 | a new matcher has no filters |
| `FilterTree.Matcher.Add` | internal/templating/matcher.go:41-48 | an empty filter sets the default template, any other one is added to the filters; the separator becomes that of the template |
| `FilterTree.Matcher.Match` | internal/templating/matcher.go:52-58 | if some matching filter is as long as the line or has no wildcard after it, the template of the best of these; otherwise the default |
| `Times.AlignIsFirstMultiple` | internal/internal.go:174-182 | AlignTime is the first multiple of the interval that is not before the time, and the only such value |
| `Ticker.DelayBounds` | agent/tick.go:66-79 | without jitter the delay leads to a multiple of the interval and lies in [minInterval, interval + minInterval), where minInterval is a hundredth of the interval |
| `Ticker.NextTick` | agent/tick.go:66-79 | the next nominal time is s + interval if and only if the tick meant for s fires at an offset e with -minInterval < e <= interval - minInterval (for intervals below 100 ns: 0 <= e < interval) |
| `Ticker.RunNeverDrifts` | agent/tick.go:44-97 | over any whole run the nominal times are consecutive multiples of the interval if and only if every offset is tolerated |
| `Ticker.TimesWithoutDrift` | agent/tick.go:44-97 | if all offsets are tolerated tick k fires at the first nominal time + k * interval + its offset |
| `Ticker.AlignedTicker.constructor` | agent/tick.go:44-53 | a new ticker has an empty channel |
| `Ticker.AlignedTicker.Next` | agent/tick.go:66-79 | the delay to the next nominal time plus the drawn jitter |
| `Ticker.AlignedTicker.Run` | agent/tick.go:81-97 | the timer fires at the times of the run; the channel holds the first tick since the consumer last emptied it, whenever that was, and later ones are dropped |
| `Windows.FirstWindow` | agent/agent.go:632-646 | the first window is one period wide and contains the start time, aligned to the period or beginning at the start |
| `Windows.RunningAggregator.constructor` | models/running_aggregator.go:26-65 | a new aggregator has seen nothing |
| `Windows.RunningAggregator.UpdateWindow` | models/running_aggregator.go:105-109 | sets the window and nothing else |
| `Windows.RunningAggregator.Add` | models/running_aggregator.go:127-156 | the plugin gets the metric exactly if the filter keeps it and its time is in [start - grace, end + delay]; the original is to be dropped exactly if the filter selects it and DropOriginal is set |
| `Windows.RunningAggregator.PushNow` | models/running_aggregator.go:158-168 | the window moves on by one period, and the plugin is pushed and then reset |
| `Windows.OfferKeepsStep` | models/running_aggregator.go:127-156 | offering a metric keeps: the window is the next in a row and every metric was judged by the window of its time |
| `Windows.PushKeepsStep` | models/running_aggregator.go:158-168 | a push keeps the same |
| `Windows.StepKeepsInv` | agent/agent.go:575-670 | every step of the adding goroutine and of the pushers keeps the invariant of all aggregators |
| `Windows.EveryRunKeepsInv` | agent/agent.go:575-670 | the same after every run |
| `Windows.WindowsTile` | agent/agent.go:575-670 | in every run the window after k pushes is [since + k * period, since + (k + 1) * period), the first one around the start time, there is one push for each timer and one for the end, and every metric offered was given to the plugin if and only if selected, with fields left, and not before the start of the window then current by more than grace nor after its end by more than delay |
| `Windows.OneBlock` | models/running_aggregator.go:158-168 | two events are in the same window exactly if no push is between them |
| `Windows.NothingIsLeftBehind` | agent/agent.go:575-630 | when all goroutines have ended every metric was offered to every aggregator once, in order, the last thing each plugin saw is a push and its reset, and the outputs got exactly the metrics that no aggregator takes over |
| `Windows.FreshMetricIsInside` | agent/agent.go:581-586 | a metric with the present time is inside the window exactly if the push is not overdue by more than the delay |
| `Welford.MeanAndDeviations` | plugins/aggregators/basicstats/basicstats.go:127-142 | for every history the running mean is the mean and M2 the sum of squared deviations from it, not negative; sum is the sum |
| `Welford.MinAndMax` | plugins/aggregators/basicstats/basicstats.go:143-148 | min and max are attained and bound the whole history |
| `Welford.DiffAndRate` | plugins/aggregators/basicstats/basicstats.go:151-158 | diff and interval go from the first sample to the last; the rate is that of the last sample with another time than the first |
| `Welford.RateOfIsRate` | plugins/aggregators/basicstats/basicstats.go:155-158 | the rate times the nanoseconds between the two samples is their difference times 1000000000 |
| `Welford.SignOfRate` | plugins/aggregators/basicstats/basicstats.go:155-158 | a rate is non-negative if and only if the sample it comes from does not lie on different sides of the first one in value and time |
| `Welford.FoldDescribes` | plugins/aggregators/basicstats/basicstats.go:80-163 | all running statistics of a field are the statistics of its whole history |
| `BasicStats.OneSample` | plugins/aggregators/basicstats/basicstats.go:127-160 | one more value updates the running statistics |
| `BasicStats.NewFields` | plugins/aggregators/basicstats/basicstats.go:83-104 | the statistics of a new series are those of its first metric |
| `BasicStats.UpdateFields` | plugins/aggregators/basicstats/basicstats.go:105-161 | the statistics of a cached series take in the metric, field by field; a new field starts from its first value |
| `BasicStats.Aggregator.constructor` | plugins/aggregators/basicstats/basicstats.go:34-38 | a new aggregator has no samples |
| `BasicStats.Aggregator.Add` | plugins/aggregators/basicstats/basicstats.go:80-163 | after any metrics the cache holds, for every series and field, the running statistics of exactly the samples since the last reset |
| `BasicStats.Aggregator.Push` | plugins/aggregators/basicstats/basicstats.go:166-219 | a statistic is pushed if and only if it is configured and there are enough samples (and, for the non-negative ones, a non-negative difference), and it is that of all samples since the last reset; s2 is the sample variance |
| `BasicStats.Aggregator.Reset` | plugins/aggregators/basicstats/basicstats.go:278-280 | forgets all samples |
| `BasicStats.NumbersAreRight` | plugins/aggregators/basicstats/basicstats.go:166-219 | every number pushed from the running statistics is the statistic of the history it stands for, and the conditions for sending it agree |
| `BasicStats.NegativeRateIsSent` | plugins/aggregators/basicstats/basicstats.go:205-207 | a rate pushed as non-negative can be negative, since the difference is what is checked |
| `Histogram.SortBuckets` | plugins/aggregators/histogram/histogram.go:285-294 | the borders come out ascending and are the same borders, with repeats |
| `Histogram.SearchBorder` | plugins/aggregators/histogram/histogram.go:147-149 | the index of the first border that is not below the value |
| `Histogram.CountedSnoc` | plugins/aggregators/histogram/histogram.go:146-150 | counting a value at that index keeps every count the number of values in the range of its bucket |
| `Histogram.GroupByBuckets` | plugins/aggregators/histogram/histogram.go:176-204 | one bucket per border and one for +Inf, each with the number of values in its range, cumulative or not |
| `Histogram.CumulativeCounts` | plugins/aggregators/histogram/histogram.go:176-204 | the cumulative count for border b is the number of values <= b, counts do not fall, and +Inf has them all |
| `Histogram.OrdinaryCounts` | plugins/aggregators/histogram/histogram.go:185-204 | counts that are not cumulative add up to the number of values |
| `HistogramAggregator.CountField` | plugins/aggregators/histogram/histogram.go:139-150 | counts for a field are created empty and take in the value if it is a number |
| `HistogramAggregator.CountFields` | plugins/aggregators/histogram/histogram.go:138-152 | all fields with borders are counted, whatever the order of iteration |
| `HistogramAggregator.Aggregator.constructor` | plugins/aggregators/histogram/histogram.go:67-75 | a new aggregator has counted nothing |
| `HistogramAggregator.Aggregator.GetBuckets` | plugins/aggregators/histogram/histogram.go:247-267 | the ascending borders of the last configuration that applies to the field, however often they were asked for |
| `HistogramAggregator.Aggregator.BucketsByField` | plugins/aggregators/histogram/histogram.go:122-128 | the borders of exactly those fields of the metric that have some |
| `HistogramAggregator.Aggregator.Add` | plugins/aggregators/histogram/histogram.go:121-158 | after any metrics the counts of every field with borders are those of all its values since the last reset |
| `HistogramAggregator.Aggregator.Reset` | plugins/aggregators/histogram/histogram.go:234-239 | forgets the counts exactly if so configured |
| `HistogramAggregator.GroupField` | plugins/aggregators/histogram/histogram.go:207-229 | the count is set in the group with the same name and tags, or in a new one, and nothing else changes |
| `HistogramAggregator.GroupBuckets` | plugins/aggregators/histogram/histogram.go:176-204 | all buckets of a field are grouped, those with equal borders once |
| `HistogramAggregator.GroupAll` | plugins/aggregators/histogram/histogram.go:161-173 | all buckets of all fields are grouped, whatever the order of iteration |
| `HistogramAggregator.Aggregator.Collect` | plugins/aggregators/histogram/histogram.go:164-168 | buckets for exactly the fields seen that have borders, with the counts of all their values |
| `HistogramAggregator.Aggregator.Push` | plugins/aggregators/histogram/histogram.go:161-173 | there is one group per series and bucket; it has a count for a field if and only if the field was seen and has that bucket, and it is the number of values in it since the last reset |
| `Derivative.AddKeepsInv` | plugins/aggregators/derivative/derivative.go:91-113 | adding an event keeps the invariant of a series |
| `Derivative.ResetKeepsInv` | plugins/aggregators/derivative/derivative.go:200-212 | a reset keeps it, carrying over everything seen at the latest time of the period, or forgetting the series |
| `Derivative.EveryRunKeepsInv` | plugins/aggregators/derivative/derivative.go:91-212 | in every run first and last are the earliest and latest of the event carried over and those added since the last reset, with all fields seen at that time; they are distinct exactly if first.time < last.time; the series is remembered if and only if an event was added and at most MaxRollOver resets followed |
| `Derivative.PushSeries` | plugins/aggregators/derivative/derivative.go:160-197 | derivatives are pushed if and only if the two ends are distinct and the variable is usable; the divisor is never zero, and positive if it is the time; each derivative times the divisor is the change of the field |
| `Derivative.Aggregator.constructor` | plugins/aggregators/derivative/derivative.go:34-39 | a new aggregator remembers no series |
| `Derivative.Aggregator.AddMetric` | plugins/aggregators/derivative/derivative.go:91-113 | the series takes in the event and no other series changes |
| `Derivative.Aggregator.ResetAll` | plugins/aggregators/derivative/derivative.go:200-212 | every series is reset, whatever the order of iteration |
| `Derivative.Aggregator.Push` | plugins/aggregators/derivative/derivative.go:159-198 | for every series: pushed if and only if remembered and derivable, with the right derivatives between the ends of its period |
| `MetricTags.ListIsCanonical` | metric/metric.go:140-187 | two strictly ascending lists of the same map are equal |
| `MetricTags.InsertIsUpdate` | metric/metric.go:151-157 | inserting a key where the greater keys begin keeps the list strictly ascending and sets the key in the map |
| `MetricTags.ReplaceIsUpdate` | metric/metric.go:146-149 | replacing a value keeps the list strictly ascending and sets the key in the map |
| `MetricTags.RemoveIsUpdate` | metric/metric.go:178-187 | removing a tag keeps the list strictly ascending and removes the key from the map |
| `MetricTags.SortPairs` | metric/metric.go:43-50 | sorting pairs with distinct keys gives the strictly ascending list of the same map |
| `MetricTags.Metric.constructor` | metric/metric.go:21-66 | the tags of a new metric are strictly ascending and represent the given map, and so do its fields |
| `MetricTags.Metric.AddTag` | metric/metric.go:140-158 | sets the key in the map of tags and keeps the tags strictly ascending; changes no other object than its own tags |
| `MetricTags.Metric.GetTag` | metric/metric.go:169-176 | the value in the map of tags, and whether there is one |
| `MetricTags.Metric.RemoveTag` | metric/metric.go:178-187 | removes the key from the map of tags and keeps the tags strictly ascending |
| `MetricTags.Metric.AddField` | metric/metric.go:189-197 | sets the key in the map of fields and keeps every key once |
| `MetricTags.Metric.Copy` | metric/metric.go:232-249 | a copy has equal name, time, type and fields, and equal tags in new objects |
| `MetricTags.FromMetric` | metric/metric.go:68-85 | the same for a copy without tracking |
| `MetricTags.Metric.HashInput` | metric/metric.go:251-262 | the hash is computed from the name and the list of tags |
| `MetricTags.SameSeriesSameHash` | metric/metric.go:251-262 | equal name and equal map of tags give the identical hash input |
| `MetricTags.HashTextIsInjective` | metric/metric.go:251-262 | and equal hash inputs come from equal names and tag lists, if no name, key or value has a newline |
| `MetricTags.EditMetric` | metric/metric.go:140-197 | any sequence of AddTag, RemoveTag and AddField has the effect of the same updates of the maps of tags and fields |
| `MetricTags.CopyThenEdit` | metric/metric.go:68-85 | a copy, made by Copy or FromMetric, is not affected by any later edits of the original |

## Left out

- Aggregating outputs, and the name override, prefix and suffix of an output: the plugin owns the metric, or only its name changes.
- The counter of drops that an output only logs.
- A buffer with two batches out at the same time: the outputs never ask for one.
- The capacity of the channel in the delivery pipe, and the flush timers: a run may send and flush at any time, so all runs of the code are among those considered.
- Wrap-around of the 32-bit reference count and of all 64-bit counters.
- More than one goroutine calling Enqueue on the ordered pool: the order of their results is then not determined by the callers.
- Failing starts of plugins in the topology, and the order of processors; a plugin's Stop is taken to return only after its last send.
- Connection loss of the AMQP consumer: the model is of one connection, so the notification of an earlier connection does not occur.
- The filter tree is modelled on values, not on nodes updated in place: sharing of nodes between trees is not captured; `strings.Split` is an arbitrary function.
- Go's monotonic clock reading, which makes `==` on two times differ although they are the same instant, and changes of the wall clock.
- The unaligned and the rolling ticker.
- Filters (`filter/filter.go`, `models/filter.go`) other than by their decision; a filter that changes a metric's fields before aggregation.
- Rounding, NaN and infinities of floating-point numbers; the square root of the variance is left as a symbol.
- Names of pushed fields built from a key and a suffix: statistics are kept apart by key and kind, whereas in the code two different fields can end up with the same name.
- BasicStats.Aggregator.Add: requires distinct keys in a metric's field list, which AddField keeps (`MetricTags.Metric.AddField`).
- HistogramAggregator.Aggregator.Push: takes the tags of a series to have no `le` or `gt` of their own; the in-place sort of the configured list of borders is modelled on values.
- The events of the derivative aggregator are values; that first and last are the same object is expressed by a constructor of its own. The conversion of field values to numbers and the suffix of the field names are not modelled.
- The conversion of field values, and RemoveField; collisions of the hash function itself; sharing of the tag slice handed out by TagList.
- Input plugins other than the AMQP loop, configuration, logging and internal statistics other than the buffer's: input and output over libraries, or easy.
