# Prometheus: a verified model of its core

A Dafny model of the parts of Prometheus whose correctness is hardest to see: the iterators a query reads
samples through, the evaluation of range selectors, subqueries and the `@` modifier, the merging of series and
chunks, the exemplar store, the compaction planner, the alert state machine, the notification queue, quantiles,
rates and the wire format of remote write. Each module models one component and proves, for all inputs or all
runs, what that component is for.

| module | component | main result |
|---|---|---|
| Samples, GoInt, Bounds | samples of a series, Go's integer division, numbers with infinities | shared definitions |
| SampleRing | ring buffer behind a buffered iterator | the ring is the look-back, after every run |
| SeriesIterator | list iterator and the specification of all base iterators | laws of Next and Seek |
| BufferedIterator | iterator with a look-back | Seek and Next are the base iterator's, with the look-back in the ring |
| RangeWindow | evaluation of range selectors step by step | incremental windows equal windows read afresh |
| Subquery | subqueries | one inner evaluation serves all outer steps |
| MemoizedIterator | instant selectors | one iterator over all steps equals a lookup at each |
| Matrix, AtModifier, AtModifierSteps, AtModifierMeaning, AtModifierLimits, AtModifierEngine | `rangeEval`, `PreprocessExpr`, `setOffsetForAtModifier` | the pass preserves meaning exactly for the covered expressions |
| ChainIterator | merging of sample iterators | the iterator is an iterator over the union |
| ChunkCompaction | merging and encoding of chunks | all times once, in ordered chunks; chunks without overlap as they were |
| Exemplars | circular exemplar storage | most recent accepted exemplars, with exact links and index |
| Planner | compaction planner and loop | plans are what they should be; the loop ends with disjoint blocks |
| Alerting | alert state machine | firing is earned, and earned firing happens |
| Notifier | alert queue between senders and the sending loop | conservation, order and no lost wake-up in every interleaving |
| HistogramQuantile, BucketQuantile | quantiles of native and classic histograms | exactly when quantile and fraction are inverse; quantiles are monotone, whatever the order of the buckets |
| ExtrapolatedRate | rate, increase and delta | increases never exceed the counter's growth; no extrapolation below zero |
| Varint, Wire, Prompb, WireFormat | protobuf messages of remote write | sizes are exact, round trips, read-write-read, and the bytes are those of the wire format |

A float is its IEEE 754 bit pattern where identity matters (staleness markers, minus zero) and an exact real
where arithmetic matters (quantiles, rates). Integers are unbounded; sentinels, wrap-around and truncation are
written out where the source depends on them. Storage, operators and functions that a component calls are
parameters. Where the source updates an object, the model is a class whose methods are proved against a
specification function; the theorems are about that function.

`dafny verify dfyconfig.toml` checks the whole project.

## Where the code differs from what one would expect

- `Resize` of the exemplar storage returns 0 when the size does not change, although all exemplars are kept;
  otherwise it returns how many were kept.
- A range selector with `@` in a call that is not step invariant as a whole (`predict_linear`, or a scalar argument
  that depends on the step) is read at a time that moves with the step, so that only a query with one step is right:
  `RangeCallIsRight`, `PredictLinearIsRight`, `RangeWithScalarIsRight`.
- `timestamp()` of a selector with `@` and `offset` ignores the offset: `TimestampIsRight`.
- The parameter of an aggregation is not preprocessed. With `@` it moves with the step, `end()` in it is read as
  the start, and over a step-invariant vector a parameter without `@` is read at the first step only:
  `ParameterIsRight`, `ParameterReads`. `CoveredIsExact` says that these are all the ways in which the pass changes a
  meaning.
- Negation and range calls compare label sets over the whole range, so that two series of different steps that
  differ in their name only make a query fail although every step alone has a value: `NegationClashes`;
  `PreprocessPreservesMeaning` has the exact condition.
- `histogramFraction` up to `histogramQuantile(q)` is documented to be q. With observations of NaN, which are in no
  bucket, it is 1 from the rank at the end of the buckets on, and for q = 0 with an empty first bucket the
  quantile is NaN: `QuantileThenFraction` has the exact condition.
- A seek whose time minus the look-back is the least int64 passes the first sample of an iterator just reset without
  looking at it, and one for which the subtraction wraps around goes to the wrapped time: `SeekEnd`.
- Marshalling drops a sample value of minus zero, which is read back as zero: `SeriesRoundTrip`.
- `bucketQuantile` at q = 0 with an empty first bucket whose bound is positive, and in a bucket that follows a bound
  of minus infinity, is NaN; `BucketQuantile.AnswerIn` says so case by case.

## Model

| member | source | states |
|---|---|---|
| SampleRing.Ring.Reset | storage/buffer.go:297-302 | empties the ring and keeps its buffer and its look-back |
| SampleRing.Ring.AtF | storage/buffer.go:391-394 | the k-th sample from the oldest, across the wrap of the buffer |
| SampleRing.Ring.MakeRoom | storage/buffer.go:610-634 | growing the full buffer and unrolling it changes nothing that is held and frees the slot after the newest sample |
| SampleRing.Ring.Evict | storage/buffer.go:636-645 | drops exactly the samples older than the bound, and never the newest |
| SampleRing.Ring.AddF | storage/buffer.go:610-646 | the new contents are the old ones with the sample appended, cut to the look-back of the newest |
| SampleRing.Ring.ReduceDelta | storage/buffer.go:728-762 | accepted iff the look-back does not grow; the contents are then cut to it, otherwise unchanged |
| SampleRing.RingIsLookback | storage/buffer.go:610-646 | after every in-order run of resets, adds and reductions the ring holds exactly the samples added since the last reset that lie within the current look-back of the newest |
| SampleRing.AddReduced | storage/buffer.go:637-645 | cutting as samples arrive is the same as cutting once at the end |
| SampleRing.ReduceReduced | storage/buffer.go:751-762 | a smaller look-back after a larger one is the smaller one alone |
| SeriesIterator.SeekSeek | storage/series.go:138-159 | seeking twice with rising times is seeking once |
| SeriesIterator.NextSeek | storage/series.go:130-159 | a step over a sample that is too early does not change where a seek ends |
| SeriesIterator.SeekStays | storage/series.go:138-148 | an iterator already at or after the time does not move |
| SeriesIterator.Search | storage/series.go:150-153 | sort.Search finds the least index at which a condition that never turns back holds |
| SeriesIterator.ListSeriesIterator.At | storage/series.go:110-113 | the sample at the position |
| SeriesIterator.ListSeriesIterator.Next | storage/series.go:130-136 | one step of the specification iterator, and whether there is a sample |
| SeriesIterator.ListSeriesIterator.Seek | storage/series.go:138-159 | binary search ends at the first sample from the current one on that is not before t |
| BufferedIterator.BufferedSeriesIterator.constructor | storage/buffer.go:44-53 | starts on the first sample with an empty buffer |
| BufferedIterator.BufferedSeriesIterator.Reset | storage/buffer.go:57-63 | a used iterator is as good as new on another series, with the original look-back |
| BufferedIterator.BufferedSeriesIterator.ReduceDelta | storage/buffer.go:66-68 | accepted iff not larger; the ring goes on holding the look-back behind the position |
| BufferedIterator.BufferedSeriesIterator.Next | storage/buffer.go:117-140 | one step of the base iterator; the sample passed enters the ring and the ring holds exactly the look-back |
| BufferedIterator.BufferedSeriesIterator.Jump | storage/buffer.go:86-104 | a far seek empties the ring and continues at the look-back's start |
| BufferedIterator.BufferedSeriesIterator.NextUntil | storage/buffer.go:106-114 | the loop of Seek steps before it looks, so it seeks from the next sample on |
| BufferedIterator.BufferedSeriesIterator.Seek | storage/buffer.go:83-114 | ends where the base iterator's own Seek would end, jump or not, with every passed sample of the look-back in the ring; and where it ends instead if the look-back reaches the sentinel or wraps around int64 |
| Samples.Minus64Wraps | storage/buffer.go:84-84 | the subtraction in Seek wraps around as int64 does |
| RangeWindow.Evaluator.Retain | promql/engine.go:1957-1979 | keeps exactly the points of the last step that are still in range and says from where to read on |
| RangeWindow.Evaluator.Append | promql/engine.go:2038-2047 | adds a point iff the sample limit allows one more |
| RangeWindow.Evaluator.AppendBuffered | promql/engine.go:2010-2049 | adds exactly the buffered samples of the new part of the window; fails iff they do not fit under the limit |
| RangeWindow.Evaluator.SeekWindow | promql/engine.go:2003-2010 | after the seek the window is what was kept, what the buffer has from there on and the sample sought |
| RangeWindow.Evaluator.AppendSought | promql/engine.go:2051-2077 | adds the sample at the end of the window iff there is one; fails iff it does not fit |
| RangeWindow.Evaluator.MatrixIterSlice | promql/engine.go:1953-2079 | whatever window was handed in, the points handed out are all non-stale samples in [mint, maxt]; fails iff the new points do not fit under the sample limit |
| RangeWindow.SlideWindow | promql/engine.go:1953-2079 | points kept, points buffered and the sample at maxt together are the new window, also when the buffer holds no more than min(range, step) |
| RangeWindow.KeptIsWindow | promql/engine.go:1957-1979 | dropping old points from a window gives the narrower window |
| RangeWindow.BufferMembers | promql/engine.go:2003-2010 | after the seek to maxt the ring holds every sample of its look-back before maxt |
| RangeWindow.Evaluator.EvalStep | promql/engine.go:1479-1507 | one step: window, call if it is not empty, cut of the look-back only then; fails iff the step's points do not fit |
| RangeWindow.Evaluator.EvalSteps | promql/engine.go:1469-1508 | over one series the results are those of a reference that reads every window afresh; fails iff some step does not fit |
| RangeWindow.Evaluator.EvalSeries | promql/engine.go:1469-1516 | one series through a used iterator: fails iff a step or the results beside the last window do not fit |
| RangeWindow.Evaluator.EvalRangeCall | promql/engine.go:1432-1521 | for all series through one reused iterator: every output series has, under the times of the steps, exactly the values that the call gives for the non-empty windows of non-stale samples there, and every input with such a value is listed; fails iff the limit is exceeded by a step or by a result series |
| RangeWindow.ResultsAre | promql/engine.go:1469-1508 | the reference on the samples: a point (t, v) iff t is a step, the samples of the window that ends at t less the offset are not all stale or missing, and the call gives v for them at t |
| RangeWindow.Evaluator.LimitIs | promql/engine.go:1479-1518 | the limit on the samples: exceeded iff, beside the results of the series before, the window of some step or the results beside the last window are too large |
| Subquery.AlignedStartIsLeast | promql/engine.go:1715-1720 | the inner start is the least multiple of the step not below the bound, for negative times as well |
| Subquery.EvalPointsMembers | promql/engine.go:1695-1733 | the inner evaluation has a point at exactly the grid times where the expression has a value |
| Subquery.WindowIsInstant | promql/engine.go:1695-1733 | the window an outer step reads from the one inner evaluation is that of an instant query at that step |
| Subquery.RangeIsInstantAtEachStep | promql/engine.go:1270-1300 | a range function over a subquery gives at each outer step what the instant query gives |
| Subquery.InnerPointsAre | promql/engine.go:1695-1733 | the one inner evaluation has a point at exactly the multiples of the step, in all windows of the outer steps, at which the expression has a value |
| Subquery.SubqueryValue | promql/engine.go:1270-1300 | what an outer step gives: the call's value for the non-stale values at the multiples of the step in its window |
| MemoizedIterator.MemoizedSeriesIterator.Reset | storage/memoized_iterator.go:58-63 | forgets the remembered sample and starts on the first of the new series |
| MemoizedIterator.MemoizedSeriesIterator.PeekPrev | storage/memoized_iterator.go:67-72 | the sample before the current one, an integer histogram as a float one, if it is remembered |
| MemoizedIterator.MemoizedSeriesIterator.Next | storage/memoized_iterator.go:106-127 | one step of the base iterator; remembers the sample passed and never reports an integer histogram |
| MemoizedIterator.MemoizedSeriesIterator.Jump | storage/memoized_iterator.go:78-91 | a far seek forgets what is out of the look-back |
| MemoizedIterator.MemoizedSeriesIterator.Seek | storage/memoized_iterator.go:75-102 | ends where the base iterator's own Seek would end; and where it ends instead if the look-back reaches the sentinel or wraps around int64 |
| MemoizedIterator.VectorSelectorSingle | promql/engine.go:1837-1869 | the latest sample at or before the reference time within the look-back, or nothing if that one is stale or too old |
| MemoizedIterator.SelectSteps | promql/engine.go:1658-1681 | the step loop over one series finds at every step what a fresh lookup finds; fails iff its points do not fit beside the samples counted so far |
| MemoizedIterator.EvalSelector | promql/engine.go:1643-1687 | one iterator, reset for each series and shared by its steps: every row has, under the time of each step, the value of the latest sample at or before it, less the offset, if that is within the look-back and not stale, integer histograms as float ones; fails iff the points of all series do not fit under the sample limit |
| MemoizedIterator.PointsAre | promql/engine.go:1658-1681 | the reference on the samples |
| ChainIterator.UnionIsUnion | storage/merge.go:555-618 | the reference: the sorted times of all inputs without repetition |
| ChainIterator.ChainSampleIterator.constructor | storage/merge.go:451-486 | starts before the first time of the union |
| ChainIterator.ChainSampleIterator.At | storage/merge.go:511-516 | a sample of the current input, at the union's current time |
| ChainIterator.ChainSampleIterator.Start | storage/merge.go:561-572 | the first call advances every iterator but the first and puts those with samples on the heap |
| ChainIterator.Round | storage/merge.go:578-613 | one round of the loop keeps every input read up to the last time and the heap exact |
| ChainIterator.FindNext | storage/merge.go:578-613 | the loop ends, at the iterator with the least new time or when nothing is left |
| ChainIterator.NextInUnion | storage/merge.go:578-613 | that time is the least of the union after the last one |
| ChainIterator.ChainSampleIterator.Next | storage/merge.go:555-618 | one step over the union; consecutive only if the new sample follows the last in the same input, and always if that input leads alone |
| ChainIterator.ChainSampleIterator.Seek | storage/merge.go:488-509 | the first time of the union not before t, from the current one on; never marks a moved iterator consecutive |
| ChainIterator.Drain | storage/merge.go:555-618 | reading to the end gives every time of the union once, in order, with a sample of an input |
| ChunkCompaction.Encode | storage/series.go:281-411 | the chunks together are the series, all but the last full with 120 samples, each with exact times |
| ChunkCompaction.MergeChunks | storage/merge.go:747-758 | overlapping chunks are replaced by ordered ones with exactly their times and only their samples |
| ChunkCompaction.CollectOverlaps | storage/merge.go:712-742 | collects exactly the chunks that overlap the first one, directly or through each other: each overlaps another one collected before it, all others lie after the group, and none is lost |
| ChunkCompaction.CompactChunkIterator.Next | storage/merge.go:694-760 | emits a chunk before everything that is left; times are conserved, no sample is invented, less is left; what it emits is a chunk it was given, unchanged, or has at most 120 samples, and a chunk that no other overlaps is emitted or still overlapped by none |
| ChunkCompaction.CompactAll | storage/merge.go:694-760 | the whole run ends with ordered chunks that hold exactly the times of the inputs and only samples of the inputs; each is an input's chunk or has at most 120 samples, and every chunk that no other overlaps comes out as it was |
| Exemplars.CircularExemplarStorage.constructor | tsdb/exemplar.go:118-131 | an empty ring; a negative length is zero |
| Exemplars.CircularExemplarStorage.ValidateExemplar | tsdb/exemplar.go:221-259 | the verdict against the last exemplar of the series: disabled, labels too long, duplicate, out of order or accepted |
| Exemplars.LabelsTooLong | tsdb/exemplar.go:226-239 | the running check is the check of the whole length in runes |
| Exemplars.LabelLengthSnoc | tsdb/exemplar.go:226-232 | the length of a label set is that of all its names and values |
| Exemplars.CircularExemplarStorage.AddExemplar | tsdb/exemplar.go:336-392 | on the fields: beside the last exemplar of its series, one with the same labels and value is ignored if the times agree or neither has its own, else a later one is stored, pushing out the oldest if the ring is full, and any other is out of order; disabled and too long ones are errors |
| Exemplars.CircularExemplarStorage.LinkNew | tsdb/exemplar.go:358-363 | the series' last item, or a new index entry, refers to the slot about to be written |
| Exemplars.CircularExemplarStorage.DropOldest | tsdb/exemplar.go:365-378 | the overwritten entry leaves its series' list, and a series with no other leaves the index |
| Exemplars.CircularExemplarStorage.Store | tsdb/exemplar.go:365-387 | list links, index and ring are again those of the items held |
| Exemplars.CircularExemplarStorage.Resize | tsdb/exemplar.go:263-311 | keeps the newest items that fit, in order; returns how many, but 0 when the size does not change |
| Exemplars.CircularExemplarStorage.Replay | tsdb/exemplar.go:283-305 | the loop over the old ring migrates exactly the last items that fit |
| Exemplars.CircularExemplarStorage.Migrate | tsdb/exemplar.go:315-334 | one entry takes the next slot and is linked behind its series' last |
| Exemplars.CircularExemplarStorage.SelectSeries | tsdb/exemplar.go:173-182 | walking a series' list gives its exemplars in the range, in order |
| Exemplars.CircularExemplarStorage.OutOfRange | tsdb/exemplar.go:162-167 | a list skipped for its ends has nothing in the range |
| Exemplars.CircularExemplarStorage.Select | tsdb/exemplar.go:151-193 | exactly the matching series with exemplars in the range, each with all of them in the order of their times |
| Exemplars.CircularExemplarStorage.IterateExemplars | tsdb/exemplar.go:418-434 | calls f on the items in arrival order up to the first error |
| Exemplars.VerdictAccepts | tsdb/exemplar.go:221-259 | acceptance keeps every series' timestamps increasing |
| Exemplars.RunKeepsNewest | tsdb/exemplar.go:336-392 | after every run of adds and resizes the ring holds the most recent accepted exemplars in arrival order; without resizes as many as fit |
| Exemplars.RunHoldsExactly | tsdb/exemplar.go:263-311 | how many, resizes included: all that were accepted, or what the tightest moment of the run had room for, its capacity and what was accepted since |
| Exemplars.Execute | tsdb/exemplar.go:263-392 | the storage itself, over any sequence of adds and resizes, holds the items of the run |
| Planner.SelectOverlappingDirs | tsdb/compact.go:283-303 | the first maximal chain of overlapping blocks; nothing iff all are disjoint |
| Planner.WindowStartIsFloor | tsdb/compact.go:318-323 | the window start is the greatest multiple of the range not above the time, for negative times as well |
| Planner.SplitByRange | tsdb/compact.go:309-346 | exactly the groups of consecutive blocks that fit one aligned window, each whole |
| Planner.FirstOfRange | tsdb/compact.go:251-276 | the first group of a range that qualifies, or none |
| Planner.SelectDirs | tsdb/compact.go:244-279 | the first qualifying group of the smallest range with one; nothing iff no group of any range qualifies |
| Planner.PickTombstones | tsdb/compact.go:223-239 | the search from the newest block down stops at the first small or heavily deleted one and picks it unless it is small and not entirely deleted |
| Planner.Plan | tsdb/compact.go:202-240 | a plan is the first overlapping run, else the first qualifying group without the newest block, else a tombstone rewrite; empty iff none of these exists |
| Planner.OverlapIs | tsdb/compact.go:283-303 | blocks overlap iff there is a time in both |
| Planner.LevelPlanIs | tsdb/compact.go:244-346 | a level plan is the first run, for the smallest range with one, of two or more blocks without a failed one that fill an aligned window and span the range or end before the newest block looked at |
| Planner.NothingToMerge | tsdb/compact.go:244-346 | without a plan there is no such run and no overlap |
| Planner.RewritePlanIs | tsdb/compact.go:223-239 | a rewrite plan is the newest block, but for the last, that is below the middle range or has more than 5% tombstones, and if it is below, it is entirely deleted |
| Planner.NothingToRewrite | tsdb/compact.go:223-239 | without a plan that block is none to rewrite |
| Planner.CompactBlockMetas | tsdb/compact.go:350-390 | the merged block's time range is the hull of its parents', its sources the union of theirs, its level one above their highest |
| Planner.MergeKeepsDisjoint | tsdb/compact.go:202-240 | replacing consecutive disjoint blocks by their hull keeps all disjoint |
| Planner.RunMergesApart | tsdb/compact.go:283-303 | the hull of the first overlapping run overlaps no other block |
| Planner.Compact | tsdb/compact.go:398-487 | the new block is the hull of the plan and is written iff samples are left |
| Planner.CompactBlocks | tsdb/db.go:1318-1349 | the loop ends with disjoint blocks for which there is no further plan; every block lies within one that is left or one that came out empty |
| Alerting.AlertingRule.Refresh | rules/alerting.go:406-416 | every label set of the result is active with its new value, resolved ones start again, others stay |
| Alerting.AlertingRule.Step | rules/alerting.go:420-458 | the transition of one alert, present or not |
| Alerting.AlertingRule.Eval | rules/alerting.go:403-472 | the new active map, for every label set |
| Alerting.AlertingRule.SendAlerts | rules/alerting.go:528-546 | on the fields: sends exactly the alerts that are not pending and were never sent, or longer ago than the resend delay, or before they were resolved; records the time and a validity of four times the longer of delay and interval on them alone |
| Alerting.PendingWasPresent | rules/alerting.go:420-458 | a pending alert has been in every result since it became active |
| Alerting.FiringIsEarned | rules/alerting.go:420-458 | a firing alert was in every result over at least the hold duration and has since not been missing for the keep-firing duration |
| Alerting.HeldLongEnoughFires | rules/alerting.go:420-458 | conversely, being in every result over the hold duration makes it fire |
| Alerting.ResolvedIffInactive | rules/alerting.go:437-445 | an active alert carries a resolve time iff it is inactive |
| Alerting.SentBefore | rules/alerting.go:94-105 | the last send is never later than the last evaluation |
| Alerting.ResolutionIsSent | rules/alerting.go:94-105 | a firing alert that is resolved is sent by that evaluation, as resolved |
| Alerting.SentInTime | rules/alerting.go:94-105 | in every run a pending alert was never sent, and any other within the resend delay |
| Alerting.OneEvaluation | rules/alerting.go:403-458 | what one evaluation makes of an alert, state by state: start, firing after the hold duration, keeping while absent, resolving, and forgetting a resolved one after 15 minutes |
| Alerting.Execute | rules/alerting.go:403-546 | the rule itself, evaluated and sent any number of times, has for every label set the alert of its run |
| Notifier.StepKeepsInv | notifier/notifier.go:274-411 | every atomic step of senders and loop keeps conservation, order, bound and the wake-up token |
| Notifier.EveryRun | notifier/notifier.go:274-411 | in every interleaving: each alert is queued, in flight, sent or counted as dropped; order is kept; the queue is bounded; no wake-up is lost |
| Notifier.ExactlyOnePlace | notifier/notifier.go:348-378 | every accepted alert is in exactly one place, once |
| Notifier.TurnShrinksQueue | notifier/notifier.go:301-330 | a waiting loop with alerts queued can run, and a turn takes a batch and wakes the next if any are left |
| Notifier.Manager.Send | notifier/notifier.go:348-378 | the lock-protected part is the step Send: oldest alerts are dropped first, and counted |
| Notifier.Manager.TakeToken | notifier/notifier.go:306-319 | the loop's receive is the step Wake |
| Notifier.Manager.NextBatch | notifier/notifier.go:283-298 | the step TakeBatch: up to 64 alerts from the front |
| Notifier.Manager.Delivered | notifier/notifier.go:322-324 | the step Deliver: a failed batch is counted as dropped |
| Notifier.Manager.QueueLen | notifier/notifier.go:276-281 | the step CheckQueue |
| Notifier.Manager.KickOff | notifier/notifier.go:325-328 | the step Signal |
| Notifier.RunAccounts | notifier/notifier.go:306-378 | in every run sent are exactly the alerts of the batches delivered, and dropped counts those of the failed batches and what did not fit the queue |
| Notifier.SendMeans | notifier/notifier.go:348-378 | of the queue and the new alerts the newest that fit stay, in order |
| Notifier.BatchMeans | notifier/notifier.go:283-298 | a batch is the first 64 alerts, or all |
| Matrix.RangeEval | promql/engine.go:1078-1266 | consuming the input series from the front as steps pass gives at each step the function of the vectors at that step |
| Matrix.LiftAt | promql/engine.go:1138-1252 | the result's vector at every step is what the function gave for that step |
| Matrix.LiftShaped | promql/engine.go:1229-1266 | every output series has points, in order, at steps of the query |
| Matrix.HeadsAreAt | promql/engine.go:1144-1192 | the samples at the front of the consumed series are those of the step |
| AtModifierSteps.EvalIsSem | promql/engine.go:1303-1800 | for every tree: the matrix holds at each step what evaluating the tree at that step alone gives, and there is a matrix iff every step succeeds and no label sets of any two steps become equal under a renaming node |
| AtModifierSteps.UnaryRight | promql/engine.go:1575-1589 | negation with the metric name dropped, and its test for equal label sets over the whole matrix |
| AtModifierSteps.RangeRight | promql/engine.go:1432-1571 | range calls, with the same test after the step loop |
| AtModifierSteps.CollidesIff | promql/engine.go:1585-1588 | that test fails iff two label sets seen at any two steps become equal |
| AtModifierSteps.CopiedAgrees | promql/engine.go:1734-1796 | the single evaluation has exactly one sample a series, so copying never panics, and every step gets its value |
| AtModifierMeaning.ReadsRightIff | promql/engine.go:2982-3012 | a selector is read at its @ time at every step iff its start is right and, with more than one step, it is evaluated once exactly if it has an @ |
| AtModifierMeaning.StampRightIff | promql/engine.go:1347-1366 | the same for the shortcut of timestamp(), which drops the offset of a selector with @ |
| AtModifierMeaning.BareSem | promql/engine.go:2902-2903 | what the pass does not visit, like aggregation parameters, has the reference's value at every step under the condition Bare |
| AtModifierMeaning.CoveredSem | promql/engine.go:2891-2973 | what the pass visits has the reference's value at every step under the condition Covered |
| AtModifierMeaning.InvariantHasOneValue | promql/functions.go:1421-1434 | with functions outside the unsafe list, what the pass calls step invariant has one value for all steps |
| AtModifierMeaning.PreprocessPreservesMeaning | promql/engine.go:2879-3012 | the preprocessed tree, with offsets fixed at the start and invariant parts run once and copied, gives at every step what the per-step reference gives, and succeeds iff the reference succeeds at every step and no label sets of different steps clash; for every covered expression, negations and range calls included |
| AtModifierLimits.CoveredIsExact | promql/engine.go:2879-3012 | an expression a parser can produce is right for every storage and all safe functions iff it is covered: the condition is exact |
| AtModifierLimits.RangeCallIsRight | promql/engine.go:1432-1521 | a range call with any covered arguments is right iff its selector has no @, or the call as a whole is step invariant, or there is one step |
| AtModifierLimits.PredictLinearIsRight | promql/engine.go:1432-1521 | predict_linear over a range with @ is right for one step only |
| AtModifierLimits.RangeWithScalarIsRight | promql/engine.go:1432-1521 | so is a safe function over a range with @ whose scalar argument has none |
| AtModifierLimits.TimestampIsRight | promql/engine.go:1356-1364 | timestamp() of a selector with @ is right iff it has no offset, at any number of steps |
| AtModifierLimits.ParameterIsRight | promql/engine.go:1328-1343 | an aggregation whose scalar parameter reads a selector is right iff that selector is read at the right times without having been visited |
| AtModifierLimits.ParameterReads | promql/engine.go:2902-2903 | which is, for each of no @, @ t, start() and end(): what one step, an invariant vector and equal start and end decide |
| AtModifierLimits.NegationClashes | promql/engine.go:1575-1589 | counterexample: two series at different steps that differ in their name only; every step alone has a value, the range query fails |
| AtModifierEngine.NumberGives | promql/engine.go:1627-1640 | a number has its value, without labels, at every step |
| AtModifierEngine.SelectorGives | promql/engine.go:2982-3012 | the engine reads a selector at its @ time, start() and end() resolved, or at the step, less its offset |
| AtModifierEngine.TimestampGives | promql/engine.go:1347-1366 | and so under timestamp() |
| AtModifierEngine.CallGives | promql/engine.go:1370-1428 | a function is called with the engine's values of its arguments at the step and with the time of the step |
| AtModifierEngine.TimeGives | promql/functions.go:1421-1434 | time() and its like have the time of each step, never that of the start |
| AtModifierEngine.RangeGives | promql/engine.go:1432-1571 | a range function is called on the window that ends at the selector's time, with the arguments' values and the time of the step |
| AtModifierEngine.BinaryGives | promql/engine.go:1591-1638 | a binary operator is applied to the engine's values of its operands, in order |
| AtModifierEngine.UnaryGives | promql/engine.go:1575-1589 | a minus negates every value and drops the names |
| AtModifierEngine.AggregateGives | promql/engine.go:1320-1345 | an aggregation gets the engine's values of its parameter and its vector |
| HistogramQuantile.HistogramQuantile | promql/quantile.go:146-199 | the returned point lies in a bucket with observations and has exactly the share q of all observations below it; the end of the buckets if they hold fewer, because of observations of NaN; the start of the first bucket or NaN for q = 0; not negative without negative buckets and not positive without positive ones; infinities and NaN for the special cases |
| HistogramQuantile.HistogramFraction | promql/quantile.go:232-293 | the difference of the ranks of the two bounds over the count, where a bound past all buckets has the rank of all observations; 0 for an empty interval, NaN without observations |
| HistogramQuantile.QuantileThenFraction | promql/quantile.go:146-293 | the documented inverse: the fraction up to the quantile of q is q iff the buckets hold more than q's rank, or q is 1, or the rank ends at an empty last bucket; for q = 0 iff the first bucket is not empty |
| HistogramQuantile.WholeInverts | promql/quantile.go:201-206 | without observations of NaN that is every q in (0, 1] |
| HistogramQuantile.FractionsAddUp | promql/quantile.go:232-293 | fractions lie in [0, 1], grow with the interval, add up over adjacent ones, and the whole is 1 |
| HistogramQuantile.BelowMonotone | promql/quantile.go:146-293 | the cumulative count is monotone and bounded by the total |
| HistogramQuantile.CumulativeInside | promql/quantile.go:171-183 | observations are spread evenly over their bucket, and over the zero bucket if there are buckets on both sides or on neither |
| HistogramQuantile.CumulativeAboveZero | promql/quantile.go:171-176 | without negative buckets the zero bucket has them evenly above zero and none below |
| HistogramQuantile.CumulativeBelowZero | promql/quantile.go:177-181 | without positive buckets evenly below zero and none above |
| HistogramQuantile.NothingNegative | promql/quantile.go:171-176 | then all quantiles are at least 0, and the fraction below 0 is 0 |
| HistogramQuantile.NothingPositive | promql/quantile.go:177-181 | dually at most 0, and the fraction below 0 is 1 |
| HistogramQuantile.EndsAre | promql/quantile.go:171-191 | with both kinds of buckets, or neither, the extreme quantiles are the ends of the buckets |
| HistogramQuantile.FindBucket | promql/quantile.go:164-170 | the first bucket with which the running count reaches the rank |
| BucketQuantile.Sort | promql/quantile.go:86-86 | sorted by upper bound, same buckets |
| BucketQuantile.CoalesceBuckets | promql/quantile.go:298-312 | in place: one bucket for each bound, in order, with that bound's total count |
| BucketQuantile.MergedUnique | promql/quantile.go:298-312 | that list does not depend on how equal bounds were sorted |
| BucketQuantile.EnsureMonotonic | promql/quantile.go:347-357 | in place: each count becomes the greatest up to it |
| BucketQuantile.EnvelopeMonotonic | promql/quantile.go:347-357 | the envelope is monotone, keeps the bounds and leaves a monotone list alone |
| BucketQuantile.Locate | promql/quantile.go:94-121 | the binary search finds the first bucket that reaches the rank, because counts are monotone |
| BucketQuantile.Answer | promql/quantile.go:104-121 | the value lies in that bucket and interpolating back gives the rank |
| BucketQuantile.BucketQuantile | promql/quantile.go:76-121 | the whole function, from unsorted buckets: the quantile of the envelope of the merged buckets, with every special case |
| BucketQuantile.QuantileWithin | promql/quantile.go:108-121 | of a prepared list: with observations and q > 0 there is a value, within the finite bounds and not below 0 if the first bound is positive |
| BucketQuantile.QuantileMonotone | promql/quantile.go:76-121 | of a prepared list: a greater q never has a smaller quantile |
| BucketQuantile.OrderDoesNotMatter | promql/quantile.go:76-121 | for any q and any buckets the result depends on which buckets there are, not on their order |
| BucketQuantile.QuantileExists | promql/quantile.go:58-121 | from the bucket list: for q in (0, 1], counts not negative and no bound at minus infinity, there is a value iff there is a bound at infinity, a finite one and some count; it is finite and within the finite bounds |
| BucketQuantile.QuantilesOrdered | promql/quantile.go:58-121 | two calls on the same buckets, however ordered: both results are finite, within the bounds, and the greater q has the greater or equal one |
| BucketQuantile.QuantileDivides | promql/quantile.go:104-121 | on a list that needs no preparation: the quantile divides its bucket as its rank divides the bucket's observations; the first bucket starts at 0, or is its bound if that is not positive; the last is the bound before it |
| ExtrapolatedRate.CounterIncrease | promql/functions.go:103-114 | the reset loop computes the sum of the per-step increases |
| ExtrapolatedRate.RisesSplit | promql/functions.go:103-114 | increases add up over a range cut at a sample |
| ExtrapolatedRate.NoResets | promql/functions.go:103-114 | without resets the increase is last minus first |
| ExtrapolatedRate.NeverTooMuch | promql/functions.go:103-114 | for every true history of a counter the increase does not exceed its growth, and equals it iff each step is seen whole |
| ExtrapolatedRate.Extend | promql/functions.go:120-157 | the interval the result is extended to |
| ExtrapolatedRate.ExtrapolatedRate | promql/functions.go:67-169 | the samples' average slope over the extended interval, per second for rates; nothing for fewer than two samples |
| ExtrapolatedRate.ExtensionIs | promql/functions.go:120-157 | in numbers: each end is carried to the end of the range if that is less than 1.1 average intervals away, half an interval otherwise; for a counter no further than where it would be zero |
| ExtrapolatedRate.RateTimes | promql/functions.go:158-161 | the result in terms of change, sampled and covered seconds |
| ExtrapolatedRate.ExtendedWithinRange | promql/functions.go:141-157 | the extended interval is at least the sampled one and at most the range |
| ExtrapolatedRate.NotBelowZero | promql/functions.go:127-139 | a counter is never extrapolated to a negative value |
| ExtrapolatedRate.LineHasItsSlope | promql/functions.go:120-161 | a straight line with samples near both ends of the range has its slope as rate |
| Varint.SizeIsLength | prompb/types.pb.go:2379-2381 | the size computed from the bit length is the number of bytes of the varint |
| Varint.EncodeVarint | prompb/types.pb.go:1997-2007 | the varint is written so that it ends at the offset; nothing else is touched |
| Varint.ReadEncoded | prompb/types.pb.go:2557-2570 | reading a varint gives back the value and its length, whatever follows |
| Varint.DecodeVarint | prompb/types.pb.go:2557-2570 | the shift loop gives the value modulo the Go type's size, or fails at the end of data or after ten bytes |
| Varint.ZigZagRoundTrip | prompb/types.pb.go:1602-1602 | the 32-bit and 64-bit bit operations are ZigZag, and reading undoes it for every int32 |
| Varint.Fixed64 | prompb/types.pb.go:1303-1307 | eight little-endian bytes read back as the value |
| Varint.PutFixed | prompb/types.pb.go:1303-1307 | writes them in place and nothing else |
| Wire.SkipTypes | prompb/types.pb.go:4357-4434 | the loop over nested groups ends where the specification says or fails |
| Wire.SkipKept | prompb/types.pb.go:4357-4434 | skipping looks only at what it skips |
| Wire.AllUnknownSnoc | prompb/types.pb.go:2610-2623 | unknown fields kept one after the other can be read back as unknown fields |
| Prompb.LabelSizeIsLength | prompb/types.pb.go:2232-2250 | Size of a label is the length of its encoding |
| Prompb.SampleSizeIsLength | prompb/types.pb.go:2035-2051 | Size of a sample is the length of its encoding |
| Prompb.SpanSizeIsLength | prompb/types.pb.go:2178-2194 | Size of a span, taken from the 64-bit ZigZag, is the length of the 32-bit one's encoding |
| Prompb.SeriesSize | prompb/types.pb.go:2196-2230 | Size of a time series is the length of its encoding |
| Prompb.MarshalLabel | prompb/types.pb.go:1707-1731 | writing backwards puts the encoding at the end of the buffer and nothing else |
| Prompb.MarshalSample | prompb/types.pb.go:1289-1310 | the same for a sample |
| Prompb.MarshalSpan | prompb/types.pb.go:1587-1607 | the same for a span |
| Prompb.MarshalSeries | prompb/types.pb.go:1624-1690 | the same for a time series, with its loops from the last element down |
| Prompb.Marshal | prompb/types.pb.go:1609-1617 | the buffer of Size bytes is filled exactly, so its first n bytes are the encoding |
| Prompb.MarshalBucketSpan | prompb/types.pb.go:1572-1580 | the same for a span |
| Prompb.UnmarshalLabel | prompb/types.pb.go:3551-3665 | the field loop computes the parse, errors included |
| Prompb.UnmarshalSample | prompb/types.pb.go:2551-2631 | the field loop computes the parse, errors included |
| Prompb.UnmarshalSpan | prompb/types.pb.go:3273-3363 | the field loop computes the parse, errors included |
| Prompb.UnmarshalSeries | prompb/types.pb.go:3364-3550 | the field loop computes the parse, errors included |
| Prompb.LabelRoundTrip | prompb/types.pb.go:1707-1731 | every label, unknown fields included, is read back as it was |
| Prompb.SampleRoundTrip | prompb/types.pb.go:1289-1310 | every sample is read back as it was, negative timestamps included, but minus zero as zero |
| Prompb.SpanRoundTrip | prompb/types.pb.go:1587-1607 | every span is read back as it was, negative offsets included |
| Prompb.SeriesRoundTrip | prompb/types.pb.go:1624-1690 | a time series is read back up to minus zeros, and exactly iff it holds none |
| Prompb.ReadWriteRead | prompb/types.pb.go:3364-3550 | whatever bytes a time series was read from, it can be written again in no more bytes and reads back the same up to minus zeros |
| Prompb.WriteThenRead | prompb/types.pb.go:1609-1690 | Marshal followed by Unmarshal |
| Prompb.WriteThenReadSpan | prompb/types.pb.go:1572-1607 | Marshal followed by Unmarshal, for spans |
| WireFormat.ReadDigits | prompb/types.pb.go:2557-2570 | at most ten bytes with the high bit on all but the last are their number to base 128, minimal or not |
| WireFormat.ReadNothing | prompb/types.pb.go:2557-2570 | bytes that end or pass ten without one below 128 are an error |
| WireFormat.LabelOnWire | prompb/types.pb.go:1707-1731 | in the terms of the wire format: name in field 1, value in field 2, length-delimited, empty ones left out |
| WireFormat.SampleOnWire | prompb/types.pb.go:1289-1310 | value as a little-endian double in field 1, time as a varint in field 2, zeros left out |
| WireFormat.SpanOnWire | prompb/types.pb.go:1587-1607 | offset as a ZigZag varint in field 1, length in field 2 |
| WireFormat.SeriesOnWire | prompb/types.pb.go:1624-1690 | labels in fields 1 and samples in fields 2, in order |
| WireFormat.WrongTypeFails | prompb/types.pb.go:2571-2623 | a known field with another wire type and an end-group are errors in every message |
| WireFormat.UnknownIsSkipped | prompb/types.pb.go:4357-4434 | a field of any wire type, groups nested to any depth included, is skipped exactly, whatever follows |
| WireFormat.NoSuchType | prompb/types.pb.go:4357-4434 | wire types 6 and 7 are errors |

## Left out

- Histogram samples in the ring and in range windows: the ring, the buffered iterator and the range window are modelled for float samples; the histogram branches repeat the same steps on other buffers.
- Prompb.UnmarshalSeries: exemplars and histograms are left out, so it fails on fields 3 and 4; the messages repeat the pattern of the modelled ones.
- Error values: a protobuf decoder fails or succeeds in the model, without the kind of error.
- Order of series: vectors, matrices and the results of exemplar queries are maps in the model, so that sorting and tie-breaking by order are not captured.
- MemoizedIterator.VectorSelectorSingle: for reference times whose look-back starts after the least int64; `Seek` says what happens before that. The same holds of the start of an EvalSelector or range query.
- Exemplars.CircularExemplarStorage.Select: the order of the series returned, which is sorted by labels.
- Matrix.RangeEval: without the limit on samples, which the models of both kinds of selector have.
- AtModifierMeaning.PreprocessPreservesMeaning: without subqueries and string literals; `absent_over_time` and the grouping of aggregations are part of the operators, which are parameters.
- AtModifierMeaning.CoveredSem: the tree is rewritten as a value, so the in-place update of its nodes is not captured; the passes run once on a tree of their own.
- AtModifierMeaning.InvariantHasOneValue: assumes of the functions outside the unsafe list that they do not look at the evaluation time; the functions themselves are parameters.
- HistogramQuantile.HistogramQuantile: for histograms whose buckets have positive width, are in order, do not overlap and count no more than the total; others have no order of ranks to speak of.
- HistogramQuantile.HistogramFraction: for the same histograms; bounds of NaN are left out.
- BucketQuantile.BucketQuantile: q and counts are reals, so a q of NaN and rounding are not modelled.
- ExtrapolatedRate.ExtrapolatedRate: the float branch only; exact reals instead of rounding.
- Notifier: relabelling, discovery and HTTP delivery; a delivery is a step with a result.
- Alerting.AlertingRule.Eval: without templates, the limit on alerts and the samples written for alerts; restoring of state after a restart is left out.
- Planner.CompactBlockMetas: without the list of parents and the order of the sources, which are a set.
- Planner.CompactBlocks: the populated block and the names of new blocks are parameters; failures and shutdown in the middle of the loop are left out.
- ChunkCompaction.MergeChunks: chunk encodings are not modelled, a chunk is its samples; histogram chunks are left out.
- Scraping, service discovery, the head block and write-ahead log, remote read and write queues, the web interface and the PromQL parser are not part of this model.
