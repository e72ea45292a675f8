# Bond trade-print feature and target engine — a Dafny model

This project models the online, per-security feature and target engine for
bond trade prints ("trace prints"). The engine reads a time-ordered batch of
prints for a query security and the securities that are on the run for it.
For each security it keeps windowed state and turns each print into a row of
features, plus a row of targets for the query security. It then pairs each
feature row of the query security on the selected date with the latest
earlier row of that day's on-the-run security. Separately, it exchanges
messages over a JSON codec.

Everything is modelled as pure functions that return `(result, newState)`.
Failures use `Result`:
- `Err` is the source's routine `(None, err)` return, which the caller counts
  and skips.
- `Fatal` is an uncaught exception or a failed `assert`, which stops the run.

Modules follow the program:

| module | models |
|---|---|
| `Window` | `collections.deque(maxlen=k)` |
| `Aggregators` | `VolumeWeightedAverage`, `TimeVolumeWeightedAverage` |
| `OasspreadHistory` | `OasspreadHistory` |
| `Interarrival` | `InterarrivalTime` |
| `TradetypeContext` | `TraceTradetypeContext` |
| `Fundamentals` | `Fundamentals._get` |
| `Composition` | `TraceRecord.make_features` |
| `Filters` | `transform_trace_prints` |
| `Driver` | the record loop of `do_work` |
| `AsofMerge` | the primary/on-the-run merge of `do_work` |
| `TargetMaker` | `TargetMaker._make_targets_values`, `append_targets` |
| `DateTimeCodec` | `datetime.isoformat()` and `str_to_datetime` |
| `Messages` | the `Message` classes and `from_string` |

`Records`, `Text`, `Seqs` and `Wrappers` hold shared types and helpers.

The following are parameters of the model rather than code:
- The order-imbalance reclassifier is a function that returns a new
  reclassifier state and `(imbalance, side, error)`.
- `math.exp` of the days elapsed is a function `weight`. Only the lemmas
  constrain it: `weight(0.0) == 1.0`, and positive weights in the one worked
  example.
- The features and targets accumulators are generic accumulate functions.
  seven/accumulators.py is not part of this model.

Timestamps are whole microseconds since an epoch, and a print's date is its
day number. Spreads are `real`, or `NaN` where the source tests for NaN.
The model follows the code. In particular, a feature name produced by two makers is not an error: `all_features.update` (seven/feature_makers.py:824) lets the last maker win (`Composition.UnionAllLastWins`), where a uniqueness check might be expected.

## Model

| member | source | states |
|---|---|---|
| Window.Last | seven/feature_makers.py:307 | the last `k` elements, or all when fewer: the contents of a `deque(maxlen=k)` |
| Window.Push | seven/feature_makers.py:312 | an append never leaves more than `k` elements in a `deque(maxlen=k)` |
| Window.PushKeepsNewest | seven/feature_makers.py:312 | an append keeps the newest `k` of the held elements followed by the new one: it grows by one until full, then stays at `k`, and the new element is the newest |
| Window.PushLast | seven/feature_makers.py:312 | appending to a full-or-not deque of the last `k` of `xs` gives the last `k` of `xs + [x]` |
| Window.PushAllFromEmpty | seven/feature_makers.py:747-751 | appending a whole sequence to an empty bounded deque leaves exactly its last `k` elements, oldest evicted first |
| Window.PushAllFrom | seven/feature_makers.py:747-751 | appending `xs` to the window of `pre` gives the window of `pre + xs` |
| Aggregators.NewVolumeWeightedAverage | seven/feature_makers.py:744-747 | construction succeeds exactly for `k > 0`, with an empty history; otherwise the assertion fails |
| Aggregators.WeightedAverage | seven/feature_makers.py:749-761 | the pair is appended to the bounded history; a result exactly when `k` pairs are held and the volume sum is nonzero, and then it is Σ(a·v)/Σv over the history; never fatal |
| Aggregators.FeedPairsHistory | seven/feature_makers.py:747-751 | after feeding any nonempty sequence the history is its last `k` pairs |
| Aggregators.VolumeWeightedAverageWindow | seven/feature_makers.py:749-761 | after feeding `xs`, a result exactly when at least `k` pairs were fed and the last `k` have nonzero volume, and then it is their Σ(a·v)/Σv |
| Aggregators.ExampleK | seven/feature_makers.py:749-761 | a window with known sums yields exactly their quotient |
| Aggregators.VolumeWeightedAverageTest | seven/feature_makers.py:764-785 | on the test data, k=3 gives 700/3 (233.33) and k=4 gives an error |
| Aggregators.VolumeWeightedAverageShortWindows | seven/feature_makers.py:768-770 | on the test data, k=1 gives 300 and k=2 gives 260 |
| Aggregators.NewTimeVolumeWeightedAverage | seven/feature_makers.py:577-580 | construction succeeds exactly for `k > 0`, with an empty history; otherwise the assertion fails |
| Aggregators.DecayedSums | seven/feature_makers.py:600-607 | the decayed sums are defined exactly when no retained timestamp is later than now (the `days_back <= 0` assertion), and are then Σ(a·v·w) and Σ(v·w) |
| Aggregators.TimeWeightedAverage | seven/feature_makers.py:582-610 | the triple is appended to the bounded history; an error until `k` are held; then fatal exactly when a retained timestamp is later than the current one; a result exactly when the weighted volume is also nonzero, equal to the weighted quotient |
| Aggregators.FeedStampedHistory | seven/feature_makers.py:580-597 | after feeding any nonempty sequence the history is its last `k` triples |
| Aggregators.TimeVolumeWeightedAverageWindow | seven/feature_makers.py:597-610 | after feeding `xs`: an error while fewer than `k`; fatal exactly when one of the last `k` is later than the last timestamp; otherwise the decayed quotient over the last `k` |
| Aggregators.NoElapsedTimeSums | seven/feature_makers.py:603-607 | when every retained print is at the current time, the decayed sums equal the plain sums |
| Aggregators.DecayedAgreesWithPlain | seven/feature_makers.py:597-610 | with no time elapsed, the time-weighted average and the plain volume-weighted average agree in outcome and value |
| Aggregators.ThreeSums | seven/feature_makers.py:602-607 | the weighted sums over three retained triples, term by term |
| Aggregators.TestStampsDaysBack | seven/feature_makers.py:584-595 | the test times are 30 and 5 minutes (as fractions of a day) before the last one |
| Aggregators.TimeVolumeWeightedAverageTest | seven/feature_makers.py:620-624 | on the test data with k=3 the result is (100·10·w₁ + 200·20·w₂ + 300·30)/(10·w₁ + 20·w₂ + 30) |
| OasspreadHistory.NewHistory | seven/feature_makers.py:300-307 | construction succeeds exactly for `k >= 0` (a negative `maxlen` raises), with both buffers empty |
| OasspreadHistory.KeyDecode | seven/feature_makers.py:331-334 | the feature name `p_oasspread_T_back_NN` determines its side and depth: names are injective |
| OasspreadHistory.SideFeatures | seven/feature_makers.py:330-335 | one feature per buffered spread of a side, `back_b` holding the `b`-th most recent |
| OasspreadHistory.Features | seven/feature_makers.py:328-335 | `2k` features, all named `p_oasspread_{B,S}_back_NN` with `1 <= NN <= k`, `back_01` the most recent spread of its side and `back_k` the oldest |
| OasspreadHistory.MakeFeatures | seven/feature_makers.py:309-337 | never fatal; an unknown side is an error and changes nothing; a known side always appends its spread to its own buffer only; features exactly when both buffers were full before the append, and then the `2k` features of the buffers before the append |
| OasspreadHistory.FeedHistory | seven/feature_makers.py:305-312 | after any sequence of prints each buffer holds the last `k` spreads of its side |
| OasspreadHistory.FeedReady | seven/feature_makers.py:314-325 | features for the last print exactly when its side is known and at least `k` spreads of each side came before it |
| OasspreadHistory.OasspreadHistoryTestFilling | seven/feature_makers.py:362-385 | the first four test steps are errors, and the buffers fill as the test expects |
| OasspreadHistory.ShowsFull | seven/feature_makers.py:386-392 | with full buffers and a known side, the four `back` features show the buffered spreads |
| OasspreadHistory.OasspreadHistoryTest5 | seven/feature_makers.py:367 | test step 5 shows 100, 101, 103, 104 |
| OasspreadHistory.OasspreadHistoryTest6 | seven/feature_makers.py:368 | test step 6 shows 101, 102, 103, 104 |
| OasspreadHistory.OasspreadHistoryTest7 | seven/feature_makers.py:369 | test step 7 shows 101, 102, 104, 105 |
| OasspreadHistory.OasspreadHistoryTest8 | seven/feature_makers.py:370 | test step 8 shows 101, 102, 105, 106 |
| OasspreadHistory.OasspreadHistoryTest9 | seven/feature_makers.py:371 | test step 9 shows 102, 103, 105, 106 |
| OasspreadHistory.OasspreadHistoryTestEvictions | seven/feature_makers.py:362-372 | from step 5 on, each append evicts the oldest spread of its side, as the next step's expectations require |
| Interarrival.ToTimedelta | seven/feature_makers.py:256-258 | the normalised `timedelta` of a gap: seconds and microseconds within range, and together equal to the gap |
| Interarrival.WholeSeconds | seven/feature_makers.py:259 | `days·86400 + seconds` is the gap rounded down to whole seconds, and is nonnegative exactly when the gap is |
| Interarrival.WholeSecondsExact | seven/feature_makers.py:259 | a gap of whole seconds is reported exactly |
| Interarrival.Observe | seven/feature_makers.py:249-265 | the first print is an error and is remembered; a later print earlier than the remembered one fails the assertion; otherwise the gap in whole seconds, and the print is remembered |
| Interarrival.MakeFeatures | seven/feature_makers.py:247-265 | the single feature `interarrival_seconds_size` carries the gap; failures pass through |
| Interarrival.RunAscending | seven/feature_makers.py:252-265 | on any nondecreasing sequence of times: an error first, then each whole-second gap to the previous time, with the last time remembered |
| Interarrival.RunLast | seven/feature_makers.py:256-264 | one more nondecreasing time extends the outcomes by its gap |
| Interarrival.InterarrivalTimeTest | seven/feature_makers.py:271-290 | the test's five prints give an error, then 0, 1, 19 and 0 |
| TradetypeContext.NewContext | seven/feature_makers.py:671-676 | a new context has no priors |
| TradetypeContext.FirstMissing | seven/feature_makers.py:715-721 | none exactly when B, D and S all have a prior spread; otherwise a raw type without one |
| TradetypeContext.UpdateContext | seven/feature_makers.py:678-729 | an unknown raw type fails the assertion; a NaN field is an error that changes nothing; a clean print always advances the reclassifier to its next state; a reclassifier error is prefixed and leaves the priors alone; a verdict with no error but no imbalance or no B/S side fails the assertion; priors change only under this print's raw type; success records this print's spread, price and quantity, reports the reclassifier's own imbalance and side (B or S), and means all three raw types have priors |
| TradetypeContext.MissingAnyPriorOasspread | seven/feature_makers.py:731-740 | no message exactly when all three raw types have a prior spread; otherwise the message lists the types without one, in B, D, S order, as Python prints a list |
| TradetypeContext.MissingMessageExample | seven/feature_makers.py:737-740 | with only a B prior, the message is `missing prior oasspread for trade type ['D', 'S']` |
| TradetypeContext.Missing | seven/feature_makers.py:733-736 | the listed types are exactly those without a prior |
| TradetypeContext.NeverReadyWithout | seven/feature_makers.py:710-717 | while no print of some raw type arrives, that type never gains a prior and no update succeeds |
| TradetypeContext.RecordedAfterOk | seven/feature_makers.py:710 | after a successful update the print's spread is the prior for its raw type |
| TradetypeContext.AcceptedStep | seven/feature_makers.py:710-729 | once the reclassifier accepts a clean print, its spread is recorded, and the update succeeds exactly when all three raw types have priors, otherwise naming the first one missing |
| TradetypeContext.ReadyOnceAllSeen | seven/feature_makers.py:710-729 | prints of types D, B, S in turn give "no prior for B", "no prior for S", then success |
| Fundamentals.Max | seven/feature_makers.py:187-190 | the latest date of a nonempty set |
| Fundamentals.Get | seven/feature_makers.py:183-196 | an unknown logical name raises `KeyError`; a value exactly when some stored date is on or before the query date, and then the value stored at the latest such date |
| Fundamentals.AsOfUnique | seven/feature_makers.py:187-190 | the as-of date is unique |
| Fundamentals.AsOfMonotone | seven/feature_makers.py:183-190 | a later query date never selects an earlier stored date |
| Composition.Loop | seven/feature_makers.py:820-827 | makers run in order, each from its own state and with the fields the earlier makers propagated; the recorded outputs are exactly what they returned; success exactly when every maker succeeded, with the union of their outputs; otherwise the first maker that did not succeed decides: its error prefixed with its name, its exception passed through, or, as written, the KeyError when it emitted the propagated field; makers after it keep their state |
| Composition.MakeFeatures | seven/feature_makers.py:817-829 | the corrected composition from no features: every maker that ran returned exactly the recorded features, given the fields propagated before it; success exactly when all succeeded, with the union of their features; otherwise the first failing maker's prefixed error or exception, and the later makers keep their state |
| Composition.MakeFeaturesAsWritten | seven/feature_makers.py:817-829 | the composition as written: as the corrected one, except that a maker emitting the propagated field stops the run with the KeyError |
| Composition.UnionAllKeys | seven/feature_makers.py:824 | a feature is in the union exactly when some maker produced it |
| Composition.UnionAllLastWins | seven/feature_makers.py:824 | on a shared feature name the last maker that produced it wins |
| Composition.UnionAllKeep | seven/feature_makers.py:824 | a feature no later maker produces keeps its value |
| Composition.AgreeWithoutPropagation | seven/feature_makers.py:825-827 | when no maker emits the propagated field, the as-written and corrected compositions agree |
| Composition.PropagationCounterexample | seven/feature_makers.py:827 | a first maker that emits `reclassified_trade_type` makes the as-written composition raise, while the corrected one hands the side on |
| Filters.Select | v1/features_targets.py:200-201 | a mask keeps only records that satisfy it, never more than its input |
| Filters.SelectCount | v1/features_targets.py:200-201 | a mask keeps every copy of an accepted record and none of a rejected one |
| Filters.SelectSelect | v1/features_targets.py:290-295 | two masks in turn are their conjunction |
| Filters.SelectRelevantCusips | v1/features_targets.py:220-253 | the prints of the query security and its on-the-run securities; stops exactly when an on-the-run security has no print but a print falls on one of its dates |
| Filters.Insert | v1/features_targets.py:296 | inserting into a time-ordered sequence keeps it ordered and adds exactly one copy of the record |
| Filters.SortByTime | v1/features_targets.py:296 | the result is time-ordered and a permutation of the input |
| Filters.SortSorted | v1/features_targets.py:296 | records already in time order are left as they are |
| Filters.TransformTracePrints | v1/features_targets.py:286-303 | never a routine error; it stops exactly when the input files disagree on the prints of the relevant dates; the result is time-ordered |
| Filters.TransformKeepsRelevant | v1/features_targets.py:290-296 | the result holds exactly the prints on relevant dates, for relevant securities, with a spread, each as often as in the input |
| Driver.AfterDay | v1/features_targets.py:431-432 | a print is after the selected date exactly when its day number is greater |
| Driver.StopPoint | v1/features_targets.py:430-433 | the loop stops at the first print after the selected date: none before is after it |
| Driver.ExpectedLog | v1/features_targets.py:418-474 | one expected outcome per processed print |
| Driver.ExpectedLogAt | v1/features_targets.py:418-474 | each entry of the expected log is the expected outcome of its print |
| Driver.Process | v1/features_targets.py:399-474 | one features accumulator per security, and one outcome per processed print |
| Driver.DoWork | v1/features_targets.py:399-474 | one accumulator per security; exactly the prints up to the first one after the selected date are processed |
| Driver.ProcessAgrees | v1/features_targets.py:438-456 | after the loop, each security's accumulator has seen exactly that security's prints in order; the targets accumulator has seen exactly the query security's prints whose features succeeded; each outcome is the expected one |
| Driver.Step | v1/features_targets.py:438-456 | only the print's own security's features accumulator advances, by this print; a refused print is counted and leaves the targets accumulator alone; an accepted print of another security creates a row; an accepted print of the query security advances the targets accumulator |
| Driver.TargetStep | v1/features_targets.py:439-456 | feature errors end the pass without consulting the targets accumulator; another security's print is a created row; a query-security print is offered to the targets accumulator, and the outcome is created exactly when it reports no error, otherwise its errors |
| Driver.StepAgrees | v1/features_targets.py:437-456 | one pass of the loop body preserves that agreement |
| Driver.OutcomeStep | v1/features_targets.py:447-456 | one pass gives the expected outcome and extends the targets accumulator's inputs correctly |
| Driver.FeaturesStep | v1/features_targets.py:438 | one pass keeps every security's accumulator equal to its fold over that security's prints so far |
| Driver.TargetInputsAccepted | v1/features_targets.py:438-449 | every print that reaches the targets accumulator is a print of the query security whose features succeeded |
| Driver.TargetInputsSkip | v1/features_targets.py:439-447 | a print of another security, or one whose features failed, does not reach the targets accumulator |
| Driver.CreatedOnDate | v1/features_targets.py:458-466 | the counter is positive exactly when some processed print of the query security on the selected date was accepted |
| AsofMerge.OnDate | v1/features_targets.py:503-505 | the primary rows whose date is the selected date, all of them |
| AsofMerge.OnDatePositions | v1/features_targets.py:503-505 | the selection is the table's rows at exactly the positions on the selected date, in increasing order: `.loc[mask]` keeps table order |
| AsofMerge.OnDateCount | v1/features_targets.py:503-505 | the selection holds every copy of a row on the selected date and no copy of any other row |
| AsofMerge.LatestBefore | v1/features_targets.py:541-550 | a row exactly when some row is strictly earlier than `t`; it is such a row, and none of them is later |
| AsofMerge.RenamePrimaryInverse | v1/features_targets.py:553 | the primary renaming is injective |
| AsofMerge.RenameOtrInverse | v1/features_targets.py:556 | the on-the-run renaming is injective |
| AsofMerge.RenameDisjoint | v1/features_targets.py:552-557 | no primary name equals an on-the-run name |
| AsofMerge.PrimaryPart | v1/features_targets.py:552-554 | every primary feature appears under its new name, with nothing else |
| AsofMerge.OtrPart | v1/features_targets.py:555-557 | every on-the-run feature appears under its new name, with nothing else |
| AsofMerge.MergeFeatures | v1/features_targets.py:551-557 | every feature of both rows is present under its new name with its value, none overwritten, and nothing else |
| AsofMerge.MergeOne | v1/features_targets.py:522-564 | the three reasons to skip, in order; a missing accumulator raises `KeyError`, and nothing else does; a merged row exactly when the on-the-run table has a row strictly earlier than the primary row, and then it is under the primary row's index, joined with the latest such row |
| AsofMerge.Against | v1/features_targets.py:533-564 | against a table: no rows is one skip, no earlier row another; a merged row exactly when some row is strictly earlier, joined with the latest of them |
| AsofMerge.Outcomes | v1/features_targets.py:513-564 | the outcome of each primary row, in order |
| AsofMerge.MergedInMembers | v1/features_targets.py:558-564 | a row is among the merged rows exactly when it is some outcome's merged row |
| AsofMerge.SkippedInMembers | v1/features_targets.py:522-549 | a reason is among the skip reasons exactly when it is some outcome's skip |
| AsofMerge.Collect | v1/features_targets.py:513-564 | the loop stops at the first failing outcome (as written, also at the first skip); otherwise it keeps every merged row and every skip reason, in row order |
| AsofMerge.Merge | v1/features_targets.py:513-564 | every primary row is merged or skipped; the corrected merge fails exactly when some row's security has no accumulator; as written, a run that succeeds skipped nothing; the merged rows and skip reasons are the rows' outcomes in row order |
| AsofMerge.MergeFromRows | v1/features_targets.py:522-564 | a row is merged exactly when some primary row merges to it, and a reason is recorded exactly when some primary row is skipped for it |
| AsofMerge.CollectAsWritten | v1/features_targets.py:516-520 | the source's bookkeeping gives the corrected result when nothing is skipped, and raises when something is |
| AsofMerge.MergeAsWritten | v1/features_targets.py:516-520 | as written, the merge equals the corrected one when nothing is skipped, and raises as soon as something is |
| AsofMerge.SkipCounterexample | v1/features_targets.py:520-530 | a row with no on-the-run mapping is skipped by the corrected merge and raises as written |
| AsofMerge.MergeStage | v1/features_targets.py:497-511 | nothing is merged when no accepted query print fell on the selected date or the table has no row on it; otherwise the corrected merge (a skip is counted, not the TypeError of line 520) runs over that day's rows |
| TargetMaker.MakeTargetsValues | seven/target_maker.py:76-101 | only this security's clock moves, and it moves before the NaN check; an interarrival error is prefixed and an interarrival exception passes through; a NaN spread is an error; an unknown trade type fails the assertion; a known gap, a finite spread and a raw trade type always give a row; success gives `target_oasspread == id_oasspread ==` the spread, the gap as `target_interarrival_seconds`, and the trace index |
| TargetMaker.AppendTargets | seven/target_maker.py:51-74 | failure returns the error and leaves the table alone; success appends exactly one row, under the trace index |
| TargetMaker.Run | seven/target_maker.py:51-74 | each print offered under its own trace index adds at most one row |
| TargetMaker.Accepted | seven/target_maker.py:61-63 | the positions of exactly the accepted prints, in increasing order |
| TargetMaker.AcceptedSnoc | seven/target_maker.py:61-63 | one more print adds its position to the accepted ones exactly when it is accepted |
| TargetMaker.RunSnoc | seven/target_maker.py:61-72 | one more print appends its row, made from the state the earlier prints left, exactly when it is accepted, and leaves the table alone otherwise |
| TargetMaker.ClockPerSecurity | seven/target_maker.py:78-79 | each security's clock is the interarrival clock run over that security's prints alone |
| TargetMaker.RowsAreIndexed | seven/target_maker.py:61-72 | the table holds one row per accepted print, in stream order, each under that print's own trace index and holding the targets made for it |
| DateTimeCodec.ParseInt | shared_message.py:51-58 | `int(s)` succeeds exactly on a nonempty run of digits, and otherwise raises `ValueError` |
| DateTimeCodec.Construct | shared_message.py:51-58 | `datetime.datetime(...)` succeeds exactly on a valid date and time, and keeps the fields |
| DateTimeCodec.Build | shared_message.py:49-59 | a result exactly when every piece is a numeral and they spell a valid date and time, and then the fields are those numbers, with microsecond 0 when there is no fraction |
| DateTimeCodec.StrToDateTime | shared_message.py:44-59 | never a routine error; a string without exactly one `T` raises; a result is the valid datetime the `T`, `-`, `:` and `.` pieces spell, and whenever they spell a valid datetime it is the result |
| DateTimeCodec.IsoFormat | shared_message.py:398-406 | `isoformat()` is 19 characters, or 26 with a nonzero microsecond, with `-`, `-`, `T`, `:`, `:` at positions 4, 7, 10, 13, 16 and `.` at 19 |
| DateTimeCodec.LayoutPieces | shared_message.py:46-48 | the `isoformat()` layout splits into the date and time pieces the parser expects |
| DateTimeCodec.RoundTrip | shared_message.py:398-406 | `str_to_datetime(d.isoformat()) == d` for every valid datetime |
| DateTimeCodec.StrToDateTimeTest | shared_message.py:398-406 | the two test datetimes round-trip |
| DateTimeCodec.ShortFraction | shared_message.py:49-54 | a one-digit fraction `.f` is read as `f` microseconds, not as `f` tenths of a second |
| Messages.AsDict | shared_message.py:87-92 | every dictionary holds `message_type` (the class name), `source` and `identifier`; only a trace print's `datetime` is a datetime |
| Messages.Encode | shared_message.py:244-247 | the JSON form holds the class name as `message_type` |
| Messages.EncodeIsAsDict | shared_message.py:244-247 | the JSON form is the dictionary form with the datetime written by `isoformat()` |
| Messages.Get | shared_message.py:97-100 | reading a missing key raises `KeyError` |
| Messages.ReadTime | shared_message.py:269 | a string is read by `str_to_datetime`, with its outcome; any other value raises, having no `split` |
| Messages.FromDict | shared_message.py:96-101 | a decoded message has the requested class, a valid datetime, and the dictionary's `source` and `identifier` |
| Messages.TracePrintFromDict | shared_message.py:262-274 | a trace print exactly when all seven keys are present and the datetime text parses; then every field is the value under its key, the datetime parsed |
| Messages.FromString | shared_message.py:361-383 | a non-object fails the assertion; a known `message_type` names the decoded class; any other raises |
| Messages.RoundTrip | shared_message.py:408-549 | `from_string(str(m)) == m` for every message with a valid datetime |
| Messages.BareRoundTrip | shared_message.py:519-549 | `BackToZero`, `OutputStart` and `OutputStop` round-trip |
| Messages.SetPrimaryOTRsRoundTrip | shared_message.py:420-442 | `SetPrimaryOTRs` round-trips, the on-the-run list element by element |
| Messages.SetVersionRoundTrip | shared_message.py:444-463 | `SetVersion` round-trips |
| Messages.TracePrintCancelRoundTrip | shared_message.py:501-517 | `TracePrintCancel` round-trips |
| Messages.TracePrintRoundTrip | shared_message.py:465-499 | `TracePrint` round-trips, its datetime through `isoformat()` and `str_to_datetime` |
| Messages.DecodeEncode | shared_message.py:361-383 | a dictionary that decodes agrees with the encoding of what it decodes to on every key, except that its `datetime` need only parse to the same instant |

## Left out

- `Etf`, `Ohlc`, `OrderImbalance` and `SecurityMaster` of seven/feature_makers.py. They use pandas lookups, floating-point price ratios and debugger breakpoints, and `OrderImbalance` fails on a missing attribute.
- `make_effectivedatetime`: pandas column arithmetic. Prints carry their timestamp directly.
- Fundamentals.Get: the error message leaves out the query date that the source formats into it, because dates are day numbers in the model and Python's `str(date)` calendar rendering is not modelled.
- `Fundamentals.make_features` can never succeed, because its `len(errors) is not None` test is always true. Only `_get` is modelled.
- Composition.MakeFeaturesAsWritten: seven/feature_makers.py:821 calls every maker with three arguments, but `InterarrivalTime.make_features` (line 247) takes two, so as written the composition raises `TypeError` on any maker list that includes it. The model gives every maker the uniform three-argument signature, so that the propagation defect at line 827 and the corrected composition can be stated; it does not model that `TypeError`. No maker in the shipped list emits `reclassified_trade_type`, so the propagation defect is latent there. The live method also begins with `pdb.set_trace()` (line 816), so as written every call stops in the debugger; the model leaves that out.
- The order-imbalance reclassifier's internals and `math.exp` are parameters of the model.
- seven/accumulators.py and seven/logging.py are not part of this model. The accumulators are parameters of the driver. `seven.logging.error`, called when the input files disagree, is taken to stop the run.
- `TargetMaker.__init__` as written references `TracerecordInterarrivalTime`, which does not exist. The model keeps the per-security map of interarrival clocks that `_make_targets_values` indexes.
- TargetMaker.MakeTargetsValues: the module `seven.InterarrivalTime`, whose `interarrival_seconds` the target maker calls (seven/target_maker.py:79), is not part of this model. Its behaviour is taken to be that of `InterarrivalTime.make_features` in seven/feature_makers.py (Interarrival.Observe): the error for a first print, the assertion that time does not run backwards, and the gap floored to whole seconds.
- `TargetMaker.make_features` is not modelled. Nothing in the source calls it: `append_targets` (seven/target_maker.py:61) builds the targets through `_make_targets_values`, which never calls it. The method also reads the mistyped key `p_interrarival_seconds_size`.
- The test-mode break of `do_work` is not modelled. It reads a counter key that is never incremented, so the break can never run.
- File I/O, CSV writing of merged rows, the pickle cache, argument parsing, printing, display-only counters, `gc.collect` and `pdb`.
- JSON text. `json.dumps` and `json.loads` are not modelled: a message's JSON form is the decoded JSON value, and the message fields hold JSON values.
- `__repr__` of the messages.
- `from_string` tests `OutputStart` twice. The second branch can never be reached and is modelled once.
- Interarrival.WholeSeconds: the source computes the gap as a float. The model uses exact whole seconds, which ignores rounding of very large gaps.
- Aggregators.WeightedAverage: amounts and volumes are exact reals, not IEEE doubles, so rounding is not modelled.
- Aggregators.TimeWeightedAverage: the weight is an abstract function of the days elapsed, not `math.exp`.
- Aggregators.TimeVolumeWeightedAverageTest: states the exact quotient for abstract weights. It does not restate the source's two-place approximation with weights 0.979 and 0.996.
- DateTimeCodec.ParseInt: accepts only ASCII digits. Python's `int()` also accepts surrounding whitespace, a sign and underscores, so such strings are `ValueError` in the model but parse in Python.
- Messages.DecodeEncode: for `datetime` it guarantees the same instant, not the same string. `str_to_datetime` accepts unpadded fields such as a year `1` where `isoformat()` writes `0001`.
- Filters.SortByTime: pandas' default sort is not stable. The model keeps prints with equal times in input order, one of the orders pandas may produce.
- AsofMerge.LatestBefore: among on-the-run rows at the same latest time, the model chooses the last in table order. The source leaves this to pandas' sort.
- AsofMerge.MergeFeatures: the merged row is a feature map. The DataFrame column alignment of `append`, which fills missing columns with NaN, is not modelled.

## Findings

| source | as written | input that shows it | evidently intended | confidence | as-written member | corrected member |
|---|---|---|---|---|---|---|
| seven/feature_makers.py:827 | `xtra[propagated_field] = new_features[propagated_fields]` indexes the feature map with the whole tuple, raising `KeyError` | a first maker whose features include `reclassified_trade_type` | hand the field on: `new_features[propagated_field]` | not executed | Composition.PropagationCounterexample | Composition.MakeFeatures |
| v1/features_targets.py:520 | `merge_info['n merged feature records skipped'] += 1` subscripts the function `merge_info` itself, raising `TypeError` on the first skip | a primary row whose date has no on-the-run security | count the skip in `merge_info_counter` and carry on | not executed | AsofMerge.SkipCounterexample | AsofMerge.Merge |
