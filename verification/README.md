# A verified model of the PromQL evaluation core

`promql-engine` answers PromQL over blocks of samples. It streams each series
through a resumable window evaluator, aggregates and matches the results in
accumulators that can be split and merged, and orders what comes out. In each
part a fast, in-place or resumable algorithm stands in for something simple to
say. This project models both sides and proves that they agree. `dafny verify
dfyconfig.toml` checks all of it.

## The parts

| part | modules | the simple side | the fast side |
|---|---|---|---|
| streaming evaluator | `Series` `Params` `Fresh` `Reading` `Walks` `Kernels` `Buffer` `Stream` | every step's window read afresh from the whole first-claim series | a history with absolute cursors, filled in allowances, answered as steps become final, suspended anywhere by a work budget |
| blocks | `Blocks` `Store` | one evaluation over the step grid | window ends cut into blocks that repeat reach-back, each series cut into chunks |
| aggregation | `Grids` `Spans` `Aggregate` `Convert` `LaneRuns` | a map from group and grid index to a state | growing lanes with headroom and a `seen` bitmap, or one flat lane; prefix emission; bypassed partials |
| two phases | `Stats` `Operators` `Lanes` `TwoPhase` `Phases` | one accumulator fed every row | accumulators fed any shares of the rows, their emitted states merged |
| vector matching | `Matching` `Buckets` `MatchLanes` `Joining` `MatchState` `Pairings` `Rebuild` `SetOperators` `Evaluation` `MatchingText` | a relation between what a group holds and its one answer or failure | lanes, pools, two caches, claims, flat partial states |
| finalisation | `Ordering` `LabelOrder` `Overlaps` `Finalize` | label pairs in lexicographic order; no two rows of one label set sharing a timestamp | a column scan, bounds, connected overlaps, a k-way heap walk, coalesced slices |
| calendar, presence | `Calendar` `Absence` | the proleptic Gregorian calendar (section 3.2.1 of ISO 8601:2004); the grid minus marked steps | a shift by whole 400-year cycles; flags filled by runs |

`Arithmetic` and `Permutations` hold the shared arithmetic and bag lemmas.

The main results are `Stream.EvaluateBlock`, `Store.EvaluateSelection`,
`Aggregate.Grouped.FoldRows` with `EmitAndRelease`, `Convert.ConvertToState`,
`Phases.RunTwoPhase`, `Pairings.Pairing.Answer`, `Rebuild.FromPartials` with
`RebuiltIsDirect`, `Finalize.FinalizeRows`, `Calendar.ReadsEverySecond` and
`Absence.AbsentSteps`.

Three places are worth knowing. They are what the code does, and the model
keeps them:

- A block's end is exclusive and saturates, so a window that ends at exactly
  the largest 64-bit integer belongs to no block. No planned query has one: the
  planner bounds start, end, window, offset and `@` by a quarter of the range
  (`Params.Validated`), and `Store.EvaluateSelection` is exact for all it takes.
  Past that bound `Store.BlocksAreExact` says when blocks still agree with no
  blocks, and `Store.GridBeyond` is a grid on which they do not.
- On a grid with no steps a match group's partial state with a "many" series is
  refused on merging, because the number of series is read off the step counts.
  `Rebuild.FromPartials` states exactly when this happens. On any other grid a
  rebuilt group answers as a direct one.
- Matching modifiers survive being spelled in a plan and parsed again just when
  the label names are ones a spelling can carry and no fill is a NaN with a
  sign or payload of its own, which its text does not show
  (`MatchingText.RoundTrips`).

Order of arrival does not matter to a match group as long as no two rows with
one side and one label set share a step. Only series held whole, those of the
"many" side, need this: on the "one" side two rows at a step are a duplicate
in either order (`Rebuild.RowsPermuted`).

## How to read a contract

`Valid()` of a class ties its fields to a specification value (`Walk`, `Lane`,
`Model()`, `View`), and each method's `ensures` says what becomes of that
value. The streaming methods also carry a work measure that drops whenever
units are spent, so a driver with positive budgets always finishes.
Window folds, aggregation states and float operators are parameters, so those
results hold whatever the float semantics. `inf` and `finite` in `Stats` are
arbitrary predicates: over exact reals it never matters when a mean switches to
its incremental form, nor how adds and merges nest (`Stats.MeanTree`,
`Stats.VarianceTree`).

## Model

| member | source | states |
|---|---|---|
| `Stream.EvaluateBlock` | promql-engine/src/buffer.rs:983-1019 | a block of series through one iterator, any rows per series overlapping in any way, any positive budgets: each series answers exactly its fresh windows over its first-claim samples, and nothing of one series reaches the next |
| `Stream.BufferedSeriesIterator.Evaluate` | promql-engine/src/buffer.rs:983-1019 | one series, resumed as often as its budgets require: the concatenated emissions are the fresh-window answer, and the iterator is left as new |
| `Stream.BufferedSeriesIterator.PushWhole` | promql-engine/src/buffer.rs:192-242 | a row resumed until done claims exactly its samples past every earlier row's last timestamp |
| `Stream.BufferedSeriesIterator.CloseWhole` | promql-engine/src/buffer.rs:252-280 | a close resumed until done completes the answer, whatever was emitted before |
| `Stream.BufferedSeriesIterator.PushBudgeted` | promql-engine/src/buffer.rs:192-242 | one call on either arm: done means the row is claimed, suspended means the budget is spent, the row's claim is unchanged and the remaining work has dropped |
| `Stream.BufferedSeriesIterator.CloseBudgeted` | promql-engine/src/buffer.rs:252-280 | done completes the answer and forgets the series; suspended means a spent budget and less work left |
| `Stream.BufferedSeriesIterator.constructor` | promql-engine/src/buffer.rs:159-169 | either arm starts with nothing claimed, consumed or emitted |
| `Stream.Candidate.Push` | promql-engine/src/buffer.rs:206-240 | the one-step candidate claims a row as the window buffer does while keeping one sample |
| `Stream.Candidate.Close` | promql-engine/src/buffer.rs:262-277 | the kept sample gives exactly the fresh-window answer of all rows, stale markers and lookback included, and nothing stays behind |
| `Stream.PickRow` | promql-engine/src/buffer.rs:213-238 | what a row offers the one step is its window's latest sample not claimed by an earlier row |
| `Buffer.WindowBuffer.Push` | promql-engine/src/buffer.rs:310-417 | true only when the whole row is claimed; on suspension the budget is zero, the cursor still stands in the same row and the work measure has dropped |
| `Buffer.WindowBuffer.Close` | promql-engine/src/buffer.rs:431-458 | the samples emitted before and by the close are the fresh-window answer of everything consumed, and the buffer is reset |
| `Buffer.WindowBuffer.Turn` | promql-engine/src/buffer.rs:339-416 | one turn makes progress, finishes the row, or has spent the budget |
| `Buffer.WindowBuffer.Start` | promql-engine/src/buffer.rs:333-338 | a row begins past everything earlier rows claimed |
| `Buffer.WindowBuffer.SkipRest` | promql-engine/src/buffer.rs:357-364 | once no step can read a later sample the row is claimed to its end unread, and the answer is unaffected |
| `Buffer.WindowBuffer.SkipDead` | promql-engine/src/buffer.rs:365-378 | a prefix before the next window is claimed without being kept, and the answer is unaffected |
| `Buffer.WindowBuffer.Allow` | promql-engine/src/buffer.rs:379-415 | one allowance enters with its watermark: strictly forward, within the budget, invariant kept |
| `Buffer.WindowBuffer.Ingest` | promql-engine/src/buffer.rs:391-414 | an allowance evaluated off the row or copied to the history stands for the same consumed samples |
| `Buffer.WindowBuffer.Append` | promql-engine/src/buffer.rs:498-523 | what enters the history (stale markers of a range left out, the latest sample alone under `@`) is read by every remaining step as the row's own samples |
| `Buffer.Unstaled` | promql-engine/src/buffer.rs:514-521 | the copy keeps exactly the samples that are not stale markers, in order |
| `Buffer.WindowBuffer.Advance` | promql-engine/src/buffer.rs:468-480 | every ready step is answered as the fresh window answers it, once and in order; a ready step is left only by a spent budget |
| `Buffer.WindowBuffer.AdvancePinned` | promql-engine/src/range.rs:458-482 | under `@` the one value is computed once and repeated over the grid, as the fresh answer does |
| `Buffer.WindowBuffer.AdvanceSelector` | promql-engine/src/selector.rs:46-118 | the selector walk on the buffer's cursors keeps the invariant that ties emissions to the fresh answer |
| `Buffer.WindowBuffer.AdvanceRange` | promql-engine/src/range.rs:484-524 | the refolding range walk, edges only forward, keeps that invariant |
| `Buffer.WindowBuffer.Drain` | promql-engine/src/buffer.rs:484-493 | every ready step the budget allows is answered, and the dead prefix let go, before anything more is taken |
| `Buffer.WindowBuffer.ReduceDelta` | promql-engine/src/buffer.rs:542-549 | afterwards the dead prefix is none or under half the buffer, nothing a later step reads is lost, and over any run at most twice as many samples were moved as retired |
| `Buffer.WindowBuffer.RetireHistory` | promql-engine/src/buffer.rs:525-534 | once every step is answered the history goes and the invariant stays |
| `Buffer.WindowBuffer.constructor` | promql-engine/src/buffer.rs:292-308 | a new buffer has consumed and emitted nothing |
| `Kernels.WorkBudget.Take` | promql-engine/src/buffer.rs:47-53 | takes one unit exactly when one is left |
| `Kernels.WorkBudget.TakeUpTo` | promql-engine/src/buffer.rs:55-59 | takes the smaller of the request and what is left, and no more |
| `Kernels.WorkBudget.AccountKernel` | promql-engine/src/buffer.rs:65-67 | charges indivisible work, saturating at zero |
| `Kernels.WalkEdge` | promql-engine/src/range.rs:501-513 | an edge ends where its bound says or the budget is spent, one unit a sample |
| `Kernels.WalkSelector` | promql-engine/src/selector.rs:46-118 | the values emitted are the fresh-window values of exactly the steps walked; units spent are steps plus samples passed |
| `Kernels.WalkRange` | promql-engine/src/range.rs:494-524 | the same for range windows, each read as the slice between two forward-only edges |
| `Kernels.Repeat` | promql-engine/src/range.rs:475-480 | the pinned value goes out step after step as long as units last |
| `Kernels.PinnedValue` | promql-engine/src/range.rs:468-474 | the value of the kept history is the fresh value of the pinned window |
| `Fresh.ViewDecides` | promql-engine/src/buffer.rs:945-981 | a step's value depends on its view alone: the non-stale window of a range, the latest sample of a selector |
| `Fresh.StepsAreFinal` | promql-engine/src/buffer.rs:419-429 | steps whose windows end before every later sample never change |
| `Fresh.EmptyStepsAnswerNothing` | promql-engine/src/buffer.rs:431-458 | steps that see nothing emit nothing |
| `Fresh.FirstClaimAscends` | promql-engine/src/buffer.rs:945-981 | the first-claim series of rows in order is in order, up to the last claimed timestamp |
| `Fresh.AnswersAscend` | promql-engine/src/buffer.rs:945-981 | answers come at grid steps, at most one each, in strictly rising order |
| `Reading.SelectorReads` | promql-engine/src/selector.rs:46-118 | the sample before the right edge, if the window still holds it, is the fresh selection |
| `Reading.SelectorDrops` | promql-engine/src/buffer.rs:542-549 | once a sample is passed no later step selects an earlier one |
| `Reading.RangeReads` | promql-engine/src/range.rs:495-519 | the slice between two edges is the whole fresh window |
| `Reading.RangeDrops` | promql-engine/src/buffer.rs:542-549 | what the left edge passed is never read again |
| `Reading.DeadPrefix` | promql-engine/src/buffer.rs:365-373 | samples before the next window change no remaining step |
| `Reading.FutureTail` | promql-engine/src/buffer.rs:374-378 | samples past the last window change no step |
| `Walks.SelectorAdvances` | promql-engine/src/selector.rs:114-117 | writing back the selector's local cursors keeps the walk's invariant |
| `Walks.RangeAdvances` | promql-engine/src/range.rs:562-564 | writing back the range's cursors keeps it |
| `Walks.PinnedAdvances` | promql-engine/src/range.rs:458-482 | so does a pinned advance |
| `Walks.Reduces` | promql-engine/src/buffer.rs:542-549 | draining up to the left cursor keeps it and leaves the work measure as it was |
| `Walks.Retires` | promql-engine/src/buffer.rs:525-534 | so does dropping the history once all steps are answered |
| `Walks.Raises` | promql-engine/src/buffer.rs:384-390 | a raised watermark keeps it |
| `Walks.Skips` | promql-engine/src/buffer.rs:365-378 | claiming samples no remaining step reads keeps it |
| `Walks.Appends` | promql-engine/src/buffer.rs:498-523 | copying an allowance keeps it, at two units of work a sample |
| `Walks.AppendsLatest` | promql-engine/src/buffer.rs:501-509 | keeping only the latest sample under `@` keeps it |
| `Walks.Finishes` | promql-engine/src/buffer.rs:431-458 | with no step left, or none that reads anything, what was emitted is the whole fresh answer |
| `Params.StepAtIsProduct` | promql-engine/src/params.rs:108-115 | step k is the start plus k steps |
| `Params.StepsAscend` | promql-engine/src/params.rs:48-53 | steps, window ends and window starts rise together |
| `Params.StepsInside` | promql-engine/src/params.rs:125-130 | the step count is exactly the steps in the closed range |
| `Blocks.BlockGrid` | promql-engine/src/params.rs:64-94 | a block's grid is exactly the steps whose window ends lie in the block, in order; under `@` one block gets all |
| `Blocks.FirstInIs` | promql-engine/src/params.rs:77-84 | the first step of a block is the first whose window end reaches the block's start |
| `Blocks.LastInIs` | promql-engine/src/params.rs:77-88 | the last is the last whose window end is before the block's end |
| `Store.CutIntoBlocks` | promql-engine/src/memory.rs:386-411 | the cuts tile the window-end domain without gap or overlap, each on a width multiple after the first and reaching back one window |
| `Store.ChunkEnd` | promql-engine/src/memory.rs:481-484 | a chunk ends at the first sample too far from its first |
| `Store.SplitIntoChunks` | promql-engine/src/memory.rs:453-521 | the chunks are non-empty, bounded in time, maximal, and claim back exactly the row |
| `Store.ClipIsLive` | promql-engine/src/memory.rs:262-323 | a block's clipped series is the samples of the closed reach-back range |
| `Store.BlockAnswers` | promql-engine/src/memory.rs:262-323 | a block answers from its clip what its steps answer from the whole series |
| `Store.Cuts` | promql-engine/src/memory.rs:262-323 | the blocks of a selection, blocked or not, tile the domain of the hints |
| `Store.DomainHoldsEnds` | promql-engine/src/params.rs:38-53 | the hints' domain holds every step's window end |
| `Store.EvaluateCut` | promql-engine/src/memory.rs:262-323 | one block, chunked and streamed under any budgets, answers exactly its own steps |
| `Store.EvaluateSelection` | promql-engine/src/memory.rs:262-323 | for every query the planner takes, blocks concatenated equal one unblocked evaluation, for every block width, chunk size and budget |
| `Store.EvaluateKept` | promql-engine/src/memory.rs:262-323 | for any grid whose lookup times fit 64 bits, they equal it on the steps whose window ends before the last 64-bit integer |
| `Params.ValidatedFits` | promql-engine/src/plan.rs:98-135 | the planner's bound on start, end, window, offset and `@` keeps every lookup time inside 64 bits, and every window end below the last |
| `Store.ValidatedKeeps` | promql-engine/src/plan.rs:1393-1421 | so a planned query's scan range fits and no step is left out of the blocks |
| `Store.KeptIsAll` | promql-engine/src/memory.rs:386-411 | every step is kept if and only if there is none or the last window end is below the largest 64-bit integer |
| `Store.BlocksAreExact` | promql-engine/src/memory.rs:386-411 | for any kernel, pinned or not, and all series at once: blocked evaluation equals the unblocked answer if and only if no window ending at that integer can have a value |
| `Store.SelectorSpeaks` | promql-engine/src/selector.rs:30-35 | a selector with a window can have a value at any step |
| `Store.RangeSpeaks` | promql-engine/src/range.rs:516-519 | a range function can exactly when it has a value of some non-stale window with those ends |
| `Store.GridBeyond` | promql-engine/src/memory.rs:283-295 | a concrete grid, outside the planner's bound, whose one step every block leaves out |
| `Store.LostStep` | promql-engine/src/memory.rs:386-411 | a left-out step that can have a value is missed by some series |
| `Grids.IndexIs` | promql-engine/src/aggregate.rs:180-202 | a timestamp has index i exactly when it is grid timestamp i |
| `Grids.TryRuns` | promql-engine/src/aggregate.rs:231-260 | succeeds if and only if the timestamps strictly ascend on the grid; then the runs are consecutive, maximal, cover the input in order and carry each timestamp's own index |
| `Spans.Span.Include` | promql-engine/src/aggregate.rs:589-614 | widens to hold the given indices: contents at every grid index kept, headroom and new positions fresh and unseen, headroom at most the width, exact new bounds |
| `Spans.Span.MovementIsLinear` | promql-engine/src/aggregate.rs:331-341 | over any run of calls the positions moved by prepends are at most twice the physical length, which is at most twice the width |
| `Spans.Span.Prepend` | promql-engine/src/aggregate.rs:331-341 | every physical position moves right once and the new ones are fresh |
| `Spans.Span.Rebase` | promql-engine/src/aggregate.rs:596-606 | a prepend keeps the contents and at least doubles the lane unless it stops at grid index zero |
| `Spans.Span.Widen` | promql-engine/src/aggregate.rs:609-613 | growing right keeps contents and cleanliness |
| `Spans.Span.Stretch` | promql-engine/src/aggregate.rs:589-614 | both ends moved at once keep the contents and land on the ends asked for |
| `Spans.Span.Write` | promql-engine/src/aggregate.rs:354-393 | one write changes one grid index and marks it seen |
| `Spans.Span.AddRun` | promql-engine/src/aggregate.rs:625-628 | a run of values folds into exactly its grid indices, each from its held or the fresh state |
| `Spans.Span.RunEnd` | promql-engine/src/aggregate.rs:542-545 | ends the maximal stretch of equal bits |
| `Spans.Span.MergeStretch` | promql-engine/src/aggregate.rs:397-489 | copying into an unseen stretch or merging into a seen one is the fold of those positions |
| `Spans.Span.MergeRun` | promql-engine/src/aggregate.rs:632-645 | a partial run, split into copied and merged stretches, is one fold per position |
| `Spans.Span.DropFront` | promql-engine/src/aggregate.rs:343-350 | the first positions leave, the rest shift down unchanged |
| `Spans.RunFoldsRow` | promql-engine/src/aggregate.rs:217-226 | folding a run is folding that part of the row |
| `Spans.PrependKeeps` | promql-engine/src/aggregate.rs:331-341 | a prepend changes no grid index |
| `Spans.ShiftKeeps` | promql-engine/src/aggregate.rs:589-614 | using up headroom changes no grid index |
| `Spans.WriteSets` | promql-engine/src/aggregate.rs:354-393 | a physical write is one update of the map |
| `Spans.ReadAt` | promql-engine/src/aggregate.rs:616-623 | a seen position reads its index's state, an unseen one is fresh |
| `Lanes.SetRun` | promql-engine/src/aggregate.rs:519-534 | byte-wise filling with ragged ends sets exactly the bits of the range |
| `Aggregate.Grouped.constructor` | promql-engine/src/aggregate.rs:703-714 | a new accumulator holds no group |
| `Aggregate.Grouped.Grow` | promql-engine/src/aggregate.rs:717-740 | new groups hold nothing, old ones are untouched, in both layouts |
| `Aggregate.Grouped.Prepare` | promql-engine/src/aggregate.rs:744-764 | makes room for a row's endpoints without changing any held state |
| `Aggregate.Grouped.FoldSpan` | promql-engine/src/aggregate.rs:766-784 | a row folds into its group's map and no other, or is refused exactly when off grid or out of order |
| `Aggregate.Grouped.FoldFlat` | promql-engine/src/aggregate.rs:766-784 | the flat one-step lane folds to the same map |
| `Aggregate.FlatFolds` | promql-engine/src/aggregate.rs:766-784 | a flat position of group g is grid index zero of group g |
| `Aggregate.Grouped.Fold` | promql-engine/src/aggregate.rs:766-784 | either layout, one contract |
| `Aggregate.Grouped.FoldKnown` | promql-engine/src/aggregate.rs:1122-1141 | rows in order, null and filtered rows aside; refused if and only if some row is |
| `Aggregate.Grouped.FoldRows` | promql-engine/src/aggregate.rs:1122-1223 | a batch update or merge is the specification's fold over the maps, groups discovered first |
| `Aggregate.FoldRuns` | promql-engine/src/aggregate.rs:766-784 | a row's runs into one span are the fold of its indices |
| `Aggregate.WalkSpan` | promql-engine/src/aggregate.rs:1041-1051 | the seen positions in step order |
| `Aggregate.Grouped.WalkGroup` | promql-engine/src/aggregate.rs:1028-1039 | a group's row is its map in step order, in both layouts |
| `Aggregate.Grouped.Emit` | promql-engine/src/aggregate.rs:840-1024 | the emitted rows are the first groups' maps |
| `Aggregate.Grouped.Release` | promql-engine/src/aggregate.rs:1055-1075 | the emitted groups leave, the rest shift down unchanged, and the cached size still equals the sum over spans |
| `Aggregate.Grouped.EmitAndRelease` | promql-engine/src/aggregate.rs:1143-1155 | `First(n)` returns the first n groups' rows and keeps the others; `All` returns everything |
| `Aggregate.Grouped.Refresh` | promql-engine/src/aggregate.rs:1103-1118 | the cached size follows the one span that changed |
| `Convert.ConvertToState` | promql-engine/src/aggregate.rs:1231-1293 | for every column and filter the rows equal those of a fresh accumulator with one group a row; refused if and only if a row is off grid |
| `Convert.RowConverts` | promql-engine/src/aggregate.rs:1231-1293 | the slice the offsets cut for a row is what its own group emits |
| `Convert.OwnGroups` | promql-engine/src/aggregate.rs:1231-1293 | each group of that accumulator holds its own row's fold |
| `Convert.RowAlone` | promql-engine/src/aggregate.rs:914-1024 | a row alone in its group emits one fresh-plus-one-value state a sample |
| `Convert.RowEmits` | promql-engine/src/aggregate.rs:914-1024 | rising positions emit one entry each, in order |
| `Convert.FlatCuts` | promql-engine/src/aggregate.rs:1231-1293 | the offsets cut the flat columns back into their rows |
| `Convert.Offsets` | promql-engine/src/aggregate.rs:1231-1293 | the running sample counts, nulls and filtered rows counting none |
| `Convert.Flatten` | promql-engine/src/aggregate.rs:1231-1293 | flat states and timestamps of the accepted rows |
| `Convert.AddLane` | promql-engine/src/aggregate.rs:354-393 | the update kernel over fresh flat positions |
| `Stats.SumAdds` | promql-engine/src/math.rs:98-129 | a compensated sum stands for its inputs after an add, whichever branch compensates |
| `Stats.SumMerges` | promql-engine/src/math.rs:107-110 | and after a merge |
| `Stats.MeanAdds` | promql-engine/src/math.rs:145-168 | a mean stands for its inputs after an add, plain, switching or incremental, for an arbitrary overflow predicate |
| `Stats.MeanMerges` | promql-engine/src/math.rs:176-201 | and after a merge of any two modes, either side empty or not |
| `Stats.MeanGives` | promql-engine/src/math.rs:204-210 | its result is the sum over the count |
| `Stats.WelfordAdds` | promql-engine/src/math.rs:243-248 | count, mean and squared deviations stand for the inputs after an add |
| `Stats.WelfordMerges` | promql-engine/src/math.rs:254-288 | and after a merge, whichever of the four branches is taken |
| `Stats.ReplayIsChan` | promql-engine/src/math.rs:254-288 | adding a singleton's one value is what Chan's formula gives for it |
| `Stats.BranchesAgree` | promql-engine/src/math.rs:254-288 | so which branch merges two inhabited states does not matter |
| `Stats.SumTree` | promql-engine/src/math.rs:98-129 | a sum reached by any tree of adds and merges stands for the values that went in |
| `Stats.MeanTree` | promql-engine/src/math.rs:145-201 | so does a mean, at whatever adds and merges it turns incremental |
| `Stats.AverageTree` | promql-engine/src/math.rs:145-210 | and its result is their sum over their count |
| `Stats.WelfordTree` | promql-engine/src/math.rs:243-288 | so does a running variance |
| `Stats.VarianceTree` | promql-engine/src/math.rs:243-292 | whose count, mean and squared deviations are those of the one-pass definition |
| `Stats.SpreadMerges` | promql-engine/src/math.rs:254-288 | Chan's formula holds whichever way the correction is associated |
| `Stats.VarianceGives` | promql-engine/src/math.rs:290-292 | what a running state reports is the population variance |
| `Stats.DeviationsExpand` | promql-engine/src/math.rs:328-337 | squared deviations by their raw moments |
| `Stats.TotalPermuted` | promql-engine/src/math.rs:300-315 | totals do not depend on order |
| `Lanes.KahanSumOf` | promql-engine/src/math.rs:300-306 | a slice's compensated sum is its sum |
| `Lanes.MeanValue` | promql-engine/src/math.rs:309-315 | a slice's mean is sum over count at whatever point it turns incremental |
| `Lanes.VarianceOf` | promql-engine/src/math.rs:328-337 | the doubly compensated recurrence gives the population variance |
| `Lanes.BestValueOf` | promql-engine/src/math.rs:340-351 | the best number, or NaN if there is only NaN |
| `LaneRuns.TakenFolds` | promql-engine/src/aggregate.rs:616-645 | positions that took their values in bulk hold the fold of the run over the span |
| `LaneRuns.AddVariances` | promql-engine/src/aggregate.rs:354-393 | the variance kernel over three parallel lanes, with the run marked in the bitmap, is that fold |
| `LaneRuns.MergeSumStretch` | promql-engine/src/aggregate.rs:397-489 | a stretch merges where seen; where not, it copies and is marked |
| `LaneRuns.MergeSums` | promql-engine/src/aggregate.rs:630-645 | stretch after stretch, a partial run of sums over two lanes and the bitmap is the fold that copies fresh positions and merges reached ones |
| `LaneRuns.MergeSeenMeans` | promql-engine/src/aggregate.rs:397-449 | the average kernel over its four lanes is that fold on reached positions |
| `Lanes.KahanMergeEach` | promql-engine/src/math.rs:444-464 | lane by lane the scalar merge, other positions untouched |
| `Lanes.WelfordAddEach` | promql-engine/src/math.rs:421-435 | lane by lane the scalar add, other positions untouched |
| `Lanes.MeanMergeEach` | promql-engine/src/math.rs:474-504 | lane by lane the scalar merge, other positions untouched |
| `Operators.SumIsLawful` | promql-engine/src/math.rs:98-110 | `sum` stands for its inputs through add and merge and finishes alike for every order |
| `Operators.AvgIsLawful` | promql-engine/src/math.rs:145-210 | the same for `avg` |
| `Operators.CountIsLawful` | promql-engine/src/aggregate.rs:354-449 | the same for `count` |
| `Operators.BestIsLawful` | promql-engine/src/math.rs:214-229 | the same for `min` and `max`, NaN losing to any number |
| `Operators.GroupIsLawful` | promql-engine/src/aggregate.rs:354-449 | the same for `group` |
| `Operators.VarianceIsLawful` | promql-engine/src/math.rs:243-292 | the same for `stdvar` and `stddev` |
| `Operators.BestJoins` | promql-engine/src/math.rs:214-229 | the better of two bests is the best of both |
| `Operators.BestIsOne` | promql-engine/src/math.rs:214-229 | inputs in any order have one best |
| `Operators.SameWelford` | promql-engine/src/math.rs:243-288 | inputs in any order settle a running variance completely |
| `Phases.RunTwoPhase` | promql-engine/src/aggregate.rs:1157-1223 | rows dealt to any accumulators in any way, interleaved or not, and their emitted states merged in any order, finish with the seen steps and values of one accumulator fed the same rows in any order; refused if and only if some row is off grid |
| `Phases.MergeShare` | promql-engine/src/aggregate.rs:1157-1223 | merging one more share's emitted states carries exactly its rows, discovered groups included |
| `Phases.Partial` | promql-engine/src/aggregate.rs:1143-1155 | a share's emitted rows are the states of its groups |
| `Phases.ShareBrings` | promql-engine/src/aggregate.rs:914-1024 | emitted states bring what the rows they came from do |
| `Phases.CarriesMore` | promql-engine/src/aggregate.rs:1157-1223 | what the final accumulator carries grows by the share |
| `TwoPhase.RowsCommute` | promql-engine/src/aggregate.rs:1122-1141 | one accumulator finishes the same whatever the order of its rows |
| `TwoPhase.DealtRows` | promql-engine/src/aggregate.rs:1122-1223 | the shares' rows are on the grid exactly when the rows dealt out are |
| `TwoPhase.GatheredIsCollected` | promql-engine/src/aggregate.rs:1157-1223 | what the shares bring to a group is what their rows bring, read as one list |
| `TwoPhase.EmittedReads` | promql-engine/src/aggregate.rs:914-1024 | an emitted row reads back as the map it came from |
| `TwoPhase.PartialHeld` | promql-engine/src/aggregate.rs:397-489 | merging touches exactly the seen indices: copied where fresh, merged where reached |
| `TwoPhase.EmittedBrings` | promql-engine/src/aggregate.rs:914-1024 | a group's emitted row brings all the group carries, to any depth of merging |
| `TwoPhase.FoldCarries` | promql-engine/src/aggregate.rs:766-784 | a fold adds exactly the values its input brings |
| `TwoPhase.BatchCarries` | promql-engine/src/aggregate.rs:1122-1223 | so does a batch |
| `TwoPhase.OnePhaseCarries` | promql-engine/src/aggregate.rs:1122-1141 | one accumulator carries exactly what its rows bring |
| `TwoPhase.SameFinish` | promql-engine/src/aggregate.rs:840-906 | two accumulators carrying the same values finish alike |
| `TwoPhase.HomesBag` | promql-engine/src/aggregate.rs:1157-1223 | grouping by a share's groups and then by their final groups loses and duplicates nothing |
| `TwoPhase.CollectedPermuted` | promql-engine/src/aggregate.rs:1157-1223 | what rows bring to a group does not depend on their order |
| `Pairings.Pairing.Pairs` | promql-engine/src/binary.rs:921-1028 | the cached walk gives the cache-free relation's answer: the same series, or the first failing step's error kind |
| `Pairings.Pairing.Sets` | promql-engine/src/binary.rs:863-906 | the set operators' outputs are exactly the surviving samples by label set |
| `Pairings.Pairing.Answer` | promql-engine/src/binary.rs:1076-1163 | whichever operator, the answer the matching relation settles |
| `Pairings.Pairing.Absorb` | promql-engine/src/binary.rs:711-744 | a row joins what the group holds, or is refused exactly when off grid |
| `Pairings.Pairing.InternOne` | promql-engine/src/binary.rs:685-691 | a pool row for a label set, held samples unchanged |
| `Pairings.Pairing.InternMany` | promql-engine/src/binary.rs:693-708 | a series for a side and label set, empty if it is new |
| `Pairings.Pairing.Total` | promql-engine/src/binary.rs:933-937 | zero exactly when no "many" series has a sample at the step |
| `Pairings.Pairing.Gather` | promql-engine/src/binary.rs:942-959 | lists each pair of the step once, fills included |
| `Pairings.Pairing.FindBucket` | promql-engine/src/binary.rs:976-1003 | by cache, by label set or new: the bucket of the pair's result labels |
| `Pairings.Pairing.PlaceStep` | promql-engine/src/binary.rs:975-1020 | fails if and only if two pairs of the step share result labels |
| `Pairings.Pairing.KeepStep` | promql-engine/src/binary.rs:867-902 | a step's survivors each enter their label set's bucket |
| `Pairings.Pairing.constructor` | promql-engine/src/binary.rs:668-683 | a new group holds nothing |
| `Pairings.StepComplete` | promql-engine/src/binary.rs:975-1020 | every pair under labels of its own is the step's whole answer |
| `Pairings.StepCollides` | promql-engine/src/binary.rs:1004-1010 | two pairs under one label set are a grouping that is not unique |
| `Pairings.Claims` | promql-engine/src/binary.rs:1004-1010 | the claim mark detects exactly the pairs of the same step |
| `Pairings.NeverMeet` | promql-engine/src/binary.rs:851-906 | equal labels of the two sides never survive a step together |
| `Matching.ResultLabelsAt` | promql-engine/src/binary.rs:796-822 | each result label is copied, dropped or kept, by name |
| `Matching.OperandsKeepSides` | promql-engine/src/binary.rs:1012-1015 | whichever side is many, the left operand is the left-hand side's |
| `Matching.FillsKeepNames` | promql-engine/src/binary.rs:492-501 | a fill stands for the side it is named after |
| `Matching.EmitsOnce` | promql-engine/src/binary.rs:1023-1027 | the relation settles the output, order included |
| `Matching.AnswersOnce` | promql-engine/src/binary.rs:921-1028 | and the whole answer, failures included |
| `Buckets.BuiltPushes` | promql-engine/src/binary.rs:990-999 | a new bucket keeps the table in step with the relation |
| `Buckets.BuiltPlaces` | promql-engine/src/binary.rs:1010-1019 | so does a sample placed under labels not yet taken |
| `Buckets.BuiltSteps` | promql-engine/src/binary.rs:932-1021 | a complete step carries over to the next |
| `Buckets.Place` | promql-engine/src/binary.rs:1023-1027 | a series enters at its place in label order |
| `Buckets.Finish` | promql-engine/src/binary.rs:1023-1027 | empty buckets go, the rest come in label order |
| `Buckets.FinishEmits` | promql-engine/src/binary.rs:1023-1027 | then the buckets are the relation's output |
| `MatchLanes.Lay` | promql-engine/src/binary.rs:711-744 | runs laid over the lanes raise counts and take values at exactly the row's steps |
| `MatchLanes.LayRun` | promql-engine/src/binary.rs:711-744 | one run, other positions untouched |
| `MatchLanes.ManyViewAt` | promql-engine/src/binary.rs:613-665 | each held series is found under its side and labels |
| `Joining.JoinAssociates` | promql-engine/src/binary.rs:1212-1304 | parts of a group join associatively |
| `Joining.JoinCommutes` | promql-engine/src/binary.rs:1212-1304 | and commutatively where no "many" series of both shares a step |
| `Joining.OneTakes` | promql-engine/src/binary.rs:711-744 | the "one" lanes after a row are the join with it |
| `Joining.ManyTakes` | promql-engine/src/binary.rs:711-744 | so is a "many" series |
| `Pairings.Pairing.State` | promql-engine/src/binary.rs:1169-1206 | the partial is the group's lanes, flattened |
| `Pairings.Pairing.MergeOne` | promql-engine/src/binary.rs:1216-1250 | a partial's "one" side joins, pool rows renumbered |
| `Pairings.Pairing.MergeMany` | promql-engine/src/binary.rs:1252-1281 | its "many" series join by side and labels; refused exactly when the grid is empty and there is one |
| `Pairings.Pairing.MergeLine` | promql-engine/src/binary.rs:1271-1280 | one partial series joins the series with its key |
| `Pairings.Pairing.MergeBatch` | promql-engine/src/binary.rs:1212-1304 | all partials join, whatever the pool and series numbering |
| `MatchState.FlatRow` | promql-engine/src/binary.rs:1330-1351 | a row of a rectangle is where its index says |
| `MatchState.RectangleReads` | promql-engine/src/binary.rs:1330-1367 | a rectangle of labels reads back as written; at width zero it needs the count |
| `MatchState.OneAdds` | promql-engine/src/binary.rs:1238-1249 | merged "one" lanes are the join of the two views |
| `MatchState.LineAdds` | promql-engine/src/binary.rs:1273-1279 | merged "many" lanes are the join of the two series |
| `Rebuild.RowsPermuted` | promql-engine/src/binary.rs:711-744 | what a group holds does not depend on row order, if no two "many" rows with one key share a step |
| `Rebuild.RowsConcat` | promql-engine/src/binary.rs:1212-1304 | rows absorbed in two parts hold what the parts join to |
| `Rebuild.Direct` | promql-engine/src/binary.rs:711-744 | one group fed every row answers by the relation |
| `Rebuild.PartialOf` | promql-engine/src/binary.rs:1169-1206 | a share's partial stands for its rows |
| `Rebuild.FromPartials` | promql-engine/src/binary.rs:1212-1304 | a group rebuilt from any partition answers as its rows do; exact refusals: an off-grid row, or an empty grid with a "many" row |
| `Rebuild.RebuiltIsDirect` | promql-engine/src/binary.rs:1212-1304 | hence rebuilt and direct answers are equal, for any partition and order |
| `Rebuild.ManyKept` | promql-engine/src/binary.rs:711-744 | a partial has "many" series exactly when its rows do |
| `SetOperators.AndUnlessSplit` | promql-engine/src/binary.rs:863-906 | `and` and `unless` split the left samples in two disjoint parts |
| `SetOperators.OrIsLeftThenUnless` | promql-engine/src/binary.rs:863-906 | `A or B` is A together with `B unless A`, step by step and disjointly |
| `SetOperators.SamplesAscend` | promql-engine/src/binary.rs:863-906 | every output series strictly ascends |
| `SetOperators.SamplesSplit` | promql-engine/src/binary.rs:863-906 | the split holds for whole series |
| `Evaluation.Evaluate` | promql-engine/src/binary.rs:1076-1163 | one pass over the flat lanes, cut back, is the operator on each pair of each series |
| `Evaluation.EvaluateGroup` | promql-engine/src/binary.rs:1076-1163 | the matching's failure, or that |
| `Evaluation.Kernel` | promql-engine/src/binary.rs:263-303 | without filtering every pair gives one sample |
| `Evaluation.Filtered` | promql-engine/src/binary.rs:1107-1114 | a filtering comparison keeps the left operands of the pairs that hold |
| `Evaluation.Lengths` | promql-engine/src/binary.rs:1098-1106 | set bits of a series' slice are the samples it keeps |
| `Evaluation.Cut` | promql-engine/src/binary.rs:1117-1129 | the lengths cut the flat samples at the series' own ends |
| `MatchingText.RoundTrips` | promql-engine/src/binary.rs:412-487 | modifiers written and parsed come back, bit for bit, if and only if every label name is non-empty, without white space at its ends (Unicode's) and free of commas and closing parentheses, one-to-one matching copies none, and no fill is a NaN other than the quiet one |
| `MatchingText.NotSpelled` | promql-engine/src/binary.rs:412-487 | two that do not: a name that begins with a no-break space, and a NaN with a payload |
| `MatchingText.LiteralReads` | promql-engine/src/binary.rs:412-487 | names that can be spelled read back as they were, and each fill up to the bits of a NaN |
| `MatchingText.ReadsSpellable` | promql-engine/src/binary.rs:451-524 | whatever is read can be spelled |
| `MatchingText.NamesRead` | promql-engine/src/binary.rs:517-524 | a joined list of clean names splits back into them |
| `Finalize.FinalizeRows` | promql-engine/src/labelset.rs:44-68 | refused if and only if two rows with equal labels share a timestamp, on every path; otherwise the flattened batches are the stable sort of the rows with samples, or the input itself when it need not be ordered |
| `Finalize.RejectSameLabelset` | promql-engine/src/labelset.rs:152-201 | over sorted rows with rising timestamps: passes exactly when no two rows of one label set share a timestamp |
| `Finalize.RejectRun` | promql-engine/src/labelset.rs:161-197 | one label set's rows, fast path or not: passes exactly when none share |
| `Finalize.Separated` | promql-engine/src/labelset.rs:162-171 | rows one after another share nothing |
| `Finalize.SortByFirst` | promql-engine/src/labelset.rs:180-182 | a permutation in order of first timestamp |
| `Finalize.RejectGroups` | promql-engine/src/labelset.rs:183-195 | connected overlaps walked each on its own decide for all |
| `Finalize.GroupClears` | promql-engine/src/labelset.rs:183-195 | a cleared overlap with nothing later inside it stays clear |
| `Finalize.NoneSharedPermuted` | promql-engine/src/labelset.rs:152-201 | sharing does not depend on order |
| `Finalize.LaterDiffers` | promql-engine/src/labelset.rs:153-160 | past its run a label set does not come again |
| `Overlaps.RejectOverlapping` | promql-engine/src/labelset.rs:231-248 | the heap walk passes exactly when no two rows share a timestamp |
| `Overlaps.HeapTakes` | promql-engine/src/labelset.rs:231-248 | taking the least head keeps one head a row still walking |
| `Overlaps.Pop` | promql-engine/src/labelset.rs:231-248 | the least head leaves, the rest stay |
| `Finalize.OrderRows` | promql-engine/src/labelset.rs:83-145 | the order is the stable sort, sorted or found so |
| `Finalize.SortRefs` | promql-engine/src/labelset.rs:125-145 | a sort of the row references, ties in input order |
| `Finalize.CompareRefs` | promql-engine/src/labelset.rs:253-272 | label sets column by column, then block start |
| `Finalize.StableOrders` | promql-engine/src/labelset.rs:125-145 | labels, block start, input position: a total order of the rows |
| `Finalize.SortedOnce` | promql-engine/src/labelset.rs:125-145 | there is one stable sort |
| `Finalize.IntoBatches` | promql-engine/src/labelset.rs:203-225 | slices coalesced from runs flatten to the rows in order |
| `Finalize.TakeRow` | promql-engine/src/labelset.rs:203-225 | extending or closing the open run adds exactly the next row |
| `Finalize.KeptTwins` | promql-engine/src/series.rs:718-764 | dropping rows without samples neither makes nor hides a shared timestamp |
| `LabelOrder.CompareIsSparse` | promql-engine/src/labelset.rs:253-272 | over ascending label names the column scan is the lexicographic order of the label pairs with absent labels removed |
| `LabelOrder.CompareOrders` | promql-engine/src/labelset.rs:253-272 | hence total: antisymmetric, transitive, zero only on equal rows |
| `LabelOrder.CompareRows` | promql-engine/src/labelset.rs:253-272 | the scan computes it |
| `Ordering.LexOrders` | promql-engine/src/labelset.rs:253-272 | lexicographic order over a total order is total |
| `Calendar.ReadsEverySecond` | promql-engine/src/elementwise.rs:326-345 | for every 64-bit second and whichever seconds the calendar library holds, the fields read are those of the proleptic Gregorian date at the wrapped second |
| `Calendar.ShiftedReads` | promql-engine/src/elementwise.rs:379-386 | the shifted second lies in the years 2000 to 2399, fits 64 bits, and differs in its year alone, by 400 a cycle |
| `Calendar.WrapsOnce` | promql-engine/src/elementwise.rs:379-386 | the wrap moves only seconds before the absolute zero, once, and joins the two ends |
| `Calendar.EndsReadAlike` | promql-engine/src/elementwise.rs:307-332 | an infinity reads as one date whichever end it saturates to |
| `Calendar.FieldsShift` | promql-engine/src/elementwise.rs:347-351 | whole cycles move a date in its year alone, weekday included |
| `Calendar.Anchors` | promql-engine/src/elementwise.rs:347-360 | the anchor and the absolute zero are the dates they are said to be |
| `Calendar.DaysCount` | promql-engine/src/elementwise.rs:307-332 | the reference calendar numbers days consecutively from 1970-01-01 |
| `Calendar.DateOfIs` | promql-engine/src/elementwise.rs:307-332 | every day has a date |
| `Calendar.OneDate` | promql-engine/src/elementwise.rs:307-332 | and only one |
| `Absence.AbsentSteps` | promql-engine/src/absent.rs:152-171 | over any partitioning into partial states the answer is the grid minus every marked step, refused if and only if a row is off grid |
| `Absence.Steps.Mark` | promql-engine/src/absent.rs:111-125 | marks exactly the steps the rows reach |
| `Absence.Steps.MarkRow` | promql-engine/src/absent.rs:118-124 | one row, by runs |
| `Absence.Steps.Fill` | promql-engine/src/absent.rs:121-123 | one run, other steps untouched |
| `Absence.Steps.List` | promql-engine/src/absent.rs:129-149 | the steps with the flag asked for, in order |
| `Absence.Steps.constructor` | promql-engine/src/absent.rs:103-108 | no step is present |
| `Absence.ChosenIs` | promql-engine/src/absent.rs:129-149 | listed steps are on the grid, ascending, and exactly those flagged, so a listed state marks back what it listed |
| `Absence.LabelsFor` | promql-engine/src/absent.rs:67-93 | through any parentheses, from a vector or a matrix selector: a label other than the metric name is listed exactly when the first equality matcher on its name is also the last matcher on it, with that matcher's value; names ascend |
| `Absence.NamedLabels` | promql-engine/src/absent.rs:81-91 | the same of the matchers alone, as a map |
| `Absence.Sorted` | promql-engine/src/absent.rs:92-92 | a map's entries, each once, by ascending name |

## Left out

- Kernels.WalkRange: covers the refolding walk; the sweeping kernels, which keep a running fold as samples enter and leave, and the range functions' formulas are not modelled. A range's value is any function of its non-stale window that answers nothing on an empty one.
- Buffer.WindowBuffer.AdvanceRange: the refolding walk only, as Kernels.WalkRange.
- Kernels.WalkSelector: the conversion of a picked sample (`timestamp`) is an uninterpreted function of the sample.
- Stats.WelfordMerges: exact reals, so no rounding, overflow, NaN payload or signed zero; an overflowing value enters only through the arbitrary predicates. The same holds for Stats.MeanMerges and Stats.SumMerges. The running statistics are values updated by functions, not objects, since the in-place kernels of `Lanes` show the update in place.
- Operators.BestIsLawful: one NaN value, losing to every number.
- Lanes.MeanMergeEach: one kernel of each kind of lane is modelled in place and tied to the span it serves in `LaneRuns` (sums merged, variances added, means merged); the other loops repeat them.
- Lanes.SetRun: a bitmap is an array of booleans, filled byte by byte as the packed one is.
- Store.EvaluateSelection: the limit on the number of steps, the batch size and the partitioning of a selection are not modelled.
- Store.EvaluateKept: assumes that lookup times and the scan range fit 64 bits, since past the planner's bounds the code wraps or saturates.
- Aggregate.Grouped.Refresh: sizes count positions; capacities, bytes and key storage are not modelled.
- Aggregate.Grouped.FoldRows: groups arrive numbered; hashing of group keys and nested key columns are not modelled, and neither is the overflow check on 32-bit list offsets.
- Phases.RunTwoPhase: a state is emitted as it is; the columns each operator spreads it over are not modelled.
- Pairings.Pairing.MergeBatch: a partial is one that some group of the same schema and grid wrote; of the corruption checks only the one such a partial can fail is modelled. The code also takes lists no group writes, such as a sample with no pool row, which would share a cache key with a filled-in side and so has no answer the matching relation could promise.
- Pairings.Pairing.MergeOne: the same restriction to partials a group wrote.
- Pairings.Pairing.MergeMany: the same restriction to partials a group wrote.
- Pairings.Pairing.Pairs: an error is its kind; metric names and group labels kept for error text are not modelled.
- Evaluation.Kernel: arithmetic and comparison of floats are uninterpreted.
- MatchingText.RoundTrips: the text of a float is any that reads back as the same bits, or as the quiet NaN for every NaN, and holds no closing parenthesis, as the standard library's does.
- Finalize.SortRefs: the library's stable sort is an insertion sort; that there is only one stable order (Finalize.SortedOnce) makes the choice immaterial.
- Overlaps.Pop: the heap is a list whose least element is popped.
- Finalize.FinalizeRows: checks of the batches' schemas are assumed to have passed.
- Calendar.ReadsEverySecond: the calendar library is a predicate saying which seconds it holds; truncation of a float to a 64-bit second is not modelled.
- A series' timestamps and values are one sequence of samples, where the code has two parallel vectors.
- Element-wise functions over sliced lists, scalar folding, the label functions, plan rendering, store matchers: each follows from one body.
- The asynchronous engine, plan lowering, execution-plan state and Arrow buffers: wrappers over libraries.
