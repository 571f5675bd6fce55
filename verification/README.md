# Verified models of LocustDB's query engine, column codecs and column cache

LocustDB is a columnar query engine. Worker threads run a query partition by partition, merge the
partition results pairwise and send one reply; columns are stored in compressed form and cached in
memory under a limit. This project models the parts whose correctness is not obvious from one
function alone and proves what they are for. The command `dafny verify
dfyconfig.toml` checks the whole project.

The path of a query through the models:

- **Within a partition.** `PartitionSort` and `TopN` sort a partition (stable passes from the last
  order-by column to the first, or a heap of the first n rows). `BitPacking` packs several group-by
  columns into one 64-bit key that orders rows like their tuples; `Grouping` aggregates by that key,
  with accumulators indexed by the key or numbered by a hash map, over any chunking of the rows;
  `Aggregates` says what the aggregates are in terms of the values alone;
  `PartitionGroups` turns packed keys back into tuples. `FloatBits` is the planner's count of bits in
  floating point, `Filtering` the filter of the query, and `Aliasing` how result columns that share a
  buffer are collected. `PartitionQueries` puts these together into what a worker computes for one
  partition.
- **Merging two partition results.** Rows are stored as columns, and the kernels see one column at a
  time. `Partitioning` models `partition` and `subpartition`; `DedupMerge`, `GroupMerge` and
  `GroupKernels` the deduplicating merge and the replay of its plan; `OrderedMerge` the merge for
  order-by queries. `BatchMerging` (group-by), `SortedBatches` (order-by) and
  `MergeTree.CombineSelect` (plain select) are the three branches of `combine`. `MergePlans`,
  `Order`, `GroupBy` and `OrderBy` hold the theory: what the whole rows are merged to, and what a
  result means.
- **Merging all partition results.** `MergeTree` proves that any tree of merges over all partitions,
  cut off at the limit anywhere, ends in the first groups or rows of the whole table. `WorkerStack`
  is the stack of partial results of one worker, `QueryTask` the protocol of all workers as a state
  machine over every atomic access and every step under the mutex, `QueryOutcomes` says which reply a
  run ends with, depending on how the workers' operations turn out, and `QueryAnswers` puts all of it
  together: whatever the interleaving, a reply that carries a result answers the query over the rows
  of all partitions. `Indices` holds what is needed about lists of different indices.
- **The plan of a query.** `Normalize` splits a query into a main phase and a final pass.
  `Nullability` is the rewrite of plans over nullable buffers. `OperatorGraph`, `StageGrowth`,
  `StageOrder`, `StageSort` and `Stages` model how the executor groups operators into stages and
  orders them; `LevelledGraphs` has plans for which the stages cannot depend on each other in a cycle,
  and `StageExamples` two plans.
- **Columns.** `IntegerColumn` and `StringColumn`/`PackedStrings` model how columns are built and
  decoded, `Codec` the postfix program that describes decoding, and how it is split in two, and
  `CodecMeaning` what its properties allow the engine to do before decoding.
- **The cache.** `ColumnCache` is the state machine of column handles, the LRU list and the threads
  that load, restore, evict and register columns, `Recency` that the column evicted is the one unused
  for longest; `ReadScheduler` groups missing columns into sequential reads.

Conventions: column values are integers (any finite totally ordered domain embeds into them);
sequences stand for vectors; `None` stands for a panic or `unreachable!` where a method returns an
option and its contract says when; integers are unbounded except where wrap-around or overflow is
part of the behaviour (`IntegerColumn.Wrap`, checked sums and operators, the 64-bit entries of
`StringColumn`, the 63 bits of a packed key and the narrow types in which nulls are fused into it);
arithmetic wraps around where the release build does. Clocks, logging, statistics and the disk are left out.

Where the code does not do what one would expect, the model follows the code, and a lemma says
exactly when the expected property holds:

- `CmpLessThan` reports `is_less_than() == false` for `u64` and `f64`. `TopN` finds the first n rows
  for every column if and only if `is_less_than` agrees with the comparator or n is at most one
  (`TopN.Operator.Finalize`, `TopN.Incoherent`); `TopN.FirstHeap` says when the sorted buffers form a
  heap. With n = 0 it panics on the first value (`TopN.Operator.Execute`).
- Nulls are fused into a grouping key in the type of the stored values. That keeps values apart and in
  order if and only if the type has room for one more value than the range has
  (`BitPacking.FuseExact`, and for whole keys `BitPacking.KeysDistinct`); a nullable column of the
  values 0 to 255 confuses 255 with null (`BitPacking.ByteCollides`). An integer column as stored has
  no room exactly if its range spans 2^8, 2^16 or 2^32 values (`BitPacking.StoredFits`).
- Fusing nulls into `i64::MIN` keeps values apart if and only if null and `i64::MIN` do not meet
  (`PartitionGroups.FuseKeeps`).
- The bits of a packed column are counted in floating point. The count is exact if and only if the
  number of values is not above a power of two by at most half a unit of a double
  (`FloatBits.CountExact`), so always below 2^53; a largest value of 2^53 is given one bit too few and
  is unpacked as zero (`FloatBits.CountShort`).
- `ensure_property` returns the rest in reverse order when no operation lacks the property
  (`Codec.EnsureProperty`, `Codec.FallThrough`). The guard at `src/engine/planning/query_plan.rs:914`
  keeps this branch from being reached.
- Order comparisons of a dictionary column with a constant are decided on codes correctly if and only
  if the constant is in the dictionary or no string comes before it (`StringColumn.EncodedLess`).
- An aggregate in the filter survives normalization, and one in `ORDER BY` does if and only if nothing
  selected has one (`Normalize.NoneSurvives`). A normalized expression keeps its meaning if and only if it has no
  aggregate or the final pass has the columns beside its aggregates (`Normalize.MeaningKept`), which
  it has only if there are none, or by the accident that one is a group-by column named like it
  (`Normalize.OnlyUnderKept`); `Normalize.BareColumnLost` is an example.
- The builder of integer columns rules out differences that overflow downwards but not upwards
  (`IntegerColumn.RiseMayOverflow`); with wrap-around the column still decodes.
- Checked division panics on `i64::MIN / -1`, and it looks at null rows as well: it panics exactly when
  it should if and only if no null row stores that quotient unless a present row does
  (`Nullability.PanicsExactly`); `Nullability.NullRowPanics` is a plan over a nullable column that
  panics although every row is null.
- Merging sorted results compares rows by as many order-by columns as the result has columns but one,
  and by the last one. With two or more order-by columns and at least two columns more than these it
  reads an order-by column that does not exist and panics (`SortedBatches.CombineSorted`,
  `SortedBatches.FourColumnsRefused`); with repeated order-by columns it may skip one that matters, and
  results are sorted if and only if every skipped one repeats an earlier one, or the last in the same
  direction (`SortedBatches.HarmlessExactly`, `SortedBatches.RepeatedColumnSkips`,
  `PartitionQueries.RepetitionSkips`). `QueryAnswers.OrderByResult` says for which queries merging gets
  to a result.
- The test for cycles looks at the stage that grows and at nothing else, so that two stages can depend on
  each other although the operators do not (`StageExamples.CrossedStreams`). They cannot in plans whose
  operators have levels between which the test keeps streams apart (`LevelledGraphs.Levelled`,
  `Stages.LevelledAcyclic`).
- Nothing catches a panic in a worker. Under the mutex it poisons the mutex; elsewhere the worker dies
  with the partitions it has claimed. A query is left without a reply if and only if one of these has
  happened before it was completed (`QueryTask.ReplySent`); `QueryAnswers.LimitZeroUnanswered` is
  `SELECT x FROM t ORDER BY x LIMIT 0`.

## Model

| member | source | states |
|---|---|---|
| `QueryTask.AtMostOneReply` | src/engine/execution/query_task.rs:219-307 | In every interleaving of any number of workers at most one reply is sent. |
| `QueryTask.AnswerComplete` | src/engine/execution/query_task.rs:219-276 | An answer merges no partition twice, and none whose computation panics; it merges every partition exactly once, unless a select without order has collected more rows than its limit. |
| `QueryTask.ReplySent` | src/engine/execution/query_task.rs:135-319 | When all workers have returned or died and none will start again, no reply has been sent if and only if the mutex is poisoned, or the query is not completed and a worker has died with a partition it had claimed. That takes a partition that panics, a merge that may, a final pass or an offset. |
| `QueryTask.CalmReplySent` | src/engine/execution/query_task.rs:135-319 | If nothing can panic, exactly one reply has been sent when all workers have returned. |
| `QueryTask.AnswerSane` | src/engine/execution/query_task.rs:135-276 | A query that needs all partitions is answered with a result only if the computation of none of them panics. |
| `QueryTask.NoDeadlock` | src/engine/execution/query_task.rs:135-307 | While a worker has neither returned nor died, some worker can take a step. |
| `QueryTask.RunsEnd` | src/engine/execution/query_task.rs:135-307 | A run is no longer than three steps per partition and nine per start of a worker, so every run without further starts ends. |
| `QueryTask.InvKept` | src/engine/execution/query_task.rs:135-307 | Every step keeps the invariant: one holder of the mutex, flag and reply together, every claimed partition accounted for once, counters equal to what has been handed in. |
| `QueryTask.OneReplyKept` | src/engine/execution/query_task.rs:252-296 | `completed` and the reply go together, but for the moments between the two stores. |
| `QueryTask.ExclusiveKept` | src/engine/execution/query_task.rs:226-296 | Exactly the holder of the mutex is in a critical section. |
| `QueryTask.OwnedStep` | src/engine/execution/query_task.rs:135-202 | While the query is open, partitions enter the workers' hands only by being claimed and leave them only by an error; a worker that dies keeps its own for good. |
| `QueryTask.AccountedKept` | src/engine/execution/query_task.rs:304-307 | No partition is claimed or merged twice. |
| `QueryTask.NoneLostKept` | src/engine/execution/query_task.rs:283-307 | No claimed partition is lost, unless a worker is about to report an error: it has been handed in, or a worker, living or dead, has it. |
| `QueryTask.CountedKept` | src/engine/execution/query_task.rs:230-243 | `completed_batches` and `rows_collected` count what has been handed in, and stay below the threshold unless the reply is being prepared. |
| `QueryTask.PoisonKept` | src/engine/execution/query_task.rs:226-319 | Only a panic under the mutex poisons it, in merging the results handed in, the final pass or the conversion to rows; the result to unwrap is never missing. |
| `QueryTask.EmptyReached` | src/engine/execution/query_task.rs:117-130 | A query over no partitions is answered at once, and never again. |
| `QueryOutcomes.GoodAnswered` | src/engine/execution/query_task.rs:252-276 | If no operation fails or panics, the one reply is a result, of every partition once or of sufficient rows. |
| `QueryOutcomes.FailureNeedsBad` | src/engine/execution/query_task.rs:283-296 | An error is sent only if some operation of a worker has failed. |
| `QueryOutcomes.BadCombineFails` | src/engine/execution/query_task.rs:236-250 | If combining the results handed in fails, no result is ever sent, and the reply is the error. |
| `QueryOutcomes.AnsweredIff` | src/engine/execution/query_task.rs:135-307 | A query that needs all partitions gets its result if and only if no operation of any worker fails or panics. |
| `QueryOutcomes.OutcomeReached` | src/engine/execution/query_task.rs:135-307 | As long as all goes well, the answer is on its way only when nobody has a partition any more; after the first failure or panic it never will be. |
| `QueryOutcomes.NoNeedlessClaims` | src/engine/execution/query_task.rs:135-202 | After an error no partition is left to be claimed, and no worker that has collected sufficient rows claims one. |
| `QueryOutcomes.CompletedEnds` | src/engine/execution/query_task.rs:186-202 | Once the query is completed, a run takes at most four more steps per worker and five per start, however many partitions are left. |
| `QueryAnswers.AggregateAnswered` | src/engine/execution/query_task.rs:135-276 | Whatever the interleaving, the answer to an aggregate query has the first `limit` groups of the whole table with their aggregates. |
| `QueryAnswers.OrderByAnswered` | src/engine/execution/query_task.rs:135-276 | Whatever the interleaving, the answer to an order-by query is sorted and no row left out comes before one of its first `limit` rows, if no merge skips an order-by column that matters. |
| `QueryAnswers.SelectAnswered` | src/engine/execution/query_task.rs:190-302 | The answer to a plain select has rows of the table, none too often, and at least `limit` unless all; also when the reply did not wait for all partitions. To be exact, it has the first rows in the order of the partitions read: `limit` of them, or all of the first partition if these are more. |
| `QueryAnswers.AggregateQuery` | src/engine/execution/query_task.rs:135-276 | From the rows to the reply: if each part is what filtering and grouping a partition returns, the answer has the first `limit` groups, by tuple, of all rows of all partitions that pass the filter. |
| `QueryAnswers.AggregateMeaning` | src/engine/execution/query_task.rs:135-276 | What the reply means in terms of the rows alone: the first `limit` keys of all rows that pass the filter, in order, each with the sum, the number, the largest or the smallest of the values of its rows that are not null. |
| `Aggregates.GroupsMean` | src/engine/operators/aggregate.rs:19-84 | The groups of a partition are exactly the keys that occur, in order, each with that aggregate of its values. |
| `Aggregates.AccMeans` | src/engine/operators/aggregate.rs:19-84 | Every accumulator holds that aggregate of the values of its key. |
| `Aggregates.TotalMeans` | src/engine/operators/aggregate.rs:19-84 | The total over the rows of a key is that aggregate of their values; without a row there is none. |
| `Aggregates.JoinAggregates` | src/engine/operators/merge_aggregate.rs:71-81 | Joining the aggregates of two lists of values gives the aggregate of both. |
| `Aggregates.GroupByMeans` | src/engine/execution/batch_merging.rs:93-179 | The first n groups of a grouping are the first n keys of the rows, with these aggregates. |
| `Aggregates.FirstGroupsUnique` | src/engine/execution/batch_merging.rs:93-179 | There is only one such list of groups. |
| `QueryAnswers.OrderByQuery` | src/engine/execution/query_task.rs:135-276 | From the rows to the reply: if each part is what filtering and sorting a partition returns, and merging skips only expressions that repeat earlier ones (`PartitionQueries.DifferentOrderable`), the answer is sorted and has the first `limit` of all rows of all partitions that pass the filter. |
| `QueryAnswers.OrderByResult` | src/engine/execution/batch_merging.rs:183-275 | For such queries the workers get to a result, whatever they merge with what, if and only if there is nothing to merge, one expression is ordered by, or there is at most one column more than order-by expressions. |
| `QueryAnswers.AggregateResult` | src/engine/execution/batch_merging.rs:93-179 | From what grouping the partitions returns the workers get to a result, whatever they merge with what, unless a join overflows. |
| `QueryAnswers.LimitZeroUnanswered` | src/engine/execution/query_task.rs:135-202 | A run of `ORDER BY x LIMIT 0` over a partition of two rows that ends without a reply and without a poisoned mutex. |
| `PartitionQueries.GroupPartition` | src/engine/planning/query.rs:171-362 | One partition of an aggregate query: filters all columns, packs the keys, groups every aggregate on the dense or hash path over any chunking, unpacks the keys. Fails if and only if a sum overflows; otherwise every aggregate column groups the rows that pass the filter by their tuples. |
| `PartitionQueries.GroupRows` | src/engine/planning/query.rs:188-362 | The same for the rows that are left. |
| `PartitionQueries.ColumnGroups` | src/engine/planning/query.rs:319-362 | Groups by packed key with their keys unpacked group the rows by tuple. |
| `PartitionQueries.SameKeys` | src/engine/planning/query.rs:252-317 | All aggregates of a partition have the same groups in the same order. |
| `PartitionQueries.SortPartition` | src/engine/planning/query.rs:42-118 | One partition of an order-by query, with a filter, and `TopN` or sorting passes as the source chooses: whole rows that pass the filter, sorted, none left out that comes before one of the first `limit`. Panics exactly if `TopN` is chosen for no rows and some row passes. |
| `PartitionQueries.KeptRows` | src/engine/planning/query.rs:93-110 | Sorting is about the rows of the partition of which the condition holds. |
| `PartitionQueries.KeptSelects` | src/engine/planning/query.rs:93-110 | Sort indices looked up among the indices of the rows kept select the same rows of the whole partition. |
| `PartitionQueries.CollectRows` | src/engine/execution/scratchpad.rs:159-207 | The selected and order-by columns of the rows with the given indices, each buffer once. |
| `PartitionQueries.OrderableIff` | src/engine/execution/batch_merging.rs:221-226 | If the last expression is not ordered by before, merging skips nothing that matters if and only if every skipped expression repeats an earlier one. |
| `PartitionQueries.DifferentOrderable` | src/engine/execution/batch_merging.rs:221-226 | That holds for all queries that order by different expressions. |
| `PartitionQueries.RepetitionSkips` | src/engine/execution/batch_merging.rs:221-226 | It does not hold for `SELECT a, b, c FROM t ORDER BY a, a, b, c`. |
| `Filtering.FilterColumn` | src/engine/operators/filter.rs:14-77 | A filtered column has exactly the values of the rows that pass, in order; rows whose condition is null do not pass. |
| `Aliasing.CollectAliased` | src/engine/execution/scratchpad.rs:159-207 | The loops give every buffer one column, in order of first use, and every use its number. |
| `Aliasing.SameNumbers` | src/engine/execution/scratchpad.rs:159-207 | The numbers depend only on which uses share a buffer. |
| `Aliasing.CollectCanonical` | src/engine/execution/scratchpad.rs:159-207 | Collecting columns by their numbers again changes nothing. |
| `PartitionQueries.TopIndices` | src/engine/planning/query.rs:76-80 | `TopN` over any chunking of the column yields the first rows in order. |
| `WorkerStack.MergeLevels` | src/engine/execution/query_task.rs:170-185 | The loop merges a new result with those of the same level. |
| `WorkerStack.MergedKeeps` | src/engine/execution/query_task.rs:170-185 | Levels stay strictly decreasing, every result is a perfect tree, and the partitions merged are those before plus the new ones. |
| `WorkerStack.PerfectCount` | src/engine/execution/query_task.rs:170-185 | `batch_count` is two to the power of `level`. |
| `WorkerStack.StackIsBinary` | src/engine/execution/query_task.rs:170-171 | The levels are the binary digits of the number of partitions: the stack is logarithmic. |
| `WorkerStack.CombineResults` | src/engine/execution/query_task.rs:204-217 | Folds the results from first to last, and yields nothing for none. |
| `WorkerStack.FoldedLeaves` | src/engine/execution/query_task.rs:204-217 | The combined result merges the same partitions in the same order. |
| `MergeTree.GroupTreeCorrect` | src/engine/execution/batch_merging.rs:93-179 | Whatever the tree of merges over all partitions, truncated at the limit anywhere, the first `limit` groups are those of grouping the whole table. |
| `MergeTree.GroupTreeFits` | src/engine/execution/batch_merging.rs:93-179 | Merge results can be merged again. |
| `MergeTree.GroupTreeExists` | src/engine/execution/batch_merging.rs:93-179 | Every tree over partition results has a result, unless some merge joins aggregates that overflow. |
| `MergeTree.OrderTreeCorrect` | src/engine/execution/batch_merging.rs:183-275 | Whatever the tree of merges, the result is sorted and no row left out comes before one of its first `limit` rows, if no merge skips an order-by column that matters. |
| `MergeTree.TreeSafe` | src/engine/execution/batch_merging.rs:183-275 | If the partition results have one layout that skips nothing that matters and does not order by its last column before, no merge along any tree does, and every result has that layout. |
| `MergeTree.OrderTreeIff` | src/engine/execution/batch_merging.rs:205-233 | Then a tree with a merge has a result if and only if there are not two order-by columns and two columns more. |
| `MergeTree.SelectTreeRows` | src/engine/execution/batch_merging.rs:277-327 | Whatever the tree, the rows are rows of the partitions, none too often, and at least `limit` unless all. |
| `MergeTree.SelectTreeExact` | src/engine/execution/batch_merging.rs:277-327 | Exactly the first rows of the partitions in the order of the tree, `limit` of them, or all of the first partition if these are more. |
| `MergeTree.CombineSelect` | src/engine/execution/batch_merging.rs:277-312 | Every column is extended alike, so whole rows are appended up to the limit. |
| `Indices.GatherPermutation` | src/engine/execution/query_task.rs:304-307 | The order in which partitions are read does not change the rows. |
| `BatchMerging.CombineGroups` | src/engine/execution/batch_merging.rs:93-179 | Fails if and only if a pair of groups to be joined overflows; otherwise the result is the merge of all groups, cut off only behind the first `limit` groups. |
| `BatchMerging.CombinedExists` | src/engine/execution/batch_merging.rs:93-179 | Two sides whose aggregates can be joined have a merge. |
| `BatchMerging.MergeKeys` | src/engine/execution/batch_merging.rs:113-146 | The plan merges the rows of both sides, for any number of key columns, and every key column is replayed by it. |
| `BatchMerging.PartitionKeys` | src/engine/execution/batch_merging.rs:126-132 | Partition and repeated subpartition cut both sides into runs of equal keys on all columns but the last, covering all rows or certainly `limit` groups. |
| `BatchMerging.MergeLastKey` | src/engine/execution/batch_merging.rs:126-136 | Merging the last column run by run merges whole rows. |
| `BatchMerging.MergeOneKey` | src/engine/execution/batch_merging.rs:122-125 | With one key column the plan merges all rows. |
| `BatchMerging.MergedGroups` | src/engine/execution/batch_merging.rs:148-156 | Replaying the plan on an aggregate column gives the merge of the covered groups; it fails if and only if a join does. |
| `BatchMerging.PlanCutsBehind` | src/engine/operators/partition.rs:44-83 | Cutting off at the runs a limited partitioning covers is cutting off behind the first `limit` groups. |
| `BatchMerging.TableMerged` | src/engine/execution/batch_merging.rs:158-179 | Replayed columns form the table of merged groups, with strictly sorted keys. |
| `BatchMerging.MergeSplit` | src/engine/operators/merge_deduplicate_partitioned.rs:44-71 | Groups before and behind a cut are merged independently. |
| `Partitioning.Partition` | src/engine/operators/partition.rs:39-85 | Runs of equal values of the first column in strictly increasing order, until all rows are covered or `limit` result rows are certain, and no longer. |
| `Partitioning.Subpartition` | src/engine/operators/subpartition.rs:37-68 | Refines runs on c columns into runs on c + 1 columns of the same rows. |
| `Partitioning.RefineGroup` | src/engine/operators/subpartition.rs:47-65 | Cuts one group into runs. |
| `Partitioning.TakeRun` | src/engine/operators/partition.rs:47-58 | The next run is that of the smaller of the values at the cursors, and everything behind it comes later. |
| `Partitioning.CutOff` | src/engine/operators/partition.rs:44-83 | Rows before a run come before all rows from that run on. |
| `DedupMerge.WeightSound` | src/engine/operators/partition.rs:57-57 | `min_elems` never exceeds the number of groups the runs lead to. |
| `GroupKernels.MergeDeduplicatePartitioned` | src/engine/operators/merge_deduplicate_partitioned.rs:37-72 | The plan deduplicates the whole rows that the runs cover, and the result is its replay on the last column. |
| `GroupKernels.DedupRun` | src/engine/operators/merge_deduplicate_partitioned.rs:45-70 | Merges the rows of one run. |
| `GroupKernels.MergeDeduplicate` | src/engine/operators/merge_deduplicate.rs:35-74 | The merge with two cursors and its tails deduplicates both sides. |
| `GroupKernels.MergeDrop` | src/engine/operators/merge_drop.rs:34-56 | Replays a plan on a column that was not compared. |
| `GroupKernels.MergeAggregate` | src/engine/operators/merge_aggregate.rs:37-65 | Replays a plan on an aggregate column, or returns the first error. |
| `GroupMerge.Combine` | src/engine/operators/merge_aggregate.rs:71-81 | Joins two aggregates; fails exactly for a sum that overflows and for float aggregators. |
| `GroupMerge.AggregateValues` | src/engine/operators/merge_aggregate.rs:37-65 | Replaying the row plan joins the values of equal keys and fails if and only if one of these joins does. |
| `GroupMerge.ReplayKeys` | src/engine/operators/merge_drop.rs:34-56 | Replaying the row plan on the keys gives the merged keys. |
| `GroupBy.MergeIsGroupBy` | src/engine/execution/batch_merging.rs:93-179 | Merging the groupings of two sets of rows is grouping all the rows: sorted union of keys, combined aggregates. |
| `GroupBy.GroupByUnique` | src/engine/execution/batch_merging.rs:93-179 | A set of rows has one grouping only. |
| `GroupBy.TotalPermutation` | src/engine/execution/batch_merging.rs:93-179 | The order of the rows does not matter to the aggregate. |
| `GroupBy.MergeTop` | src/engine/execution/query_task.rs:170-185 | The first n groups of a merge depend on the first n groups of each side only. |
| `BatchMerging.ReplayKeyColumns` | src/engine/execution/batch_merging.rs:138-144 | Every key column but the last is the replay of the plan on that column. |
| `SortedBatches.CombineSorted` | src/engine/execution/batch_merging.rs:183-275 | Panics if and only if there are two or more order-by columns and at least two columns more than these; otherwise a plan that merges rows by the columns compared, up to the limit, makes up every column, and shared columns are collected once. |
| `SortedBatches.MergeOrder` | src/engine/execution/batch_merging.rs:205-233 | Panics in the same case; otherwise the plan is a prefix of the merge of rows by the columns compared, for any number of order-by columns: all of it, or `limit` rows. |
| `SortedBatches.PartitionOrder` | src/engine/execution/batch_merging.rs:213-226 | Panics in the same case; otherwise runs on as many order-by columns as there are columns but one, covering all rows or at least `limit`. |
| `SortedBatches.AssembledColumns` | src/engine/execution/batch_merging.rs:235-254 | Every selected and order-by column of the result is that of both sides, kept by the plan. |
| `SortedBatches.HarmlessMerged` | src/engine/execution/batch_merging.rs:183-275 | If every skipped order-by column repeats an earlier one, or the last in the same direction, the result is the merge of the rows of both sides, cut off at the limit, ties from one side. |
| `SortedBatches.HarmfulUnsorted` | src/engine/execution/batch_merging.rs:221-226 | Otherwise, for every such layout, there are two rows that come out in the wrong order. |
| `SortedBatches.HarmlessExactly` | src/engine/execution/batch_merging.rs:221-226 | For every layout: results are sorted, whatever the columns hold, if and only if nothing that matters is skipped. |
| `SortedBatches.CombinedExists` | src/engine/execution/batch_merging.rs:183-275 | What is not refused has a result. |
| `SortedBatches.LayoutKept` | src/engine/execution/batch_merging.rs:235-262 | If the last column is not ordered by before, a merge of two results with one layout has that layout again. |
| `SortedBatches.FourColumnsRefused` | src/engine/execution/batch_merging.rs:221-226 | `SELECT a, b, c, d FROM t ORDER BY a, b` is refused. |
| `SortedBatches.RepeatedColumnSkips` | src/engine/execution/batch_merging.rs:221-226 | `SELECT a, b FROM t ORDER BY a, b, a` is not refused, and `b` is skipped. |
| `SortedBatches.RowsKept` | src/engine/execution/batch_merging.rs:235-254 | Keeping every column by one plan keeps whole rows. |
| `OrderedMerge.MergeColumns` | src/engine/operators/merge.rs:39-68 | Merges one order-by column; exactly the first min(limit, total) rows, ties from the right. |
| `OrderedMerge.MergeTails` | src/engine/operators/merge.rs:58-67 | Copies what is left of one side, up to the limit. |
| `OrderedMerge.MergePartitioned` | src/engine/operators/merge_partitioned.rs:41-68 | Merges the last of several order-by columns run by run; exactly the first min(limit, total) rows covered, ties from the left. |
| `OrderedMerge.MergeRun` | src/engine/operators/merge_partitioned.rs:50-66 | Merges one run, up to the limit. |
| `OrderedMerge.MergeKeep` | src/engine/operators/merge_keep.rs:36-104 | Moves a column, or a nullable one with its flags, by the rows of the plan. |
| `OrderedMerge.KeepAt` | src/engine/operators/merge_keep.rs:36-50 | Entry n of a kept column comes from the same place in every column. |
| `OrderBy.MergeTopOf` | src/engine/operators/merge.rs:39-68 | Merging two answers and cutting off behind row n answers the query for all rows. |
| `OrderBy.MergeRowsSorted` | src/engine/operators/merge.rs:39-68 | A merge of sorted rows is sorted. |
| `OrderBy.MergeRowsAll` | src/engine/operators/merge.rs:39-68 | A merge keeps every row. |
| `MergePlans.RowOpsSplit` | src/engine/operators/merge_deduplicate_partitioned.rs:44-71 | The deduplicating plan of two separated blocks is the plan of the first followed by that of the second. |
| `PartitionSort.SortIndices` | src/engine/planning/query.rs:68-92 | Passes from the last order-by column to the first, stable but for the first, sort the rows lexicographically and lose none. |
| `PartitionSort.StablePass` | src/engine/planning/query.rs:83-89 | A stable pass over one column after the later columns sorts by all of them. |
| `PartitionSort.StableSort` | src/engine/operators/sort_by.rs:14-31 | Sorted by the column in the given direction, with equal rows in their old order. |
| `PartitionSort.PassesTopOf` | src/engine/planning/query.rs:68-92 | The passes answer the query for the rows of the partition. |
| `PartitionSort.TopNTopOf` | src/engine/planning/query.rs:76-80 | So does `TopN` for a single order-by column. |
| `TopN.Operator.constructor` | src/engine/operators/top_n.rs:18-21 | Empty buffers for n indices, for any n and any comparator. |
| `TopN.Operator.Execute` | src/engine/operators/top_n.rs:23-58 | For any chunking: distinct indices with their keys; with a coherent comparator a heap once full, and no index left out with a better key. Panics if and only if there is a value and n = 0. |
| `TopN.Operator.FillUp` | src/engine/operators/top_n.rs:29-47 | Fills the buffers up to n entries and sorts them when full, in the direction of `is_less_than`. |
| `TopN.Operator.Offer` | src/engine/operators/top_n.rs:50-54 | A key better than that at the root takes its place, and any other is turned away; with a coherent comparator the best n stay. |
| `TopN.Operator.Finalize` | src/engine/operators/top_n.rs:60-78 | Returns min(n, len) distinct indices; with a coherent comparator or n at most one the best ones, in order. |
| `TopN.HeapReplace` | src/engine/operators/top_n.rs:89-108 | Replaces the root in place: a heap again, with keys and indices aligned, and exactly the root's index exchanged. |
| `TopN.PickChild` | src/engine/operators/top_n.rs:91-104 | The child that moves up is the worse one, and none moves if no child is worse than the key. |
| `TopN.FirstHeap` | src/engine/operators/top_n.rs:35-44 | The sorted buffers are a heap if and only if `is_less_than` agrees with the comparator or all keys are equal. |
| `TopN.Incoherent` | src/engine/operators/comparator.rs:38-48 | With a comparator that disagrees and n of two or more, running the operator on a column that ends with its second best value loses that row. |
| `TopN.LateLost` | src/engine/operators/top_n.rs:50-54 | With the best key at the root the second best is turned away, and what is kept is not the best n. |
| `TopN.BestReplace` | src/engine/operators/top_n.rs:51-53 | Exchanging the worst key for a better one keeps the best n. |
| `BitPacking.TryBitpacking` | src/engine/planning/query_plan.rs:1454-1547 | Succeeds if and only if there are columns, all ranges are known and they fit 63 bits; the plan computes the packed key, with a shift and width for each column and the largest key. |
| `BitPacking.GroupingKey` | src/engine/planning/query_plan.rs:1462-1547 | If every type has room for null: every key is between 0 and `largest_key`, fits 64 bits, unpacks to every column, nulls included, and orders rows lexicographically with nulls first. |
| `BitPacking.KeyBounds` | src/engine/planning/query_plan.rs:1530-1531 | Every key is at most the largest key, which is below two to the total width. |
| `BitPacking.KeyOrder` | src/engine/planning/query_plan.rs:1471-1531 | The order of keys is the lexicographic order of tuples, and equal keys are equal tuples. |
| `BitPacking.Unpacked` | src/engine/operators/bit_unpack.rs:13-22 | Shifting and masking restores the encoded value, which decodes to the value. |
| `BitPacking.EncodeColumn` | src/engine/operators/fuse_nulls.rs:161-174 | If the type has room for null, the encoding of every value in range decodes to it; null is zero. |
| `BitPacking.EncodeOrder` | src/engine/operators/fuse_nulls.rs:161-174 | If the type has room for null, encoding a column keeps order and distinctness, with null first. |
| `BitPacking.EncodeBounds` | src/engine/planning/query_plan.rs:1480-1490 | Every encoding is between 0 and `adjusted_max`, also where it wraps around. |
| `BitPacking.FuseValue` | src/engine/operators/fuse_nulls.rs:161-174 | The fused code is the distance from the lower end of the range plus one, or zero where the narrow type has no room for it. |
| `BitPacking.FuseExact` | src/engine/operators/fuse_nulls.rs:161-174 | Round trip, order and distinctness hold for every value in range if and only if the type has room for null beside the values. |
| `BitPacking.FuseCollides` | src/engine/operators/fuse_nulls.rs:161-174 | Without room the largest value gets the code of null. |
| `BitPacking.ByteCollides` | src/engine/operators/fuse_nulls.rs:161-174 | In a nullable column of the values 0 to 255, 255 becomes null. |
| `BitPacking.StoredFits` | src/mem_store/integers.rs:36-54 | An integer column as stored has room for null if and only if its range spans neither 2^8 nor 2^16 nor 2^32 values. |
| `BitPacking.KeysDistinct` | src/engine/planning/query_plan.rs:1471-1531 | Different rows have different keys if and only if every type has room for null. |
| `BitPacking.MaskExact` | src/engine/operators/bit_unpack.rs:13-22 | The mask is exact up to width 63, where computing it wraps around. |
| `FloatBits.CountExact` | src/engine/planning/query_plan.rs:1471-1473 | The count is the bit length if and only if `max + 1` is not above a power of two by at most half a unit in the last place, for floating point of any precision. |
| `FloatBits.CountShort` | src/engine/planning/query_plan.rs:1471-1473 | At two to the precision the count is one too small, and that value is unpacked as zero. |
| `BitPacking.RangeSound` | src/engine/planning/query_plan.rs:1217-1280 | Every value that a plan yields lies in its encoding range, for filters, casts, years, divisions and sums. |
| `BitPacking.NextComputes` | src/engine/planning/query_plan.rs:1505-1509 | Starting over while no bits are used, packing on top, and skipping a column of width zero all compute the key. |
| `PartitionGroups.UnpackedIsGroupBy` | src/engine/planning/query.rs:319-362 | Grouping by packed keys and unpacking the keys of the groups is grouping by tuples. |
| `PartitionGroups.PackedAlike` | src/engine/planning/query.rs:188-206 | If every type has room for null and null does not meet `i64::MIN`, packed keys and tuples with fused nulls order rows alike. |
| `PartitionGroups.FusedOrder` | src/engine/operators/fuse_nulls.rs:11-24 | Fusing nulls into the smallest integer keeps the order of tuples in which null does not meet that integer. |
| `PartitionGroups.FuseKeeps` | src/engine/operators/fuse_nulls.rs:11-24 | Fusing keeps two values apart and in order if and only if they are not null and `i64::MIN`. |
| `Grouping.GroupDense` | src/engine/planning/query.rs:208-317 | For any chunking, fails if and only if a group's prefix sum leaves the 64-bit range; otherwise strictly sorted keys aligned with the aggregate of each group, whether `Exists` or a count selects them. |
| `Grouping.GroupHash` | src/engine/planning/query.rs:208-362 | The same on the hash path, after sorting. |
| `Grouping.SameGroups` | src/engine/planning/query.rs:213-229 | Both paths yield the same keys with the same aggregates. |
| `Grouping.Aggregate.Execute` | src/engine/operators/aggregate.rs:107-215 | Accumulators hold the aggregate of every key after each chunk; fails if and only if some group's sum has left the range. |
| `Grouping.Exists.Execute` | src/engine/operators/exists.rs:12-26 | Marks exactly the keys that occur. |
| `Grouping.CountSelects` | src/engine/planning/query.rs:245-249 | A count of values that are never null selects exactly the keys that occur. |
| `Grouping.CountBounded` | src/engine/operators/aggregate.rs:46-54 | No count exceeds the number of rows. |
| `Grouping.HashMapGrouping.Execute` | src/engine/operators/hashmap_grouping.rs:35-53 | Numbers keys in order of appearance, consistently over all chunks. |
| `Grouping.NonzeroIndices` | src/engine/operators/nonzero_indices.rs:10-19 | The selected indices in order. |
| `Grouping.Compact` | src/engine/operators/compact.rs:11-24 | In place, the selected entries in order, for data and selectors of any lengths. |
| `Grouping.DenseIsGroupBy` | src/engine/planning/query.rs:252-317 | Nonzero indices and compacted accumulators are the grouping of the rows. |
| `Grouping.HashIsGroupBy` | src/engine/planning/query.rs:328-362 | Numbered keys sorted with their accumulators are the grouping of the rows. |
| `Grouping.NumberedOverflow` | src/engine/operators/aggregate.rs:196-215 | Sums overflow by number exactly if they do by key. |
| `Stages.Partition` | src/engine/execution/executor.rs:147-467 | Panics if and only if an operator writes one of its own inputs; otherwise every operator runs exactly once, and without cycles after everything that must run before it; a levelled plan has no cycles. |
| `Stages.GroupOperators` | src/engine/execution/executor.rs:176-383 | The loop ends, and every operator is in exactly one stage exactly once; stages without cycles are in topological order; in a levelled plan stages have one level each. |
| `Stages.StageDependencies` | src/engine/execution/executor.rs:392-412 | A stage depends on another exactly if one of its operators must run after one of the other's. |
| `Stages.NeededBefore` | src/engine/execution/executor.rs:326-467 | What an operator needs runs before it: in the same stage or an earlier one. |
| `Stages.PlanOnce` | src/engine/execution/executor.rs:390-467 | The ordered stages run every operator exactly once. |
| `OperatorGraph.Wire` | src/engine/execution/executor.rs:148-159 | The lists of consumers and producers are exact. |
| `OperatorGraph.ParentsChildren` | src/engine/execution/executor.rs:207-232 | Producers of inputs and consumers of outputs are two sides of one relation. |
| `StageGrowth.GrowStage` | src/engine/execution/executor.rs:202-324 | The loop with its two revisit lists ends; the stage consists of new operators. Each but the first was taken in as a neighbour that introduces no cycle with the operators entered before it, and every neighbour without a stage would introduce one. |
| `StageGrowth.GrowOnce` | src/engine/execution/executor.rs:208-323 | Each round visits more operators, uses up entries of visited ones, or leaves fewer to visit. |
| `StageGrowth.Mark` | src/engine/execution/executor.rs:207-232 | Marks exactly what is reachable along the edges, on top of what was marked. |
| `StageGrowth.Expand` | src/engine/execution/executor.rs:234-289 | Takes streamable neighbours in if that introduces no cycle, and puts off all others; no operator enters twice, and none is overlooked. |
| `StageGrowth.Revisit` | src/engine/execution/executor.rs:291-324 | Entries are taken in, duplicates included, or kept, exactly those that would introduce a cycle; nothing is lost. |
| `StageGrowth.ConflictIff` | src/engine/execution/executor.rs:251-283 | The test fails exactly if a consumer of the producer, or producer of the consumer, lies outside the stage and is a transitive input, or output, of it. |
| `LevelledGraphs.StageLevel` | src/engine/execution/executor.rs:202-324 | In a levelled plan all operators of a stage have the level of the first one. |
| `LevelledGraphs.StageComplete` | src/engine/execution/executor.rs:202-324 | And operators of that level that exchange data with it are in it. |
| `Stages.LevelledAcyclic` | src/engine/execution/executor.rs:390-467 | So the stages of a levelled plan, and the operators in each, do not depend on each other in a cycle. |
| `StageExamples.PlanSkipping` | src/engine/execution/executor.rs:147-467 | A plan in which an operator streams past one that must wait: it is levelled, the operators are kept in two stages, and all run after what they need. |
| `StageExamples.CrossedStreams` | src/engine/execution/executor.rs:202-324 | A plan without a cycle whose two stages depend on each other. |
| `StageOrder.SortStage` | src/engine/execution/executor.rs:326-353 | Emits every operator of the stage exactly once despite duplicates, and in topological order if the stage has no cycle; fails if and only if an operator is its own producer. |
| `StageOrder.PushDependencies` | src/engine/execution/executor.rs:331-347 | Pushes exactly the same-stage producers, and for mutated inputs the other same-stage consumers. |
| `StageOrder.TopIsReady` | src/engine/execution/executor.rs:348-351 | An opened operator on top of the stack waits for nothing any more. |
| `StageSort.SortStages` | src/engine/execution/executor.rs:414-467 | Always a permutation of the stages, in order of their dependencies if these have no cycle. |
| `StageSort.Visit` | src/engine/execution/executor.rs:418-451 | Commits the stage unless it is in progress; with a cycle it returns without it. |
| `Codec.EnsureProperty` | src/mem_store/codec.rs:268-283 | Splits behind the last operation on the spine that lacks the property; first and rest make up the codec if and only if there is one, or the codec is a palindrome. |
| `Codec.SplitRestores` | src/mem_store/codec.rs:167-180 | Decoding the first part and then the rest is decoding the codec, the stack holds one value in between, and all of the rest's spine has the property. |
| `Codec.SplitDecodes` | src/mem_store/codec.rs:113-165 | A codec can be split wherever the stack holds a single value. |
| `Codec.HasProperty` | src/mem_store/codec.rs:244-255 | True if and only if every operation on the spine has the property. |
| `CodecMeaning.HasExactly` | src/mem_store/codec.rs:354-398 | An operation has a property if and only if the engine may select rows, compare them, or sum them up before the operation instead of behind it. |
| `CodecMeaning.HasKeeps` | src/mem_store/codec.rs:354-398 | The first half for each operation: selection commutes with it, order is the same, sums are the same, if no addition wraps around and the dictionary is sorted. |
| `CodecMeaning.DeltaLacks` | src/mem_store/codec.rs:354-398 | For running sums none of this holds, with a column for each property. |
| `CodecMeaning.AddLacks` | src/mem_store/codec.rs:354-366 | Adding an amount other than zero changes a sum. |
| `CodecMeaning.SelectThenDecode` | src/mem_store/codec.rs:167-180 | If the whole spine can be decoded element by element, decoding selected rows is selecting decoded rows. |
| `CodecMeaning.CompareThenDecode` | src/mem_store/codec.rs:244-255 | If it preserves order, encoded rows compare as decoded ones. |
| `CodecMeaning.SumThenDecode` | src/mem_store/codec.rs:244-255 | If it preserves sums, encoded rows have the sum of decoded ones. |
| `CodecMeaning.ReadColumn` | src/engine/planning/query_plan.rs:911-925 | Whatever the codec, decoding its first part, selecting rows and decoding the rest gives the selected rows of the column. |
| `CodecMeaning.IntegerRows` | src/engine/planning/query_plan.rs:911-925 | For stored integer columns these are the values, with their null flags, of the rows selected. |
| `Codec.PopPush` | src/mem_store/codec.rs:285-292 | Takes exactly one argument off the end, with all it needs. |
| `Codec.DecodeOps` | src/mem_store/codec.rs:113-165 | The stack never runs empty and a single plan is left. |
| `Codec.FallThrough` | src/mem_store/codec.rs:282-282 | A codec that already has the property, such as that of a dictionary column, comes back in the wrong order. |
| `IntegerColumn.NewBoxed` | src/mem_store/integers.rs:10-89 | For every column, `unreachable!` is never reached, and the stored values restore the values or differences when the offset is added. |
| `IntegerColumn.ColumnDecodes` | src/mem_store/integers.rs:101-117 | For every width, offset, differences or not, nulls or not, the codec decodes the stored column to its values and flags. |
| `IntegerColumn.CodecWellFormed` | src/mem_store/integers.rs:101-117 | The codecs of integer columns are well formed. |
| `IntegerColumn.IntervalExact` | src/mem_store/integers.rs:36-40 | The interval is exact although the subtraction may wrap around. |
| `IntegerColumn.ChooseFits` | src/mem_store/integers.rs:41-54 | Every value fits the chosen width after subtracting the chosen offset. |
| `IntegerColumn.ChooseNarrowest` | src/mem_store/integers.rs:41-54 | No narrower width has room for the range, and values that fit are stored without an offset. |
| `IntegerColumn.EncodeDeltas` | src/mem_store/integers.rs:24-35 | Replaces values by differences in place and finds their exact range. |
| `IntegerColumn.EncodeValues` | src/mem_store/integers.rs:126-136 | Subtracts the offset; reaches `unreachable!` exactly if a value does not fit. |
| `IntegerColumn.SumDeltas` | src/engine/operators/delta_decode.rs:11-23 | Summing up differences restores the values, whether or not differences overflow. |
| `IntegerColumn.SumsAppend` | src/engine/operators/delta_decode.rs:11-23 | Sums may be taken chunk by chunk if the last one is carried over. |
| `IntegerColumn.DeltaDecode.Execute` | src/engine/operators/delta_decode.rs:11-23 | The chunks decoded so far are the running sums of all encoded so far. |
| `IntegerColumn.IntColBuilder.Push` | src/mem_store/column_builder.rs:83-95 | Tracks the exact range, the number of rises, and whether a fall overflows. |
| `IntegerColumn.IntColBuilder.Finalize` | src/mem_store/column_builder.rs:97-107 | The column built decodes to the values pushed; differences are stored if and only if compression is on, no fall overflows and more than nine tenths of the values rise. |
| `IntegerColumn.RiseMayOverflow` | src/mem_store/column_builder.rs:88-92 | A rise that overflows does not rule out differences. |
| `PackedStrings.Unpack` | src/stringpack.rs:44-110 | Packing and unpacking restores every list of strings, lengths of 255 and above included. |
| `PackedStrings.Push` | src/stringpack.rs:55-64 | Appends the length bytes and the string. |
| `PackedStrings.FromIterator` | src/stringpack.rs:46-53 | Packs all strings in order. |
| `PackedStrings.StringPackerIterator.Next` | src/stringpack.rs:93-110 | Yields the strings packed, one by one, then nothing. |
| `PackedStrings.ReadLength` | src/stringpack.rs:98-104 | Reads back a length of any number of bytes. |
| `StringColumn.BuildColumn` | src/mem_store/strings.rs:19-130 | On every path the stored column stands for the strings; it has a dictionary if and only if there are fewer different strings than half of all, or hardly any, and hexadecimal packing if and only if the source chooses it. |
| `StringColumn.DecodeColumn` | src/mem_store/strings.rs:19-130 | Every column decodes to its strings on the dictionary, packed and hexadecimal paths. |
| `StringColumn.BuildDictionary` | src/mem_store/strings.rs:59-124 | Strictly sorted dictionary, with codes that fit their type and stand for the strings. |
| `StringColumn.PushIndexed` | src/stringpack.rs:10-16 | The strings pushed before and the new one can all be read back. |
| `StringColumn.EntryDecodes` | src/stringpack.rs:13-27 | An entry can be decoded if and only if the length fits 24 bits and the offset 40 bits. |
| `StringColumn.DictLookup` | src/engine/operators/dict_lookup.rs:13-30 | Looks up every code in the dictionary. |
| `StringColumn.InverseDictLookup` | src/engine/operators/dict_lookup.rs:55-74 | The code of the constant, or -1 if and only if it is not in the dictionary. |
| `StringColumn.CodesOrdered` | src/mem_store/strings.rs:59-76 | Codes are ordered like strings, and equal exactly if the strings are. |
| `StringColumn.EncodedEquals` | src/engine/operators/dict_lookup.rs:55-74 | Equality with any constant can be decided on codes. |
| `StringColumn.EncodedLess` | src/engine/operators/dict_lookup.rs:55-74 | Order comparisons with a constant can be decided on codes if and only if it is in the dictionary or no string comes before it. |
| `Normalize.Normalize` | src/engine/planning/query.rs:445-530 | Fails exactly on nested aggregates; every final expression stands for the original one over the columns of the main phase, order and directions kept, and the filter stays with the main phase. |
| `Normalize.SameMeaning` | src/engine/planning/query.rs:445-570 | Evaluating the final expression over the main phase's columns is evaluating the original, for values of any kind, if columns beside aggregates are columns of the final pass. |
| `Normalize.MeaningKept` | src/engine/planning/query.rs:445-570 | The final expression means the same as the original, whatever columns, aggregates and functions stand for, if and only if the original has no aggregate or the final pass has every column beside its aggregates. |
| `Normalize.OnlyUnderKept` | src/engine/planning/query.rs:458-475 | The final pass has the columns beside aggregates if there are none, and only then unless one is named like a group-by column. |
| `Normalize.FreeExtracted` | src/engine/planning/query.rs:533-570 | With expressions standing for themselves, the final expression is the original one if and only if the final pass has every column beside its aggregates. |
| `Normalize.ExtractMeans` | src/engine/planning/query.rs:533-570 | Replacing aggregates by column names keeps the meaning. |
| `Normalize.ExtractShape` | src/engine/planning/query.rs:533-570 | No aggregate is left in the expression or within an aggregate; there are aggregates exactly if the expression has some. |
| `Normalize.NamesUnique` | src/engine/planning/query.rs:458-540 | No two columns of the final pass have the same name. |
| `Normalize.NoneSurvives` | src/engine/planning/query.rs:479-530 | No aggregate survives in any expression or filter if and only if the filter has none, and the order-by expressions have none or the selected ones have some. |
| `Normalize.BareColumnLost` | src/engine/planning/query.rs:563-568 | A column beside an aggregate is lost: an example. |
| `Nullability.PerformRewrites` | src/engine/planning/planner.rs:53-66 | If the new plan executes, every operation has its meaning (present exactly where all inputs are, values unchanged), fails exactly when a present row should, and panics exactly when the original would; conversely every meaning of a straight-line plan can be had by running the new plan on the same inputs; new buffers are written exactly once; and after one pass no guard matches. |
| `Nullability.RewrittenRuns` | src/engine/planning/planner.rs:53-66 | Buffers that have the meaning of a straight-line plan can be had, with the same columns and untouched inputs, by running the new plan. |
| `Nullability.RewrittenMeans` | src/engine/planning/planner.rs:53-66 | Buffers on which the new plan executes have the meaning of the original plan. |
| `Nullability.RewrittenAllocates` | src/engine/planning/planner.rs:302-362 | The new plan writes what the original one does and each newly counted buffer; new ones once, old ones once if the original plan does. |
| `Nullability.RewriteMeans` | src/engine/planning/planner.rs:73-300 | The operations that replace an operation compute what it means. |
| `Nullability.RewriteFails` | src/engine/planning/planner.rs:98-202 | They fail exactly if a row with both inputs present overflows or divides by zero. |
| `Nullability.RewritePanics` | src/engine/planning/planner.rs:157-202 | The operations that replace a division panic exactly if some row, null or not, stores `i64::MIN / -1`. |
| `Nullability.PanicsExactly` | src/engine/operators/numeric_operators.rs:101-129 | A division panics exactly when it should if and only if no null row stores `i64::MIN / -1` unless a present row does. |
| `Nullability.Rewrite` | src/engine/planning/planner.rs:73-348 | None of the replacements matches a guard again. |
| `Nullability.KeepView` | src/engine/operators/merge_keep.rs:83-104 | Keeping values and flags apart keeps the column of optional values. |
| `Nullability.NullableCheckedBinary` | src/engine/operators/binary_operator.rs:244-265 | Panics if and only if some row, present or not, stores `i64::MIN / -1`; otherwise computes every row, and overflows if and only if a present row does. |
| `Nullability.NullRowPanics` | src/engine/operators/numeric_operators.rs:101-129 | `(a - I64_MAX - 1) / (a - 1)` panics where `a` is null and stored as zero, although no row is present. |
| `ColumnCache.CacheConsistent` | src/mem_store/partition.rs:132-158 | From any partitions on disk: whenever the lock of a handle is free, resident iff cached, and cached iff in the LRU, the victim just popped, or awaiting registration. |
| `ColumnCache.AllEvictable` | src/scheduler/inner_locustdb.rs:215-240 | When all threads are idle, exactly the cached columns are in the LRU, each once. |
| `ColumnCache.NextKeeps` | src/scheduler/disk_read_scheduler.rs:118-169 | Every step of loading, reading, restoring, evicting and registering keeps the invariant. |
| `ColumnCache.BeginKeeps` | src/scheduler/inner_locustdb.rs:130-141 | So does beginning any of them, and publishing a new partition. |
| `ColumnCache.TrackedNext` | src/mem_store/lru.rs:11-29 | A column comes to be tracked by being put into the LRU, and ceases to be by being evicted. |
| `ColumnCache.PromisesReached` | src/scheduler/disk_read_scheduler.rs:171-200 | In every run a column marked as scheduled is in a queued read or being restored by one. |
| `ColumnCache.WaitEnds` | src/scheduler/disk_read_scheduler.rs:118-169 | Once the queue is drained and no read is being serviced, a worker that waits for a column goes on to load it itself. |
| `ColumnCache.Put` | src/mem_store/lru.rs:16-19 | The key becomes the most recently used, once, and all others keep their order. |
| `ColumnCache.Touch` | src/mem_store/lru.rs:11-14 | A key in the list becomes the last, and all others keep their order. |
| `Recency.SortedByUse` | src/mem_store/lru.rs:6-38 | In every run the list has the columns in the order of their last use: handed out of the cache, loaded, restored or registered. |
| `Recency.EvictsLeastRecent` | src/scheduler/inner_locustdb.rs:226-232 | The victim is the column whose last use is the longest ago, of all in the list and of all that are cached and in nobody's hands; all others stay. |
| `Recency.JustReadStays` | src/scheduler/disk_read_scheduler.rs:132-133 | A column just handed out is not the next victim if there is another one. |
| `Recency.PromisedNotFetched` | src/scheduler/disk_read_scheduler.rs:118-169 | From the promise to load a column until it has been restored, no worker loads it itself. |
| `ReadScheduler.ScheduleSequentialRead` | src/scheduler/disk_read_scheduler.rs:54-87 | The runs queued have disjoint ranges, read a column exactly if it is requested and not resident, and exactly these are newly marked; `bytes` is what a run reads, without its last partition it is within the readahead, and it ends only if it exceeds the readahead or the next partition misses other columns. |
| `ReadScheduler.QueueRuns` | src/scheduler/disk_read_scheduler.rs:61-85 | The same for partitions sorted by id. |
| `ReadScheduler.ReadOnce` | src/scheduler/disk_read_scheduler.rs:61-85 | A column of a partition is read by one run only. |
| `ReadScheduler.MarksAreRead` | src/scheduler/disk_read_scheduler.rs:61-85 | Every column that scheduling newly marks is read by a queued run. |
| `ReadScheduler.NonResidentsMatch` | src/mem_store/partition.rs:104-119 | True if and only if the run reads exactly the missing columns of the partition. |
| `ReadScheduler.NonResidents` | src/mem_store/partition.rs:94-102 | Exactly the requested columns that are not resident. |
| `ReadScheduler.PromiseLoad` | src/mem_store/partition.rs:121-130 | Marks exactly the named columns of the partition and returns the sum of their sizes. |
| `ReadScheduler.Bounded` | src/scheduler/disk_read_scheduler.rs:61-85 | A run closed by the loop reads what its `bytes` say, and no more than the readahead without its last partition. |

## Left out

- GroupMerge.Combine: the float aggregators `SumF64`, `MaxF64` and `MinF64` are an error for integers as in the source, but their use on float columns is not modelled.
- Partitioning.Partition: run counters and `min_elems` are unbounded where the source counts in `u32`; they never exceed the number of rows of both sides (`SortedBatches.WeightInRows`).
- SortedBatches.CombineSorted: both sides number their order-by columns alike, which is where reading the right index from `batch1.order_by` makes no difference. It is so if in all partitions the same expressions of the query share a buffer, and stays so (`SortedBatches.LayoutKept`) if the last expression is not ordered by before; otherwise results of different levels may differ in layout, which is not modelled.
- BatchMerging.CombineGroups: the checks at the head of `combine` that both results have as many projections, order-by columns and aggregates are preconditions, and at least one aggregate is present, which is how this branch is chosen.
- Grouping.Aggregate.Execute: counts are unbounded where the source counts in `u32`; they never exceed the number of rows (`Grouping.CountBounded`).
- BitPacking.TryBitpacking: the model uses the exact bit length; `FloatBits` says when the count in floating point is that, with the logarithm itself taken to be exact. Ranges for which the planner's own arithmetic overflows 64 bits are not modelled, nor are shifts by 64 and more, whose result the source discards. What the source does when it gives up, falling back to rows of values, is not modelled.
- BitPacking.RangeSound: the year of a timestamp is a given monotone function; the ranges of delta-encoded columns are not modelled.
- PartitionQueries.SortPartition: expressions are given by their values in all rows of the partition, as evaluating an expression row by row does not depend on the other rows.
- PartitionQueries.GroupPartition: every aggregate has its own grouping and selector, where the source builds one grouping and one selector for all; `PartitionQueries.SameKeys` makes the results agree. Group-by columns that cannot be packed, and float aggregators, are left out.
- Normalize.Normalize: two selected expressions that the executor aliases to one buffer share a column index, so that the name of the second is missing in the final pass; the model assumes no aliasing. Result names are left out.
- Nullability.PerformRewrites: unchecked division and modulo, which nothing builds, are left out, and buffers are whole columns; null maps of streamed chunks are not modelled. Running the new plan is shown for plans that consist of the operations the rewrite knows, in an order in which operations read what earlier ones have written.
- StringColumn.BuildColumn: dictionary strings are shorter than 2^24 bytes and the store than 2^40 bytes (`EntryDecodes` shows that this is what decoding needs); null maps, which are stored as given, are left out; hexadecimal coding is a given pair of functions, and LZ4 is the identity.
- CodecMeaning.HasExactly: what unpacking of compressed bytes yields is an arbitrary function, and amounts are 64-bit integers.
- Codec.EnsureProperty: codecs are well formed, without `Unknown`, which panics, and with `Nullable` applied to the column itself only.
- ReadScheduler.ScheduleSequentialRead: residency does not change while reads are scheduled; `schedule_bulk_load` is not modelled.
- ColumnCache.CacheConsistent: in-memory ingest batches, whose keys are not unique, LZ4 decoding of cached columns, and sizes are left out.
- ColumnCache.WaitEnds: the condition variable on which waiting workers sleep is left out, so that they look again and again.
- QueryTask.ReplySent: which partitions panic is an arbitrary set, and whether merges may panic a flag; then each merge of two or more results may or may not. The conversion to rows may panic whenever there is an offset, where the source panics if the offset exceeds the number of rows. `push_colstack`, which only keeps buffers alive, and statistics are left out; a query may be picked up by any number of workers any number of times.
- Stages.Partition: which outputs may be streamed is an arbitrary input, and the streaming flags of stages and operators are left out. The order of stages is stated for acyclic stage dependencies, which levelled plans have; that a plan is levelled is sufficient and not necessary. The source logs an error otherwise.
- Common subexpression elimination, the choice between grouping paths, and buffer lifetimes.
- Offsets and the conversion of the result to rows; group-less aggregates over empty filter results.
- Float columns and float aggregation, timestamps, regular expressions and `LIKE`.
- Storage (RocksDB, capnp), the network, the command line, the Python binding, CSV ingestion.
