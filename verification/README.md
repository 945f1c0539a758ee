# BumbleBeeDB in Dafny

A Dafny model of the parts of BumbleBeeDB, an embedded SQL engine written in C++, that are hardest to get
right, with proofs of what they promise. `dafny verify dfyconfig.toml` checks the whole project.

- **Transactions** (`Mvcc*.dfy`, `Watermark.dfy`). The multi-version store as a step protocol: every locked
  section is one action, a run is any interleaving, and a reference history of published databases is what
  the store is compared with. `MvccManager` has the same operations as methods of a class and proves that
  each of them takes exactly the protocol's steps.
- **Query rewrites** (`Expressions`, `Plans`, `Conjuncts`, `PlanMeaning`, `JoinAlgebra`, `FilterPushDown`,
  `MergeFilterNlj`, `NljAsHashJoin`, `RewritesComplete`, `SortLimitAsTopN`, `ColumnPruning`, `PruningExact`).
  Plans denote sequences of rows with NULL; each rewrite is a function on plans and is proved against that
  meaning for every plan, and to leave nothing of what it rewrites.
- **Subquery decorrelation** (`BoundQueries`, `GroupedJoin`, `KeySource`, `Decorrelation`,
  `DecorrelationSound`, `ScalarSound`, `ScalarSteps`, `PlannableQueries`, `PlanningSucceeds`, `WhereTheorem`,
  `CountExample`). WHERE clauses with correlated EXISTS and scalar subqueries, nested to any depth, against their
  row-by-row meaning, and which of them are accepted.
- **Parallel runtime** (`Scheduler*.dfy`, `PeakDemand`, `PeakReached`, `JoinDemand`, `PipelineChain`,
  `PipelineExecutor`, `Counting`). The counter protocol over a graph of pipelines, its peak demand, and the resumable
  operator chain.
- **Hash table** (`LinearProbing`, `GroupTable`, `JoinTable`, `PrlHashTable`). Linear probing with batched
  rounds, resizing, block stealing and deferred directories, against a plain map and multimap.
- **Sorting and predicates** (`SortKeys`, `TopRows`, `TopNEntries`, `TopNHeap`, `Like`, `FoldedPredicates`,
  `ConstantLists`). Byte-comparable keys, the bounded heap with its prefilter, LIKE, IN and the narrowing selection.
- **Calendar and catalog** (`Calendar`, `DateText`, `DateGrammar`, `DateParsing`, `TimestampGrammar`, `TimestampText`,
  `ByteBuffer`, `SchemaCodec`, `CatalogRecord`, `CatalogChain`, `Machine`). Day numbers, date and timestamp text, and
  the catalog from its tables down to the pages of the file and back.
- **Schema leases and shutdown** (`SchemaLeases`, `SchemaLeaseSafety`, `SchemaLeaseTheorems`, `LeasePriority`,
  `ShutdownProgress`). Sessions, the reader/writer lease and the closing thread as one step protocol.

## Model

| member | source | states |
|---|---|---|
| MvccTheorems.StepKeeps | src/concurrency/transaction_manager.cpp:103-337 | Every locked section of begin, write, read, commit, abort and collection keeps the chains, undo buffers, registrations and commit records in step with the published history, and never lowers the watermark. |
| MvccTheorems.SnapshotStable | src/storage/mvcc/mvcc.cpp:129-158 | However transactions and the collector interleave, an open transaction reads from every slot, at every later point, the version its snapshot had, under its own writes. |
| MvccTheorems.CommitsAtomic | src/concurrency/transaction_manager.cpp:118-173 | What an open transaction reads is the result of executing a whole number of commits one after another: each commit is seen all or nothing. |
| MvccTheorems.WalkMeetsNoCollectedLog | src/concurrency/transaction_manager.cpp:228-292 | No chain walk of an open transaction reaches a collected undo log before it has found its version; the log it reaches is the one filed. |
| MvccTheorems.WatermarkNeverThrows | src/concurrency/watermark.cpp:19-46 | The registered read timestamps are exactly those of the unfinished transactions, and neither error path of the watermark is reachable. |
| MvccTheorems.ValidationSeesEveryLaterWriter | src/concurrency/transaction_manager.cpp:294-337 | Collection never drops a committed transaction whose writes a still open transaction must validate against. |
| MvccTheorems.SerializableHistory | src/concurrency/transaction_manager.cpp:294-337 | With validation taken as one step and all writers SERIALIZABLE, executing the commits in timestamp order, readers at their snapshots, gives every scan the rows it returned. |
| MvccTheorems.FirstUpdaterWins | src/storage/mvcc/mvcc.cpp:40-83 | An update or delete taints its transaction exactly when another open write or a later commit has overtaken the slot; otherwise it goes through. |
| MvccTheorems.NoLostUpdate | src/storage/mvcc/mvcc.cpp:40-83 | Of two commits whose spans overlap, at most one wrote any given slot. |
| MvccWrites.InsertShows | src/storage/mvcc/mvcc.cpp:88-105 | After an insert the transaction sees the row in its slot, and every other slot as before. |
| MvccWrites.ModifyShows | src/storage/mvcc/mvcc.cpp:40-83 | After an update or delete that is not refused the transaction sees the new row, or none; every other slot, and every slot after a refusal, as before. |
| MvccWrites.WritesStand | src/storage/mvcc/mvcc.cpp:40-105 | Over every run, what an open transaction holds in the store is the last write its statements made to each slot, deletions included. |
| MvccWrites.ReadsItsWrites | src/storage/mvcc/mvcc.cpp:129-158 | Over every run, an open transaction reads its last write of a slot, and its snapshot's database where it wrote nothing. |
| MvccWrites.CommitsPublishWrites | src/concurrency/transaction_manager.cpp:118-173 | Over every run, each published database is the one before it with the last write of every slot by the transaction that committed, and every other slot as it was. |
| MvccReads.ScansAreReads | src/concurrency/transaction_manager.cpp:118-173 | Over every run, the scans a transaction carries, and those validated at its commit, are exactly the reads it made, each with the rows its snapshot and its writes until then select. |
| MvccCollection.PassKeepsExactly | src/concurrency/transaction_manager.cpp:228-292 | In every reachable state a collection pass keeps exactly the unfinished transactions and those committed after some snapshot still in use. |
| MvccCollection.QuietPassEmpties | src/concurrency/transaction_manager.cpp:228-292 | With no transaction unfinished, one pass empties the transaction map. |
| MvccValidationRace.SplitCheckExact | src/concurrency/transaction_manager.cpp:51-101 | The check that reads a slot under the latch and walks after releasing it gives the slot's answer if and only if its uncommitted holder is still tracked or there was no conflict to miss. |
| MvccSplitHistory.ConflictsAreHistory | src/concurrency/transaction_manager.cpp:51-101 | Outside a commit, the conflict check answers true exactly when some database from the snapshot to now holds in that slot a row one of the transaction's scans selects. |
| MvccSplitHistory.ValidationExact | src/concurrency/transaction_manager.cpp:294-337 | A serializable writer validates if and only if no slot written by a later commit has held, at its snapshot or since, a row one of its scans selects. |
| MvccSplitHistory.ConflictsUndisturbed | src/concurrency/transaction_manager.cpp:118-173 | No step others take while a transaction validates under the commit mutex changes whether a slot conflicts with it. |
| MvccSplitHistory.SplitRunIsRun | src/concurrency/transaction_manager.cpp:118-173 | An execution in which every serializable writer passed the split check with the holders still tracked is one in which validation is a single step. |
| MvccSplitHistory.SplitHistorySerial | src/concurrency/transaction_manager.cpp:118-173 | So its history is serial in commit timestamp order. |
| MvccRaceExample.SplitCheckCanMiss | src/concurrency/transaction_manager.cpp:51-101 | A slot that conflicts both before and after an abort is accepted by the split check when the holder is collected in between. |
| MvccRaceExample.SplitHistoryNotSerial | src/concurrency/transaction_manager.cpp:118-173 | An execution whose serializable writers all passed the split check and whose two commits fit no serial order. |
| MvccManager.TransactionManager.BeginShared | src/concurrency/transaction_manager.cpp:103-112 | A new transaction is registered at the last published commit; nothing else changes. |
| MvccManager.TransactionManager.ReconstructVisible | src/storage/mvcc/mvcc.cpp:129-158 | The walk over the undo links returns the version the snapshot sees. |
| MvccManager.TransactionManager.RidConflictsWithReads | src/concurrency/transaction_manager.cpp:51-101 | The loop over base and undo logs decides whether a version since the snapshot matches a recorded scan. |
| MvccManager.TransactionManager.Suspects | src/concurrency/transaction_manager.cpp:294-337 | Exactly the slots written by tracked transactions committed after the snapshot are collected. |
| MvccManager.TransactionManager.VerifyTxn | src/concurrency/transaction_manager.cpp:294-337 | A serializable writer is accepted if and only if no suspect slot conflicts. |
| MvccManager.TransactionManager.MvccInsert | src/storage/mvcc/mvcc.cpp:88-105 | A fresh slot gets the row under the transaction's stamp and joins its write set; the transaction sees the row there and everything else as before. |
| MvccManager.TransactionManager.ApplyMvccModify | src/storage/mvcc/mvcc.cpp:40-83 | Own version overwritten in place, visible version filed and overwritten, anything else taints; if not tainted, the transaction sees the new row, or none after a delete, and everything else as before. |
| MvccManager.TransactionManager.MvccStampCommit | src/storage/mvcc/mvcc.cpp:199-205 | The slot gets the commit timestamp and keeps its bytes. |
| MvccManager.TransactionManager.Commit | src/concurrency/transaction_manager.cpp:118-173 | Validation, stamping, marking, publication and retirement together move the state as the protocol's steps do, or refuse; the database published is the last one with the transaction's writes over it. |
| MvccManager.TransactionManager.MvccRollback | src/storage/mvcc/mvcc.cpp:207-236 | The pre-image and the head link come back; a fresh insert becomes a tombstone. |
| MvccManager.TransactionManager.Abort | src/concurrency/transaction_manager.cpp:175-206 | Every write is rolled back, then the transaction is marked and its registration removed. |
| MvccManager.TransactionManager.GarbageCollection | src/concurrency/transaction_manager.cpp:228-292 | A transaction is dropped if and only if it is aborted, or committed at or below the watermark read before; the others are untouched and the number dropped is returned. |
| MvccManager.BeginSeesPublished | src/concurrency/transaction_manager.cpp:103-112 | A snapshot taken at begin reads exactly the last published database. |
| Watermarks.Watermark.AddTxn | src/concurrency/watermark.cpp:19-30 | The read timestamp is counted once more; one below the commit timestamp is refused; the watermark is the least one counted. |
| Watermarks.Watermark.RemoveTxn | src/concurrency/watermark.cpp:32-46 | One count is taken back and the watermark follows; removing what was never added is refused. |
| Expressions.FlattenEval | src/optimizer/filter_push_down.cpp:102-118 | Flattening a two-sided predicate does not change its value on any pair of rows. |
| Expressions.RewriteEval | src/optimizer/merge_filter_nlj.cpp:28-54 | Re-addressing a flat predicate for a join does not change its value. |
| Expressions.RewriteSucceedsIff | src/optimizer/merge_filter_nlj.cpp:28-54 | Re-addressing succeeds exactly on predicates that read the first input within the two widths. |
| Expressions.FlattenThenRewrite | src/optimizer/merge_filter_nlj.cpp:28-54 | Re-addressing undoes flattening on every predicate well scoped for the join. |
| Expressions.RewriteThenFlatten | src/optimizer/filter_push_down.cpp:102-118 | Flattening undoes re-addressing wherever that succeeds. |
| Conjuncts.SplitHolds | src/optimizer/filter_push_down.cpp:70-78 | A predicate holds exactly when all its conjuncts do. |
| Conjuncts.ConjoinLoop | src/optimizer/filter_push_down.cpp:81-92 | The loop rebuilds the conjunction it is specified by, true for no conjuncts. |
| FilterPushDown.Distribute | src/optimizer/filter_push_down.cpp:154-204 | One pass sorts the pending conjuncts into those for the left input, the right input and the join. |
| FilterPushDown.PushIntoSelects | src/optimizer/filter_push_down.cpp:154-232 | Pushing pending conjuncts into a nest of inner joins yields the rows the conjuncts select from it. |
| FilterPushDown.PushPreserves | src/optimizer/filter_push_down.cpp:234-249 | Filter push-down preserves the rows of every well-formed plan and never fails on one. |
| MergeFilterNlj.MergePreserves | src/optimizer/merge_filter_nlj.cpp:87-130 | Folding filters into joins preserves the rows of every well-formed plan whose nested loops are INNER, or LEFT and no cross product; SEMI and ANTI joins are hash joins. |
| MergeFilterNlj.MergeOuterExact | src/optimizer/merge_filter_nlj.cpp:116-118 | Folding a filter into a LEFT cross product preserves its rows if and only if no left row loses all its pairs to the filter. |
| MergeFilterNlj.MergeOuterChangesMeaning | src/optimizer/merge_filter_nlj.cpp:116-118 | A plan, a table and a filter for which the rows change. |
| NljAsHashJoin.KeysDecide | src/optimizer/nlj_as_hash_join.cpp:41-77 | The extracted keys match exactly when the predicate selects the pair: NULL keys never do. |
| NljAsHashJoin.AppendKeys | src/optimizer/nlj_as_hash_join.cpp:41-77 | The key vectors grow by the keys of the predicate, left and right in step, or extraction fails. |
| NljAsHashJoin.HashPreserves | src/optimizer/nlj_as_hash_join.cpp:87-114 | Turning equi-joined nested loops into hash joins preserves the rows of every well-formed plan. |
| NljAsHashJoin.OptimizeJoinsPreserves | src/optimizer/optimizer.cpp:61-65 | The three passes in their order preserve the rows, outer cross products aside. |
| RewritesComplete.MergeComplete | src/optimizer/merge_filter_nlj.cpp:87-130 | No filter is left directly over a nested loop join that could take it. |
| RewritesComplete.PushComplete | src/optimizer/filter_push_down.cpp:154-249 | Every condition left at an inner nested loop reads both inputs, or none. |
| RewritesComplete.HashComplete | src/optimizer/nlj_as_hash_join.cpp:87-114 | No nested loop is left whose predicate is a conjunction of equalities between columns of the two inputs. |
| SortLimitAsTopN.SortLimitPreserves | src/optimizer/sort_limit_as_topn.cpp:34-60 | Replacing a limit over a sort by a top-n preserves the rows of every well-formed plan. |
| SortLimitAsTopN.SortLimitComplete | src/optimizer/sort_limit_as_topn.cpp:34-60 | No limit is left directly over a sort. |
| ColumnPruning.SplitAtSeam | src/optimizer/column_pruning.cpp:64-75 | The loop sends each required column to its side of the join, renumbered from zero. |
| ColumnPruning.HashJoinNeeds | src/optimizer/column_pruning.cpp:79-112 | The sets collected for a hash join are the requirements its children are pruned with, and the live columns are frozen before the keys join in. |
| ColumnPruning.PruneAgrees | src/optimizer/column_pruning.cpp:114-214 | For every plan and required set the pruned plan yields as many rows in the same order, agreeing on every required column although unread ones become NULL. |
| ColumnPruning.PruneRoot | src/optimizer/column_pruning.cpp:223-225 | At the root, pruned and original plan yield identical rows. |
| PruningExact.ChildrenPrunedExactly | src/optimizer/column_pruning.cpp:114-214 | Every child is pruned for exactly the columns its parent reads or passes on for a required column. |
| PruningExact.ScanExact | src/optimizer/column_pruning.cpp:114-214 | A scan reads a column if and only if it is required or its filter reads it. |
| PruningExact.BuildExact | src/optimizer/column_pruning.cpp:79-112 | The build side of a hash join keeps a column if and only if the join outputs it and it is required; keys need not be. |
| BoundQueries.PlannedMeaning | src/planner/plan_expression.cpp:60-112 | A bound expression resolved by column names means on a row what it means in the query. |
| BoundQueries.ExtractCorrelation | src/planner/plan_select.cpp:293-317 | The loop over conjuncts moves exactly the equalities between an outer and a local side into the pairs and keeps the rest. |
| BoundQueries.ExtractExact | src/planner/plan_select.cpp:293-317 | The WHERE clause holds exactly when every pair is equal and non-NULL and the remaining conjuncts hold. |
| BoundQueries.SplitConjoin | src/planner/plan_select.cpp:320-330 | Rebuilding and splitting conjuncts does not change what they mean. |
| KeySources.SegmentIsBaseRow | src/planner/plan_select.cpp:206-231 | The columns of the table found for a key form, in every row of the join, a row of that table. |
| KeySources.FindsFirst | src/planner/plan_select.cpp:206-231 | The base table found for a key is the first of the FROM with such a column, and one is found if there is one. |
| KeySources.KeySourceCovers | src/planner/plan_select.cpp:613-681 | Every key a surviving outer row can ask for is produced by the key source. |
| DecorrelationSound.ExistsStep | src/planner/plan_select.cpp:526-573 | A correlated EXISTS or NOT EXISTS planned as a SEMI or ANTI join keeps exactly the outer rows for which it holds. |
| ScalarSound.GroupIsSelected | src/planner/plan_select.cpp:748-808 | The group of a key holds exactly the inner rows the subquery selects for an outer row with that key. |
| ScalarSound.RestrictedGroup | src/planner/plan_select.cpp:248-276 | Restricting the aggregate's input by the key source leaves every group an outer row asks for as it was. |
| ScalarSound.JoinedValueExact | src/planner/plan_select.cpp:748-808 | The value the LEFT join supplies is the subquery's value if and only if some row was selected or the aggregate is NULL on no rows. |
| ScalarSteps.ScalarStep | src/planner/plan_select.cpp:748-808 | Each outer row comes through exactly once, extended by the value of its subquery. |
| WhereTheorem.PlannedWhereRows | src/planner/plan_select.cpp:432-482 | A WHERE clause over ordinary, EXISTS and scalar subqueries, nested to any depth, is planned if and only if its names resolve and its subqueries have the accepted shapes, and then the planned rows are those the clause selects. |
| PlanningSucceeds.PlansExactly | src/planner/plan_select.cpp:432-573 | Planning a WHERE clause succeeds if and only if every name resolves to one column, every correlated subquery has an equality link, and the shape of each, at every depth, is one the planner accepts. |
| PlanningSucceeds.RestrictsExactly | src/planner/plan_select.cpp:613-681 | The input of a decorrelated aggregate is restricted if and only if some link's column comes from a base table that a conjunct of the outer query filters alone, and the cost guard agrees. |
| WhereTheorem.ScalarDecorrelationExact | src/planner/plan_select.cpp:694-730 | The value an outer row gets from the decorrelated plan is its own subquery's if and only if that selects a row for it or the aggregate is NULL on no rows. |
| CountExample.CountDecorrelationDiffers | src/planner/plan_select.cpp:697-701 | A COUNT subquery on which the two differ. |
| SchedulerSteps.StepKeeps | src/parallel/executor.cpp:174-248 | Every step of a worker keeps the task counts, release counts and pipeline states consistent. |
| SchedulerTheorems.CountersExact | src/parallel/executor.cpp:212-218 | In every reachable state the active-task counter is exactly the number of tasks created and not finished. |
| SchedulerTheorems.ScheduledOnceInOrder | src/parallel/executor.cpp:186-200 | A pipeline is scheduled at most once and only when all it depends on have been finalized. |
| SchedulerTheorems.DoneIsFinal | src/parallel/executor.cpp:212-218 | The done flag is set only when no task exists, and then nothing can start again. |
| SchedulerTheorems.DoneMeansAllFinalized | src/parallel/executor.cpp:220-248 | Without an error, done means that every pipeline of an acyclic graph was finalized. |
| SchedulerTheorems.EveryRunDrains | src/parallel/task.cpp:23-53 | Every run, with or without errors, is bounded in length and can always go on until the counter is zero and the query done. |
| SchedulerTheorems.PoolBounds | src/parallel/executor.cpp:174-248 | In every interleaving at most as many tasks as there are workers are off the queue and unfinished. |
| SchedulerErrors.ErrorExact | src/parallel/task.cpp:23-53 | The query has an error if and only if a task or a finalization threw. |
| SchedulerErrors.ThrowStopsPipeline | src/parallel/task.cpp:23-53 | A pipeline in which something threw is never finalized, and nothing that waits on it ever starts. |
| SchedulerErrors.DoneExact | src/parallel/executor.cpp:220-248 | When an acyclic query is done, every pipeline was finalized if and only if nothing threw. |
| PeakDemand.Closure.Close | src/parallel/executor.cpp:136-150 | The recursive closure fills a row of the matrix with exactly the pipelines reached. |
| PeakDemand.PeakTaskDemand | src/parallel/executor.cpp:114-172 | From the thread counts the pipelines report when the query starts, the loops compute the largest weight of a pipeline with all it is not ordered against. |
| PeakDemand.PeakBoundsAntichains | src/parallel/executor.cpp:114-172 | On an acyclic graph no antichain weighs more than the result. |
| SchedulerPeak.PeakBoundsTasks | src/parallel/executor.cpp:114-200 | If no pipeline creates more tasks than the weight it reported, the outstanding tasks of every reachable state are within the peak demand. |
| PeakReached.AntichainReached | src/parallel/executor.cpp:174-200 | For every antichain of an acyclic graph some run has all of its tasks outstanding at once, whatever the number of workers. |
| PeakReached.PeakExact | src/parallel/executor.cpp:114-200 | A number bounds the outstanding tasks of all reachable states if and only if no antichain creates more tasks. |
| JoinDemand.JoinTasks | src/execution/operator/join/physical_grace_hash_join.cpp:328-343 | The loop counts one task per non-empty partition and one for preserved NULL keys, between one and the thread limit. |
| JoinDemand.JoinDemandExact | src/execution/operator/join/physical_grace_hash_join.cpp:328-343 | With the demand computed while the partitions are empty, it bounds the tasks of a partitioning pipeline and its join if and only if at most one pair has rows later or one thread is the limit. |
| JoinDemand.JoinExceedsPeak | src/parallel/executor.cpp:174-184 | A run with demand one and three tasks outstanding. |
| GroupTable.FindOrCreate | src/execution/prl_hash_table.cpp:131-226 | The probing rounds end with every row of the batch placed, one new row per key not yet stored. |
| GroupTable.GroupsRefineMap | src/execution/prl_hash_table.cpp:131-226 | Equal keys get one address, different keys different ones, and stored rows keep theirs: the table behaves as a map. |
| JoinTable.Probe | src/execution/prl_hash_table.cpp:348-422 | Walking the chains and flushing full candidate buffers emits what the unbuffered walk would. |
| JoinTable.ProbeExact | src/execution/prl_hash_table.cpp:348-422 | Each pair of a stored row and a probe row with equal keys is emitted exactly once, and no other pair. |
| LinearProbing.WalkExact | src/execution/prl_hash_table.cpp:348-422 | A walk from a hash's home slot meets exactly the stored rows of that hash, each once. |
| PrlHashTable.NextPowerOfTwo | src/execution/prl_hash_table.cpp:27-33 | The least power of two that is large enough. |
| PrlHashTable.PRLHashTable.Resize | src/execution/prl_hash_table.cpp:77-95 | The larger directory links the same rows. |
| PrlHashTable.PRLHashTable.AllocateRow | src/execution/prl_hash_table.cpp:97-106 | The bytes given out belong to no other stored row. |
| PrlHashTable.PRLHashTable.Append | src/execution/prl_hash_table.cpp:228-262 | The rows are stored behind those there and linked. |
| PrlHashTable.PRLHashTable.AppendUnbuilt | src/execution/prl_hash_table.cpp:264-287 | The rows are stored and left unlinked. |
| PrlHashTable.PRLHashTable.Merge | src/execution/prl_hash_table.cpp:289-314 | The donor's rows and blocks become this table's, rows of both sharing no byte. |
| PrlHashTable.PRLHashTable.BuildDirectory | src/execution/prl_hash_table.cpp:316-331 | A directory of sufficient size links every stored row. |
| PrlHashTable.PRLHashTable.FindOrCreateGroups | src/execution/prl_hash_table.cpp:131-226 | The table after a batch is the old one with one row for each new key, each row of the batch at its key's address. |
| PrlHashTable.PRLHashTable.ProbeTable | src/execution/prl_hash_table.cpp:341-422 | After any building sequence the probe yields the exact equi-join with the stored rows. |
| PipelineRun.PipelineExecutor.Execute | src/parallel/pipeline_executor.cpp:95-136 | Resuming the deepest suspended operator yields the next chunk of the depth-first output, and the stack stays strictly increasing. |
| PipelineRun.PipelineExecutor.ExecutePush | src/parallel/pipeline_executor.cpp:138-156 | Pushing a chunk delivers all of its outputs to the sink in depth-first order. |
| PipelineRun.PipelineExecutor.Run | src/parallel/pipeline_executor.cpp:158-190 | The sink receives exactly the concatenated depth-first outputs of every source chunk. |
| PipelineRun.PourCollects | src/parallel/pipeline_executor.cpp:158-190 | That concatenation is the composition of the operators applied to everything the source yields. |
| LikeMatching.LikeMatch | src/execution/expression_executor.cpp:191-217 | The two-pointer matcher decides exactly the LIKE relation of section 8.5 of SQL-92 without ESCAPE, and ends. |
| LikeMatching.EarliestEnough | src/execution/expression_executor.cpp:191-217 | If a segment fits anywhere it fits where it first fits: remembering the last percent sign is enough. |
| FoldedPredicates.FoldIsTrue | src/execution/expression_executor.cpp:121-155 | The 0/1 evaluation of an AND/OR tree whose IN lists have elements selects exactly the rows where three-valued logic is TRUE. |
| FoldedPredicates.InExact | src/execution/expression_executor.cpp:305-342 | IN selects exactly as section 8.4 of SQL-92. |
| FoldedPredicates.NotInExact | src/execution/expression_executor.cpp:305-342 | NOT IN agrees with section 8.4 of SQL-92 on every list with an element, which the binder asks for, and on an empty one except for NULL. |
| FoldedPredicates.RunIn | src/execution/expression_executor.cpp:305-342 | The kernel answers each row as the folded predicate does. |
| ConstantLists.PrepareList | src/execution/expression_executor.cpp:478-543 | The cached list is sorted and holds the cast of every non-NULL constant, or the filler its failed cast left behind; whether there was a NULL is asked before casting. |
| ConstantLists.ProbeSortedIn | src/execution/expression_executor.cpp:276-303 | Binary search answers each row as membership in that list does. |
| ConstantLists.SortedExact | src/execution/expression_executor.cpp:430-468 | That is the general kernel on the cast list if and only if every cast succeeds or the failed constants change nothing for the row. |
| ConstantLists.NoSuchDate | src/execution/expression_executor.cpp:500-511 | NOT IN ('1995-13-45') selects every date where the general kernel selects none. |
| FoldedPredicates.SelectChain | src/execution/expression_executor.cpp:559-611 | Narrowing by one comparison after another through two buffers keeps exactly the rows all of them pass, in order. |
| FoldedPredicates.Select | src/execution/expression_executor.cpp:559-611 | The selection is the ordered list of rows the folded predicate accepts, whichever path is taken. |
| FoldedPredicates.SelectedIsTrue | src/execution/expression_executor.cpp:559-611 | So it is the list of rows where the predicate is TRUE. |
| SortKeys.SignedIsOffset | src/include/common/sort_key_encoding.h:122-129 | Flipping the sign byte of the big-endian two's complement offsets the value by half its range. |
| SortKeys.KeyOrder | src/type/vector/operations/create_sort_key.cpp:351-371 | Comparing encoded keys is comparing rows column by column in each column's direction, an integer NULL standing level with its column's largest value. |
| SortKeys.KeyOrderIsSql | src/include/common/sort_key_encoding.h:26-41 | Two rows' keys stand in SQL's order, NULLs last ascending and first descending, and are equal only for equal rows, if and only if their order does not hang on NULL against an integer column's largest value. |
| SortKeys.NoClashIsSql | src/include/common/sort_key_encoding.h:26-41 | Which is so when in no column one row holds NULL and the other the largest value. |
| SortKeys.NullLastExact | src/type/vector/operations/create_sort_key.cpp:66-78 | An integer NULL sorts strictly after a value if and only if that is not the type's largest. |
| SortKeys.TextOrderExact | src/type/vector/operations/create_sort_key.cpp:81-104 | Two texts keep their order under encoding if and only if no byte 255 stands at their first difference. |
| SortKeys.TextWrapExample | src/type/vector/operations/create_sort_key.cpp:81-104 | Two byte strings whose order is reversed. |
| SortKeys.OrderCodeMonotone | src/execution/sort/top_n_heap.cpp:77-111 | The 64-bit order code grows with the value, or falls for DESC, over signed and unsigned types of every width. |
| SortKeys.LargerCodeLargerKey | src/execution/sort/top_n_heap.cpp:125-131 | A row whose first column has the larger code has the larger key, whatever its other columns. |
| TopN.PrefilterCodes | src/execution/sort/top_n_heap.cpp:25-43 | The positions kept are those of NULLs and of codes no larger than the threshold; with those ruled out they make up the chunk. |
| TopRows.MergeTops | src/execution/sort/top_n_heap.cpp:225-248 | The first n of some rows together with the first n of others are the first n of all of them. |
| TopRows.SortThenTake | src/optimizer/sort_limit_as_topn.cpp:24-33 | The kept rows in order carry, position by position, the keys of the first rows of any sorted arrangement of all rows. |
| TopN.TopNHeap.Push | src/include/execution/sort/top_n_heap.h:97-104 | The entry is added, the worst making room for it when the heap is full. |
| TopN.TopNHeap.SinkRows | src/execution/sort/top_n_heap.cpp:194-223 | The rows offered join those seen; the heap keeps the first n of them with every index addressing its own row. |
| TopN.TopNHeap.Sink | src/execution/sort/top_n_heap.cpp:113-192 | The same for a whole chunk: the prefilter drops no row that belongs in the heap. |
| TopN.TopNHeap.Combine | src/execution/sort/top_n_heap.cpp:225-248 | The heap then keeps the first n of everything either heap has seen. |
| TopN.TopNHeap.Reduce | src/execution/sort/top_n_heap.cpp:250-275 | Compaction changes no kept row and leaves at most twice the limit or two vectors of payload. |
| TopN.TopNHeap.Finalize | src/execution/sort/top_n_heap.cpp:277-284 | The same rows, now in key order. |
| TopN.TopNHeap.GetData | src/execution/sort/top_n_heap.cpp:286-299 | The next rows of that order, a vector at most. |
| TopN.TopNHeap.Drain | src/execution/operator/order/physical_top_n.cpp:100-111 | Reading on until the end yields all of them once. |
| TopN.TopNHeap.Delivers | src/execution/sort/top_n_heap.cpp:113-284 | After any mix of chunks and merges a finalized heap holds in order the keys of the first rows of everything seen, sorted. |
| TopN.TopNHeap.DeliversSql | src/execution/sort/top_n_heap.cpp:113-284 | Where no two rows' order hangs on NULL against a column's largest integer these are the first rows in SQL's order. |
| Calendar.DaysCountOn | src/type/date.cpp:226-252 | Day 0 is 1970-01-01 and the day after any date has the next number, years at or before 0 included. |
| Calendar.DayNumbersOrder | src/type/date.cpp:226-252 | Day numbers order dates as the calendar does, and different dates have different numbers. |
| Calendar.ValidExactly | src/type/date.cpp:200-224 | The dates accepted are exactly the calendar's dates (leap rule of Appendix C of RFC 3339) whose day number fits 32 bits. |
| Calendar.ExtractYearOffset | src/type/date.cpp:117-138 | The loops find the year of the 400-year cycle a day falls in and how many cycles were taken off. |
| Calendar.Convert | src/type/date.cpp:96-115 | The result is the only date with that day number. |
| Calendar.GetDate | src/type/timestamp.cpp:35-40 | The day is the floor of a 64-bit timestamp over the length of a day, before the epoch too. |
| Calendar.GetTime | src/type/timestamp.cpp:30-33 | From the second day of the range on, the rest lies within one day and adds up to the timestamp; on the first day the product leaves 64 bits. |
| Calendar.SplitUndoesJoin | src/type/timestamp.cpp:60-63 | A day and a time of day make a 64-bit timestamp if and only if they are in range, and splitting it gives both back. |
| Calendar.FromDatetime | src/type/timestamp.cpp:47 | A day has a midnight in 64 bits if and only if it is within 106751991 days of the epoch. |
| Calendar.JoinUndoesSplit | src/type/timestamp.cpp:60-63 | Joining what a timestamp splits into gives it back, if and only if it is not on the first day of the range. |
| Calendar.ConvertTime | src/type/timestamp.cpp:49-58 | Hour, minute, second and microseconds are within their ranges and add up to the time of day. |
| DateText.Length | src/type/date.cpp:140-159 | The length asked for is that of the date's text; the year shown is written with as many digits as it has and at least four. |
| DateText.FormatUnsigned | src/include/common/numeric_utils.h:59-77 | Two digits at a time, written backwards, are the number's decimal digits. |
| DateText.Format | src/type/date.cpp:161-185 | The buffer holds exactly the date's text. |
| DateParsing.TryConvertDate | src/type/date.cpp:254-349 | A text is read as a day up to a position if and only if it splits into the parts of a date naming that day, strictly or loosely followed by something else. |
| DateGrammar.ReadsGrammar | src/type/date.cpp:254-349 | The same of the function the reader computes, for every text, day and position. |
| DateParsing.DateRoundTrip | src/type/date.cpp:254-349 | Reading the text of any valid date, BC included, gives its day number and uses the whole text. |
| TimestampText.FormatMicros | src/type/timestamp.cpp:79-94 | Six digits with leading zeros, and the number of zeros at their end. |
| TimestampText.TimeLength | src/type/timestamp.cpp:65-77 | The length asked for is that of the time's text. |
| TimestampText.FormatTime | src/type/timestamp.cpp:96-109 | The buffer holds exactly the time's text. |
| TimestampText.TryConvertTimestamp | src/type/timestamp.cpp:123-199 | A text is read as a timestamp if and only if it splits into the parts of a date and of a time of day, or spaces for midnight, that make this timestamp in 64 bits. |
| TimestampGrammar.RestReadsGrammar | src/type/timestamp.cpp:131-194 | What follows the date is read as a time of day if and only if it splits into hours, minutes, optional seconds and fraction within their ranges that make this time. |
| TimestampText.OverflowsExactly | src/type/timestamp.cpp:123-199 | Of the texts that name a day and a time of day exactly those out of range overflow. |
| TimestampText.TimestampRoundTrip | src/type/timestamp.cpp:123-199 | Reading a valid date's text, a space and a time's text gives exactly that timestamp, for BC dates and every fraction, if the day and time are in range, and overflows otherwise. |
| TimestampText.CastTimestamp | src/include/type/vector/operator/cast_operators.h:551-580 | A timestamp is rendered if and only if it is not on the first day of the range, and reading its text gives it back. |
| TimestampText.DaysInRange | src/type/timestamp.cpp:47 | The days with a midnight in 64 bits are those from -290308-12-22 to 294247-01-10. |
| Calendar.EarliestHasNoTime | src/type/timestamp.cpp:30-33 | The earliest timestamp cannot be split. |
| TimestampText.FarDateOverflows | src/type/timestamp.cpp:123-199 | '300000-01-01 00:00:00' is accepted as a valid date and overflows. |
| ByteBuffers.ByteWriter.PutString | src/include/common/byte_buffer.h:38-41 | The length in four bytes and then the bytes are appended. |
| ByteBuffers.ByteReader.GetUnsigned | src/include/common/byte_buffer.h:89-95 | The value of the next bytes, the cursor behind them; a read past the end fails and does not move. |
| ByteBuffers.ByteReader.GetString | src/include/common/byte_buffer.h:71-77 | The string and the cursor behind it, or failure when its length runs past the end. |
| ByteBuffers.NextOfSigned | src/include/common/byte_buffer.h:89-95 | A signed value of any width reads back, leaving what followed. |
| ByteBuffers.NextOfString | src/include/common/byte_buffer.h:71-77 | So does a string. |
| SchemaCodec.SerializeLogicalType | src/include/catalog/schema_codec.h:27-46 | The bytes appended are those of the type's encoding. |
| SchemaCodec.DeserializeLogicalType | src/include/catalog/schema_codec.h:49-69 | The type read and the bytes left are those of the decoding, with truncation and unsupported widths refused. |
| SchemaCodec.TypeRoundTrip | src/include/catalog/schema_codec.h:49-69 | Decoding an encoded type followed by anything gives the type and leaves exactly that. |
| SchemaCodec.ParsedTypeOk | src/include/catalog/schema_codec.h:49-69 | Whatever the bytes, a type that is returned is one the factories build, and as many bytes are consumed as it is written in. |
| SchemaCodec.DecimalSizeLeast | src/type/logical_type.cpp:277-291 | A decimal takes the fewest bytes, 2, 4 or 8, whose signed range holds its largest value. |
| SchemaCodec.SerializeSchema | src/include/catalog/schema_codec.h:75-82 | The bytes appended are those of the schema's encoding. |
| SchemaCodec.DeserializeSchema | src/include/catalog/schema_codec.h:88-102 | The loop over columns decodes as its specification. |
| SchemaCodec.SchemaRoundTrip | src/include/catalog/schema_codec.h:88-102 | The same for schemas. |
| CatalogRecord.CatalogRoundTrip | src/database.cpp:124-187 | Loading a serialized catalog gives back the allocator's next page, the free list, the oids, the commit timestamp, every table and every index. |
| CatalogChain.Database.WriteCatalogChain | src/database.cpp:90-122 | The record stands along the chain, lengthened by fresh pages where needed, and no other page has changed. |
| CatalogChain.Database.ReadCatalogChain | src/database.cpp:59-88 | On a file with a catalog the record and every page of the chain, spares included, come back; without one nothing is read. |
| CatalogChain.Database.Close | src/database.cpp:272-308 | The record written holds the allocator's state after the chain's pages were reserved, so no page of the chain can be handed out again. |
| CatalogChain.Open | src/database.cpp:30-55 | Opening loads the catalog found, refuses another version, or starts an empty one. |
| CatalogChain.CloseThenOpen | src/database.cpp:30-55 | Closing and opening again gives back the catalog, the allocator's state and the page chain. |
| SchemaLeaseSafety.StepKeeps | src/main/connection.cpp:248-375 | Every step of a session, of the lease manager and of the closing thread keeps the counters equal to the holders and waiters. |
| SchemaLeaseTheorems.CountersExact | src/main/schema_lease_manager.cpp:63-93 | The shared count is the leased transactions plus the running statements, the active count the calls not returned. |
| LeasePriority.GrantsExact | src/main/schema_lease_manager.cpp:63-77 | The exclusive lease can be taken if and only if nobody holds a lease; a shared one if and only if nobody holds or waits for the exclusive one. |
| LeasePriority.StepOvertakesNobody | src/main/schema_lease_manager.cpp:63-77 | While somebody waits for the exclusive lease no step but its grant ends the waiting, and no step gives out a shared lease. |
| LeasePriority.WritersAreNotOvertaken | src/main/schema_lease_manager.cpp:63-77 | Over every run until the exclusive lease is granted, the shared leases only become fewer and none of them is new. |
| LeasePriority.LeaseChangesExactly | src/main/connection.cpp:695-745 | A connection holds its lease from the step that grants it to the first that ends the transaction, fails to begin it or closes the connection, and no other step touches it. |
| LeasePriority.GuardExact | src/main/connection.cpp:248-257 | A call gets past the statement guard if and only if its connection is not closed or closing and no other call is inside. |
| LeasePriority.ShutAdmitsNobody | src/main/connection.cpp:248-341 | Over every run, a connection once asked to close never reopens and lets no further call past its guard. |
| SchemaLeaseTheorems.DdlRunsAlone | src/main/connection.cpp:1472-1497 | While a schema change runs no transaction is open anywhere, no statement runs, and the database is not being closed durably. |
| SchemaLeaseTheorems.LeaseFollowsTransaction | src/main/connection.cpp:695-745 | A transaction is open only while its connection holds a shared lease, and between statements exactly then. |
| SchemaLeaseTheorems.ReleasesAreSafe | src/main/schema_lease_manager.cpp:79-93 | No release finds the manager without a lease to give back. |
| SchemaLeaseTheorems.PersistIsQuiet | src/main/database_instance.cpp:255-325 | The durable close runs once, with every call returned, every connection found closed and no transaction open on any connection. |
| SchemaLeaseTheorems.PersistedAtMostOnce | src/main/database_instance.cpp:255-325 | It runs at most once, and has run when the instance is closed. |
| SchemaLeaseTheorems.ShutdownNeverStuck | src/main/database_instance.cpp:255-325 | Once begun, closing can always take a step that needs no new call and no decision of any session. |
| ShutdownProgress.ForwardLeavesLess | src/main/database_instance.cpp:255-325 | Every step that brings shutdown forward leaves fewer steps of calls, open connections and the closing thread. |
| ShutdownProgress.ShutdownCompletes | src/main/database_instance.cpp:255-325 | From every reachable closing state a bounded run of such steps, with no new call and no decision of any session, ends with the instance closed. |

## Findings

Properties the code does not have. Each has an input on which it fails and the exact condition under which
it holds.

- **Commit validation can accept a conflicting writer.** `RidConflictsWithReads` reads a slot's base and head
  link under the page latch and walks the undo logs afterwards (src/concurrency/transaction_manager.cpp:51-101).
  If an uncommitted holder of the slot aborts and is collected in between, the walk finds nothing. Input:
  `MvccRaceExample.SplitCheckCanMiss`, and `MvccRaceExample.SplitHistoryNotSerial` for a history of two
  serializable writers that fits no serial order. Condition: `MvccValidationRace.SplitCheckExact` (the holder
  is still tracked at the walk, or there was no conflict); with it histories are serial,
  `MvccSplitHistory.SplitHistorySerial`.
- **Folding a filter into an outer cross product changes its rows.** The branch for a constant-true predicate
  does not look at the join type (src/optimizer/merge_filter_nlj.cpp:116-118). Input:
  `MergeFilterNlj.MergeOuterChangesMeaning`. Condition: `MergeFilterNlj.MergeOuterExact`.
- **A correlated COUNT is NULL where it should be 0.** The shape check admits aggregates that are not NULL on no
  rows (src/planner/plan_select.cpp:697-701). Input: `CountExample.CountDecorrelationDiffers`. Condition:
  `WhereTheorem.ScalarDecorrelationExact`.
- **A constant that cannot be cast disappears from an IN list.** The prepared list asks whether a constant is NULL
  before it casts it, and copies the filler of a failed cast as a value
  (src/execution/expression_executor.cpp:500-511). Input: `ConstantLists.NoSuchDate`. Condition:
  `ConstantLists.SortedExact`.
- **More tasks can be outstanding than the peak demand.** The demand is computed before any task starts, while an
  external hash join counts its tasks by the partitions that hold rows once its inputs are partitioned
  (src/execution/operator/join/physical_grace_hash_join.cpp:328-343), so the query gets fewer workers than it has
  tasks for. Input: `JoinDemand.JoinExceedsPeak`. Condition: `PeakReached.PeakExact` for every graph of pipelines,
  `JoinDemand.JoinDemandExact` for the join.
- **Valid dates overflow as timestamps.** A date may lie 5.88 million years from the epoch, a timestamp 292
  thousand, and the product of days and microseconds is not checked (src/type/timestamp.cpp:30-63). Inputs:
  `TimestampText.FarDateOverflows`, and `Calendar.EarliestHasNoTime` for the other direction. Conditions:
  `TimestampText.OverflowsExactly`, `Calendar.SplitUndoesJoin` and `Calendar.JoinUndoesSplit`.
- **An integer NULL shares its sort key with the type's largest value**, although the comment says it lies above
  every value (src/type/vector/operations/create_sort_key.cpp:66-78). Input and condition for a value:
  `SortKeys.NullLastExact`. Condition for two rows: `SortKeys.KeyOrderIsSql`.
- **The byte 255 in text collides with the delimiter of its sort key**, because bytes are raised by one without
  regard to wrap-around (src/type/vector/operations/create_sort_key.cpp:96-104). UTF-8 text never holds it.
  Input: `SortKeys.TextWrapExample`. Condition: `SortKeys.TextOrderExact`.

## Left out

Premises of the model:

- A chain walk and the scan of a slot are one step each, except in validation, where reading the base and
  walking are two. Commit timestamps stay below the first transaction id. Dropped tables, rows too large for
  their slot, transaction timeouts and query cancellation do not occur.
- Hashes and key equality of the hash table are parameters; rows with equal keys have equal hashes. The load
  factor 0.75 is an integer comparison and the directory mask a remainder by a power of two. The donor of a
  merge is not used again.
- The standard library's heap and sort operations are modelled by what the C++ standard promises of them.
- The tables of cumulative days and of months per day are functions computing what the tables list.
- ReadCatalogChain: asks that a file with a catalog holds a chain of different pages; on a cyclic chain the
  reader does not end.
- Memory orderings are sequentially consistent. Counters, lengths and page numbers stay within their types; where
  a width decides what happens (timestamps, day numbers, sort keys, encodings) it is part of the model.

Stated weaker than the code or the design:

- MvccTheorems.SerializableHistory: takes validation as one step; `MvccSplitHistory.SplitHistorySerial` is the
  statement for the two-step check.
- MergeFilterNlj.MergePreserves: excludes LEFT nested loops that are cross products, for which
  `MergeFilterNlj.MergeOuterExact` gives the condition, and all SEMI and ANTI nested loops, which a plan never has
  (src/include/execution/plans/nested_loop_join_plan.h:41).
- NljAsHashJoin.OptimizeJoinsPreserves: the same exclusion, and join reordering between the passes is not part
  of it.
- MvccManager.TransactionManager.Commit: the method is one uninterrupted call, without the check for a cancelled
  query; interleavings are the protocol's.
- MvccManager.TransactionManager.Abort: one uninterrupted call as well.
- MvccManager.TransactionManager.GarbageCollection: does not abort transactions that time out.
- PipelineRun.PipelineExecutor.Run: neither cancellation nor a sink that stops early.
- WhereTheorem.PlannedWhereRows: not for uncorrelated IN and EXISTS. The columns a scalar subquery joins in are all
  called `__corr`, where the source numbers them (src/planner/plan_select.cpp:778), so only here does a query's own
  column of that name clash.
- SortKeys.KeyOrderIsSql: for text without the byte 255, which UTF-8 never holds.
- CatalogChain.Database.Close: does not abort the open transactions, which the source does between reserving pages
  and writing the record (src/database.cpp:293-298); only the catalog is part of the model.
- CatalogChain.Open: asks that a file with a catalog holds a well-formed chain, as the reader does.
- TimestampText.CastTimestamp: writes date and time into a buffer each and puts them together.
- FoldedPredicates.Select: evaluates IN with the general kernel; `ConstantLists.SortedExact` says when the prepared
  list answers the same.
- Decorrelatable: also asks that the correlation columns have different names; the planner refuses a repeated
  name when it resolves the group columns by name (src/planner/plan_expression.cpp:60-70).
- TopN.TopNHeap.Delivers: rows with equal keys may be kept in any choice and order, while a plan's top-n denotes
  one fixed order.

Not modelled:

- RIGHT and FULL joins, which currently execute as INNER; join reordering; the one-step rewrites
  EliminateTrueFilter, MergeFilterScan and MergeProjection.
- Uncorrelated IN and EXISTS, which are executed before planning; the cost estimate that decides whether a key
  source is worthwhile is a parameter.
- Floating-point sort keys and arithmetic, casts other than of texts to dates and timestamps.
- Prefetching, the matched flags of outer hash joins, profiling, error text and EXPLAIN output.
- SerializeCatalog and LoadCatalog are modelled on values: bytes put in front of and taken off a sequence rather
  than a writer and a cursor; rebuilding heaps, external tables and indexes from the loaded values is not part
  of it.
- Flushing pages, write-ahead logging and recovery after a crash.
- The parser and binder, table pages, the B+ tree, the buffer pool, parquet files, the Python bindings and the
  shell.
