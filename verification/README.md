# iceberg-cxx in Dafny: scan planning and row deletion

This project models the part of iceberg-cxx that decides which delete files act on which data
files, and which rows they delete, and proves what that decision means.

Manifest entries (data files, positional deletes, equality deletes, deletion vectors) arrive in
any order, from one thread or many.  The planner stores them by partition key and sequence
number, spreads unpartitioned equality deletes, attaches deletion vectors, splits partitions into
independent buckets with a scanline over file paths, removes deletes that reach no data file, and
finally regroups data files by `referenced_data_file`.  The plan is then read with equality-delete
tables whose keys are byte strings or packed integers.

## How the model is laid out

The meaning of a plan is one relation: delete `x` applies to data file `d` when both stand in one
plan partition and `x` stands in the layer of `d` or a later one (`Plan.Applies`).  A partition can
also be read as a flat stream of files in which a delete applies to every data file before it
(`Plan.AppliesIsBefore`); every rewrite acts simply on that stream, which is where meaning
preservation is proved.

| files | subject |
|---|---|
| `Order`, `Permutations` | `std::string` order, `std::map` iteration, sorting, counting, permutations |
| `Plan` | entries, layers, partitions, plans and their meaning |
| `Builder`, `Resolve` | storing entries; global equality deletes and deletion vectors |
| `Scanline`, `Buckets` | bucket bounds and redistribution of one partition |
| `Dangling`, `Planner` | dangling deletes; the builder's whole rewrite |
| `Meaning`, `Conservation`, `ByKey` | the builder's plan against what was added, as a whole and by partition key |
| `Referenced`, `Regroup`, `Scan` | regrouping by referenced data file; the sequential scan |
| `Entries`, `EndToEnd` | the planner over the fields of manifest entries; from entries to the fate of a row |
| `Separation` | exactly which positional pairs the plan holds |
| `Clauses`, `RegroupRules` | the plan against the four clauses for positional deletes; regrouping against what was added |
| `SamePlans`, `SameRegroup`, `VectorOrder` | when reordered entries lead to the same plan |
| `Concurrent`, `Schedules` | the multi-threaded scan: what all its interleavings return, and when they agree |
| `ThreadPool` | the pool's condition-variable protocol as a state machine |
| `Cells`, `MaxLayers`, `GenericKey`, `PackedKey`, `DeleteTables` | equality-delete keys and tables |
| `TableSizes` | what a table counts against the row limit |
| `Handler`, `RowDeletion` | the handler, and the fate of a row from manifest to lookup |
| `Segments`, `SelectionVector`, `Puffin`, `Temporal` | byte ranges, row selections, Puffin files, partition-value bounds |

Main results:

- `Meaning.PlanIsSound`, `Meaning.PlanIsComplete`, `Meaning.PlanAppliesEquality`: for every sequence
  of entries the plan of `ScanMetadataBuilder` pairs a positional delete with a data file by the
  clauses on partition and sequence number of section "Scan Planning" of the Apache Iceberg Table
  Spec, losing no pair whose bounds allow an effect, and an equality delete exactly by its clauses.
  `Meaning.PlanExistsExactly` says when there is a plan, `ByKey` the same key by key.
- `Separation.PlanPairsExactly`: with ordered bounds the plan holds exactly the positional pairs in
  which the delete belongs to the file's partition, is not older, reaches some file, and is not parted
  from the file by a cut of the scanline; `Separation.SplitExactly` says where the optimiser cuts.
- `Entries.ScanAppliesEquality`, `Entries.ScanAppliesPositions`, `Entries.PlannedFileIsEntry`,
  `Entries.PlanCountsFiles`, `Entries.ScanExistsExactly`, `Entries.FirstError`: the same over the
  fields of the manifest entries and through the whole scan, with `Entries.AdditionsAreEntries` for
  what an entry adds and `Entries.ScanIsBuilderPlan` and `Entries.RegroupedShape` for when a scan is
  regrouped and into what.
- `Clauses`: the other two clauses for positional deletes, on deletion vectors and on
  `referenced_data_file`, are not enforced by the planner.  A pair is effective when the plan puts an
  added delete together with a data file that the delete's bounds cover; `Clauses.EffectiveIsRule`
  and `Clauses.RegroupedIsRule` say which pairs are, `Clauses.ScanMeetsClauses` and
  `Clauses.RegroupedScanMeetsClauses` exactly when they are those of all four clauses.
- `Scan.RegroupedMeaning`, `Scan.FinalPlanKeepsData`, `RegroupRules.SharedExactly`,
  `RegroupRules.RegroupedScanFails`: what the regrouped plan means, keeps and shares, and when there
  is none.
- `Buckets.OptimizeExactly`, `Dangling.PruneExactly`, `Dangling.PartitionsKept`: exactly when the
  optimiser succeeds, and exactly what the removal of dangling deletes removes.
- `Concurrent.ResultAfterAllStored`, `Concurrent.InterleavingsAgree`,
  `Concurrent.InterleavingsFailAlike`, `Concurrent.NoStall`, `Concurrent.StepsAreFinite`: in every
  interleaving of manifest tasks, entry tasks and the collecting main thread the plan is made only
  after every entry is stored, it is the sequential plan up to the order of files inside a layer, an
  error is returned exactly when the sequential scan fails, and the main thread always returns.  Both
  scans are taken to read the same manifests; with a statistics filter they need not, since only the
  sequential scan is given it (iceberg/tea_scan.cpp:723-729).
- `Schedules.InterleavingsAgreeExactly`, `VectorOrder.OrderIrrelevantExactly`: all interleavings give
  the sequential plan exactly when no two deletion vectors are both newest for a data file, or there
  is no plan; every order of storing the entries occurs in some interleaving
  (`Schedules.EveryOrderRuns`).
- `EndToEnd.ScanDeletesRows`: for every row with non-null keys of every data file of a scan, the handler
  takes the delete files of the partition, the lookup answers, and it reports the row exactly when an
  equality delete entry that applies to the file's entry has a row with its key.
- `Handler.AppendExactly`, `Handler.AppendAllExactly`: exactly when delete files are accepted.
- `RowDeletion.RowsDeletedExactly`: the lookup of a row with non-null keys never raises, and deletes
  the row exactly when an equality delete of the data file's partition, or an unpartitioned one, with
  a strictly greater sequence number has a row with its key.
- `DeleteTables.TableExact`, `DeleteTables.FormsAgree`: all table forms answer the naive question
  for every history; `GenericKey.KeyIdentifiesExactly` gives the exact limit of the byte key.
- `ThreadPool.NoLostWakeup`, `ThreadPool.StopRunsEverything`, `ThreadPool.NoDeadlock`,
  `ThreadPool.ShutdownTerminates`: the pool over all its runs.

## Where the code and its promises differ

- A data file with a deletion vector must have no positional delete applied to it
  (iceberg/tea_scan.cpp:829-835).  The planner only refuses deletes in the file's own layer
  (iceberg/tea_scan.cpp:778-784): a delete that covers the file and is newer than the file is planned
  for it, whatever the vector's sequence number.  `Clauses.VectorClauseBroken` and, with regrouping,
  `Clauses.RegroupedVectorBroken` are scans of three entries in which that happens;
  `Clauses.VectorClauseExactly`, `Clauses.RegroupedVectorClause` and, for entries,
  `Clauses.ScanVectorClause` give the exact condition.
- A positional delete with `referenced_data_file` must be applied to that file only.  The builder
  never looks at the reference (`Clauses.ReferenceIgnored`); without regrouping such a delete is
  planned for every data file of its partition, not newer, that its bounds or their absence let it
  cover (`Clauses.ReferenceClauseExactly`, a scan of three entries in `Clauses.ReferenceClauseBroken`).
  Regrouping enforces the clause (`Clauses.RegroupedReferences`).
- The multi-threaded scan is meant to return what the sequential one returns.  Of two deletion
  vectors with one partition, sequence number and referenced path the one stored last is kept
  (iceberg/tea_scan.cpp:902-907), so that the plan depends on the interleaving exactly when both are
  newest for a data file that is not newer (`Schedules.InterleavingsAgreeExactly`, two orders of three
  entries with different plans in `VectorOrder.OrdersDisagree`).
- Bounds of a positional delete with minimum above maximum are not refused as such.  The optimiser
  succeeds exactly when no range is closed before it was opened and every file that begins inside a
  delete's bounds does so within an open range (`Buckets.OptimizeExactly`).  A delete with inverted
  bounds alone in its partition fails (`Buckets.InvertedRangeFails`), one enclosed by other ranges
  goes through (`Buckets.EnclosedInversionSucceeds`), and ordered bounds always succeed
  (`Buckets.OptimizeSucceeds`).  Soundness of a successful run needs no assumption on the bounds.
  The search for dangling deletes takes inverted bounds to reach what lies strictly between them
  (`Dangling.DanglingExactly`).
- `GenericDeleteKey` keeps its size in 16 bits.  Keys of 2^16 bytes or more are compared by a
  prefix only: such a key always collides with a different one, a shorter key never does
  (`GenericKey.KeyIdentifiesExactly`, `GenericKey.LongKeyCollides`).
- The one-column form of an equality delete forgets the layer of a null key: it is right exactly when
  no null was added, or one was in the row's layer or above (`DeleteTables.NullsExactlyWhen`, a wrong
  answer in `DeleteTables.NullLayerForgotten`).  The packed form compares the values behind nulls: it
  is right exactly when a key that was added was added once with the same values there
  (`DeleteTables.PackedExactlyWhen`, a wrong answer in `DeleteTables.NullSlotMissed`).
- `operator+` on data entries drops the deletion vector, `operator+=` keeps it
  (`Segments.PlusExact`).
- The Puffin writer stores the flags as four characters `0`, not four zero bytes.  The size of its
  footer is a signed 32-bit number to which the reader adds 16 in 32 bits: footers are read back
  exactly up to 0x7FFF_FFEF bytes (`Puffin.FooterFoundExactly`).  The reader's length check compares
  a negative size as an unsigned number; a file with a negative size is accepted exactly if the size
  is -12, or -8 with flags equal to the magic (`Puffin.NegativeSizesExactly`, a file in
  `Puffin.NegativeSizeAccepted`).

## Model

| member | source | states |
|---|---|---|
| `Plan.AppliesIsBefore` | iceberg/tea_scan.h:85-102 | the layered meaning of a partition equals "data file before delete" in its file stream |
| `Builder.MakeSegments` | iceberg/tea_scan.cpp:815-824 | split offsets become consecutive segments, the last one unbounded; no offsets give one segment from byte 4 |
| `Builder.ScanMetadataBuilder.AddDataFile` | iceberg/tea_scan.cpp:878-882 | the new state is the old one with one data addition stored |
| `Builder.ScanMetadataBuilder.AddPositionDeletes` | iceberg/tea_scan.cpp:884-889 | the new state is the old one with one positional addition stored |
| `Builder.ScanMetadataBuilder.AddGlobalEqualityDeletes` | iceberg/tea_scan.cpp:891-894 | an unpartitioned equality delete is kept one sequence number earlier, outside the partitions |
| `Builder.ScanMetadataBuilder.AddEqualityDeletes` | iceberg/tea_scan.cpp:896-900 | an equality delete is kept in its partition one sequence number earlier |
| `Builder.ScanMetadataBuilder.AddDeletionVector` | iceberg/tea_scan.cpp:902-907 | the vector is stored under its referenced path, overwriting an earlier one of the layer |
| `Builder.ScanMetadataBuilder.AddEntry` | iceberg/tea_scan.cpp:797-808 | a deleted entry changes nothing, a mismatch of specifications fails, otherwise the entry's addition is stored |
| `Builder.ScanMetadataBuilder.StoreEntry` | iceberg/tea_scan.cpp:810-876 | the entry's content selects the addition; incomplete deletion vectors and missing sequence numbers fail without change |
| `Builder.StoredExactly` | iceberg/tea_scan.cpp:878-907 | after any sequence of additions each layer of each partition holds exactly what was added for it, in order |
| `Builder.GatheredMembers` | iceberg/tea_scan.cpp:878-907 | membership in a stored layer, kind by kind, is membership among the additions |
| `Entries.ClassifyExactly` | iceberg/tea_scan.cpp:797-876 | an entry is refused exactly when it is not acceptable, with its fault, and otherwise stands for the addition its fields describe |
| `Entries.AdditionsInOrder` | iceberg/tea_scan.cpp:797-876 | the additions are those of the live entries, one each and in their order |
| `Entries.AdditionsAreEntries` | iceberg/tea_scan.cpp:810-876 | a data file, positional delete, vector, partitioned or unpartitioned equality delete is added exactly when a live entry has its key, number, path, bounds, reference and ids |
| `Entries.RefusedExactly` | iceberg/tea_scan.cpp:797-876 | entries are refused exactly when one is live and fits no single specification, has no sequence number, or is an incomplete vector |
| `Entries.FirstFault` | iceberg/tea_scan.cpp:797-876 | with the fault of the first such entry |
| `Entries.SegmentsFollow` | iceberg/tea_scan.cpp:815-824 | segments begin at the split offsets and end where the next begins, the last has no end, and without offsets there is one from byte 4 |
| `Resolve.ApplyGlobalEqualityDeletes` | iceberg/tea_scan.cpp:746-752 | every layer, present or created, ends with its own equality deletes followed by the global ones of its number |
| `Resolve.SpreadIsApplyGlobal` | iceberg/tea_scan.cpp:746-752 | spreading number by number gives the layerwise union |
| `Resolve.ResolveDeletionVectors` | iceberg/tea_scan.cpp:754-789 | the two passes compute the resolved partition or the error of mixed deletes |
| `Resolve.VectorsAreHighest` | iceberg/tea_scan.cpp:754-760 | the vector offered for a path is the one with the highest sequence number, and no other |
| `Resolve.ResolveExactly` | iceberg/tea_scan.cpp:754-789 | each resolved layer is the stored one with vectors attached, failing exactly when a layer with a vector-carrying file has other deletes |
| `Resolve.VectorRule` | iceberg/tea_scan.cpp:763-789 | a data file carries the highest vector for its path exactly when its sequence number does not exceed the vector's |
| `Scanline.GetEventsInPartition` | iceberg/tea_scan.cpp:1033-1047 | the loops collect start and end of every delete range and every data path |
| `Scanline.FindBucketLowerBounds` | iceberg/tea_scan.cpp:1071-1101 | the scan over sorted events returns the bucket bounds or the internal error |
| `Scanline.BoundsAreSorted` | iceberg/tea_scan.cpp:1071-1101 | every bound is an event path and bounds never decrease |
| `Scanline.BalanceAt` | iceberg/tea_scan.cpp:1078-1098 | the balance after any prefix is the number of ranges open there, so with ordered ranges it never underflows |
| `Scanline.ScanSucceeds` | iceberg/tea_scan.cpp:1078-1098 | with ordered ranges no prefix of the scan fails |
| `Scanline.LowerBoundsSucceed` | iceberg/tea_scan.cpp:1071-1101 | with ordered ranges the scan ends at balance zero and bounds are found |
| `Scanline.BoundsAvoidRanges` | iceberg/tea_scan.cpp:1049-1101 | no bound lies behind the minimum and up to the maximum of any delete range |
| `Scanline.LowerBoundsExactly` | iceberg/tea_scan.cpp:1071-1101 | bounds are found exactly when the input closes only open ranges |
| `Buckets.UpperBoundMonotone` | iceberg/tea_scan.cpp:1103-1110 | a greater path never falls into an earlier bucket |
| `Buckets.UpperBoundUndivided` | iceberg/tea_scan.cpp:1103-1110 | two paths with no bound between them fall into the same bucket |
| `Buckets.AppendDataItems` | iceberg/tea_scan.cpp:1112-1120 | appending a data file appends it to the bucket's stream: no earlier delete starts to apply |
| `Buckets.AppendDeleteItems` | iceberg/tea_scan.cpp:1122-1127 | appending a delete appends it to the bucket's stream: it applies to everything before |
| `Buckets.RedistributeDataIntoBuckets` | iceberg/tea_scan.cpp:1130-1154 | the nested loops distribute the partition's stream or hit an internal check |
| `Buckets.BucketStreams` | iceberg/tea_scan.cpp:1130-1154 | each bucket's stream is the partition's stream restricted to the bucket, in order |
| `Buckets.StreamsConserved` | iceberg/tea_scan.cpp:1130-1154 | all buckets together hold the partition's files with the same multiplicities |
| `Buckets.SameBucketMeaning` | iceberg/tea_scan.cpp:1112-1154 | renumbered layers relate a data file and a delete of one bucket exactly as the old layers did |
| `Buckets.OptimizePreservesMeaning` | iceberg/tea_scan.cpp:1156-1183 | a covered pair applies after splitting exactly when it applied before |
| `Buckets.OptimizeConservesFiles` | iceberg/tea_scan.cpp:1179-1183 | splitting a partition conserves the multiset of its files |
| `Buckets.OptimizeSucceeds` | iceberg/tea_scan.cpp:1141-1147 | with ordered ranges neither bucket check can fire |
| `Buckets.InvertedRangeFails` | iceberg/tea_scan.cpp:1078-1098 | a delete with minimum above maximum, alone in its partition, makes the scan fail |
| `Buckets.OptimizeExactly` | iceberg/tea_scan.cpp:1071-1154 | the optimiser succeeds exactly when no range is closed before it was opened and whatever begins inside a delete's bounds does so within an open range |
| `Buckets.EnclosedInversionSucceeds` | iceberg/tea_scan.cpp:1141-1147 | inverted bounds enclosed by other ranges pass every check |
| `Separation.OptimisedExactly` | iceberg/tea_scan.cpp:1156-1177 | the optimiser takes exactly the partitions with positional deletes, bounds on all of them, and no equality deletes |
| `Separation.BoundsAreCuts` | iceberg/tea_scan.cpp:1071-1110 | the scanline cuts exactly where a data file or range begins inside no range |
| `Separation.SplitExactly` | iceberg/tea_scan.cpp:975-991 | with ordered bounds a delete applies to a data file after splitting exactly when it did before and, in a partition the optimiser takes, no cut lies between them |
| `Dangling.DanglingExactly` | iceberg/tea_scan.cpp:1226-1235 | whatever the bounds, the two-sided set search finds a delete dangling exactly when it has bounds and they reach no collected path: within ordered bounds, strictly between inverted ones |
| `Dangling.DroppedWhenOrdered` | iceberg/tea_scan.cpp:1226-1235 | for ordered bounds a delete is dropped exactly when it covers no data file of its own or an earlier layer |
| `Dangling.RemoveDanglingDeletes` | iceberg/tea_scan.cpp:1187-1262 | the loops compute the pruned plan that `Dangling.PruneExactly` and `Dangling.PartitionsKept` describe |
| `Dangling.DroppedExactly` | iceberg/tea_scan.cpp:1208-1235 | the search at a layer drops a delete exactly when it has bounds and reaches no data file of its own or an earlier layer |
| `Dangling.PruneExactly` | iceberg/tea_scan.cpp:1213-1256 | a partition loses exactly the dropped deletes and the layers left without files, in order |
| `Dangling.PartitionsKept` | iceberg/tea_scan.cpp:1191-1206 | exactly the partitions without data vanish, the others keep their order |
| `Dangling.PruneIsStreamwise` | iceberg/tea_scan.cpp:1187-1262 | pruning a partition is pruning its stream; dropping empty layers keeps the order |
| `Dangling.PruneSound` | iceberg/tea_scan.cpp:1187-1262 | a pair that applies after pruning applied before |
| `Dangling.PruneComplete` | iceberg/tea_scan.cpp:1187-1262 | a covered pair still applies after pruning |
| `Dangling.PruneKeepsEquality` | iceberg/tea_scan.cpp:1187-1262 | equality deletes apply to the same data files before and after |
| `Dangling.PrunePreservesMeaning` | iceberg/tea_scan.cpp:1187-1262 | on covered pairs pruning changes nothing |
| `Planner.Optimize` | iceberg/tea_scan.cpp:975-991 | partitions are split or kept one after another |
| `Planner.GetPartitions` | iceberg/tea_scan.cpp:1264-1273 | vectorising, optimising and pruning compose to the layout of the plan |
| `Planner.GetResult` | iceberg/tea_scan.cpp:732-744 | the result is the plan of the state stored before the call; the builder's partitions are given away |
| `Planner.LayoutSound` | iceberg/tea_scan.cpp:1264-1273 | every pair of the laid-out plan comes from one of the resolved partitions |
| `Planner.LayoutComplete` | iceberg/tea_scan.cpp:1264-1273 | every covered pair of the resolved partitions is in the laid-out plan |
| `Planner.LayoutEquality` | iceberg/tea_scan.cpp:1264-1273 | equality pairs are exactly those of the resolved partitions |
| `Planner.LayoutConserves` | iceberg/tea_scan.cpp:1264-1273 | the laid-out plan holds the data files of the resolved partitions, with multiplicity |
| `Meaning.VectorsOfExactly` | iceberg/tea_scan.cpp:754-789 | over additions: a path's vector is one added at the highest sequence number for it in the partition |
| `Meaning.PlanIsSound` | iceberg/tea_scan.cpp:732-744 | a positional pair of the plan was added in one partition with data sequence not above the delete's |
| `Meaning.PlanIsComplete` | iceberg/tea_scan.cpp:829-835 | every such pair whose path the delete covers is in the plan |
| `Meaning.PlanIsExact` | iceberg/tea_scan.cpp:829-835 | with distinct delete paths, the effective pairs of the plan are exactly those of the clauses on partition and sequence number |
| `Meaning.PlanAppliesEquality` | iceberg/tea_scan.cpp:862-900 | an equality delete is planned for a data file exactly when it is of the same partition or unpartitioned and strictly newer |
| `Meaning.PlanFailsExactly` | iceberg/tea_scan.cpp:768-789 | with ordered bounds there is no plan exactly when a file with a vector shares its layer with other deletes |
| `Meaning.PlanExistsExactly` | iceberg/tea_scan.cpp:732-744 | whatever the bounds, there is a plan exactly when no layer is mixed and every partition that is optimised can be divided |
| `Meaning.DeletesOfPlan` | iceberg/tea_scan.cpp:732-744 | every positional delete of the plan was added |
| `Conservation.PlanKeepsData` | iceberg/tea_scan.cpp:732-744 | the plan holds every added data file exactly as often as it was added, with its vector |
| `ByKey.PlanIsBlocks` | iceberg/tea_scan.cpp:934-947 | the plan is one block of plan partitions per partition key, in key order |
| `ByKey.BlockIsSound` | iceberg/tea_scan.cpp:732-744 | a positional pair of a block was added for its key, data not newer than delete |
| `ByKey.BlockIsComplete` | iceberg/tea_scan.cpp:732-744 | every such pair whose path the delete covers is in the block |
| `ByKey.BlockAppliesEquality` | iceberg/tea_scan.cpp:862-900 | the equality pairs of a block are exactly those of the rule for its key |
| `ByKey.BlockKeepsData` | iceberg/tea_scan.cpp:732-744 | a block holds every data file of its key exactly as often as it was added, with its vector |
| `Separation.BlockPairsExactly` | iceberg/tea_scan.cpp:975-1262 | the positional pairs of one key's plan partitions, over the additions of the key |
| `Separation.PlanPairsExactly` | iceberg/tea_scan.cpp:732-744 | with ordered bounds a pair is planned exactly when delete and file share a key, the delete is not older, reaches some file of the key, and no cut lies between them |
| `Clauses.VectorRequired` | iceberg/tea_scan.cpp:754-789 | a data file carries a vector exactly when the newest one for its path in its partition is not older |
| `Clauses.EntriesAreBare` | iceberg/tea_scan.cpp:815-827 | no entry adds a data file that already has a vector |
| `Clauses.EffectiveIsRule` | iceberg/tea_scan.cpp:1275-1317 | with distinct delete paths, a delete is planned for a data file it covers exactly when it belongs to the file's partition and is not older |
| `Clauses.RegroupedIsRule` | iceberg/tea_scan.cpp:1415-1471 | after regrouping exactly when, moreover, it references the file |
| `Clauses.VectorClauseExactly` | iceberg/tea_scan.cpp:829-835 | a file with a vector has an effective positional delete in the plan exactly when a delete that covers it was added after it |
| `Clauses.RegroupedVectorClause` | iceberg/tea_scan.cpp:1415-1471 | in the regrouped plan exactly when a delete that covers and references it was |
| `Clauses.ScanVectorClause` | iceberg/tea_scan.cpp:829-835 | both conditions for a scan of entries, regrouped or not |
| `Clauses.VectorClauseBroken` | iceberg/tea_scan.cpp:778-784 | three entries whose plan gives a file its vector and a newer delete |
| `Clauses.RegroupedVectorBroken` | iceberg/tea_scan.cpp:1415-1471 | three entries whose regrouped plan does |
| `Clauses.ReferenceIgnored` | iceberg/tea_scan.cpp:844-858 | what the builder stores for a positional delete does not depend on its reference |
| `Clauses.ReferenceClauseExactly` | iceberg/tea_scan.cpp:1350-1366 | without regrouping a delete that references another file is planned for a data file it covers exactly when it belongs to its partition and is not older |
| `Clauses.ReferenceClauseBroken` | iceberg/tea_scan.cpp:844-858 | three entries whose plan applies a delete to a file other than the one it references |
| `Clauses.RegroupedReferences` | iceberg/tea_scan.cpp:1415-1471 | regrouping leaves no pair of a delete and a file other than the one it references |
| `Clauses.SpecifiedExactly` | iceberg/tea_scan.cpp:829-835 | the effective pairs of an unregrouped plan are those of all four clauses exactly when no delete covers a data file of its partition, not newer, that has a vector or that it does not reference |
| `Clauses.ScanMeetsClauses` | iceberg/tea_scan.cpp:829-835 | the same for the plan of a sequence of entries |
| `Clauses.RegroupedScanMeetsClauses` | iceberg/tea_scan.cpp:1415-1471 | a regrouped scan meets all four clauses exactly when no delete covers a data file that it references, of its partition and not newer, that has a vector |
| `Clauses.RegroupedAreDistinct` | iceberg/tea_scan.cpp:1402-1413 | a scan that can be regrouped has no two positional delete files with one path |
| `Referenced.HandlePartition` | iceberg/tea_scan.cpp:1415-1471 | the index loops and the emission loop compute the regrouped partition or its error |
| `Referenced.ReferencedDataFileAwareScanPlanner.HandlePositionDelete` | iceberg/tea_scan.cpp:1402-1413 | the reference is noted, a repeated delete path fails with the flag already set, a deletion vector is only counted |
| `Referenced.ReferencedDataFileAwareScanPlanner.AddEntry` | iceberg/tea_scan.cpp:1324-1345 | the notes change by the entry's kind, then the builder stores the entry; which error comes first and what it leaves behind |
| `Referenced.ReferencedDataFileAwareScanPlanner.GetResult` | iceberg/tea_scan.cpp:1347-1394 | the plan of the builder's former contents is returned or regrouped, as the notes allow |
| `RegroupMeaning.RegroupAllMeaning` | iceberg/tea_scan.cpp:1415-1471 | groups keep exactly the pairs whose delete references the data file; the shared list holds exactly the files with neither vector nor referencing delete |
| `RegroupMeaning.RegroupPreservesMeaning` | iceberg/tea_scan.cpp:1368-1394 | a pair is in the regrouped plan exactly when it was planned and the delete references the file |
| `RegroupMeaning.RegroupKeepsData` | iceberg/tea_scan.cpp:1383-1394 | regrouping keeps every data file exactly once |
| `RegroupRules.RegroupFailsExactly` | iceberg/tea_scan.cpp:1415-1440 | with all deletes annotated, regrouping fails exactly when a plan partition repeats a data path |
| `Scan.GetScanMetadata` | iceberg/tea_scan.cpp:1509-1524 | the loop returns the plan of the entries or the first error |
| `Scan.FeedExactly` | iceberg/tea_scan.cpp:1324-1345 | entries are accepted exactly when all notes and all additions are, and leave exactly these |
| `Scan.NotesAreExact` | iceberg/tea_scan.cpp:1396-1413 | the flags and the reference map say exactly which kinds of entries and which references occurred |
| `Scan.NotingFailsExactly` | iceberg/tea_scan.cpp:1402-1413 | noting fails exactly when two annotated deletes have one path |
| `Scan.RegroupedMeaning` | iceberg/tea_scan.cpp:1347-1394 | in the regrouped plan a data file has only deletes that reference it, of its partition and not older, and all of these that cover it |
| `Scan.FinalPlanKeepsData` | iceberg/tea_scan.cpp:1347-1394 | regrouped or not, the plan holds every added data file exactly as often as it was added |
| `RegroupRules.RegroupedScanFails` | iceberg/tea_scan.cpp:1415-1440 | a regrouped scan whose builder has a plan fails exactly when two data files of one partition share a path, and with that error |
| `RegroupRules.SharedExactly` | iceberg/tea_scan.cpp:1441-1448 | the shared partition holds exactly the added data files that need no vector and that no remaining delete of their partition references |
| `Entries.RegroupsExactly` | iceberg/tea_scan.cpp:1347-1366 | a scan is regrouped exactly when some live positional delete or vector has a reference, all have one, and no live equality delete exists |
| `Entries.ScanIsBuilderPlan` | iceberg/tea_scan.cpp:1350-1366 | otherwise the builder's plan is returned unchanged |
| `Entries.RegroupedShape` | iceberg/tea_scan.cpp:1369-1394 | every partition of a regrouped plan is one layer with one data file, but for a first one of data files without any deletes, which is not empty |
| `Entries.ScanAppliesEquality` | iceberg/tea_scan.cpp:862-876 | the plan of a scan applies an equality delete to a data path exactly when two live entries say so: unpartitioned or of one partition, with a strictly greater number |
| `Entries.ScanAppliesPositions` | iceberg/tea_scan.cpp:828-860 | it applies a delete file to a data path it covers exactly when a live data entry of that path is of its partition and not newer and, in a regrouped scan, the path is referenced |
| `Entries.PlannedFileIsEntry` | iceberg/tea_scan.cpp:754-789 | every planned data file is that of a live entry and carries a newest vector exactly when one of its partition is not older |
| `Entries.PlanCountsFiles` | iceberg/tea_scan.cpp:1347-1394 | a data path occurs in the plan as often as among the live data entries |
| `Entries.FirstError` | iceberg/tea_scan.cpp:1324-1345 | the scan stops at the first entry that repeats an annotated delete path or is not acceptable, with its error |
| `Entries.ScanExistsExactly` | iceberg/tea_scan.cpp:1324-1394 | a scan has a plan exactly when all entries are acceptable, no annotated delete path is repeated, the builder has a plan and a regrouped scan has no data path twice in a partition |
| `SamePlans.BuilderPlanSame` | iceberg/tea_scan.cpp:1275-1317 | without two newest vectors for a data file, permuting the additions changes the builder's plan only inside layers |
| `SameRegroup.FinalPlanSame` | iceberg/tea_scan.cpp:1483-1507 | without two newest vectors for a data file, permuting the additions changes the final plan only inside layers |
| `SamePlans.MatchesSame` | iceberg/tea_scan.cpp:754-789 | which data files get a vector, and of which number, does not depend on the order of the additions |
| `VectorOrder.UndressedDivisible` | iceberg/tea_scan.cpp:1156-1183 | whether the optimiser succeeds does not depend on the vectors |
| `VectorOrder.FinalPlanExistsAlike` | iceberg/tea_scan.cpp:1483-1507 | whether a scan has a plan never depends on the order in which its entries are stored |
| `VectorOrder.LastStoredWins` | iceberg/tea_scan.cpp:902-907 | of several newest vectors for a path the one stored last is offered |
| `VectorOrder.PostponedDiffers` | iceberg/tea_scan.cpp:902-907 | storing another newest vector of a data file last changes the plan |
| `VectorOrder.OrderIrrelevantExactly` | iceberg/tea_scan.cpp:1483-1507 | the plan is independent of the order of the additions exactly when no two vectors are both newest for a data file, or there is no plan |
| `VectorOrder.OrdersDisagree` | iceberg/tea_scan.cpp:902-907 | two orders of three entries, both with a plan and not the same one |
| `Concurrent.MoveInv` | iceberg/tea_scan.cpp:1275-1317 | every critical section keeps notes and state equal to those of the passed entries in the order they passed |
| `Concurrent.RunInv` | iceberg/tea_scan.cpp:1526-1571 | the invariant of tasks, submissions and main thread holds in every reachable state |
| `Concurrent.Linearized` | iceberg/tea_scan.cpp:1483-1507 | when every task has succeeded the state is the sequential one of a reordering of all entries |
| `Concurrent.InterleavingsAgree` | iceberg/tea_scan.cpp:1574-1606 | without two newest vectors for a data file, whatever the main thread returns in whatever interleaving is the sequential plan up to order inside layers |
| `Concurrent.InterleavingsFailAlike` | iceberg/tea_scan.cpp:1594-1606 | a main thread that is done returns an error exactly when the sequential scan does |
| `Concurrent.ResultAfterAllStored` | iceberg/tea_scan.cpp:1594-1606 | whenever the next step of the main thread is the call of GetResult, every entry of every manifest has passed both mutexes |
| `Concurrent.FailureIsSequential` | iceberg/tea_scan.cpp:1594-1603 | the main thread gives up only on entries that make the sequential scan fail |
| `Concurrent.UnnumberedFails` | iceberg/tea_scan.cpp:1526-1571 | an entry without sequence number, deleted or not, makes the sequential and the multi-threaded scan fail |
| `Concurrent.NoStall` | iceberg/tea_scan.cpp:1574-1606 | until the main thread has returned some step is possible |
| `Concurrent.StepsAreFinite` | iceberg/tea_scan.cpp:1574-1606 | every effective step leaves less to do, so the main thread returns |
| `Schedules.EveryOrderRuns` | iceberg/tea_scan.cpp:1526-1606 | for every order of the entries some interleaving stores them in it and returns the plan of that order |
| `Schedules.InterleavingsAgreeExactly` | iceberg/tea_scan.cpp:1574-1606 | all interleavings agree with the sequential scan exactly when no two vectors are both newest for a data file, or that scan fails |
| `ThreadPool.ThreadPool.Submit` | iceberg/common/threadpool.h:73-85 | a running pool enqueues the task at the end, a stopped one refuses and stays as it is |
| `ThreadPool.ThreadPool.BeginStop` | iceberg/common/threadpool.h:93-106 | only the first stop changes the status, by its argument |
| `ThreadPool.ThreadPool.GetTask` | iceberg/common/threadpool.h:136-151 | the three outcomes of a worker's turn and what they change |
| `ThreadPool.NextInv` | iceberg/common/threadpool.h:73-157 | every step keeps the wake-up, history and shutdown invariants |
| `ThreadPool.ReachableInv` | iceberg/common/threadpool.h:73-157 | the invariants hold in every state of every run |
| `ThreadPool.NoLostWakeup` | iceberg/common/threadpool.h:130-138 | while running, blocked workers imply at most as many queued tasks as woken workers |
| `ThreadPool.FirstInFirstOut` | iceberg/common/threadpool.h:148-150 | dequeued and queued tasks are the submitted ones in order, each once |
| `ThreadPool.StoppedForGood` | iceberg/common/threadpool.h:93-106 | after leaving the running status nothing is accepted, and nothing is dequeued once cancelled |
| `ThreadPool.StopRunsEverything` | iceberg/common/threadpool.h:93-157 | when all workers of a pool stopped with waiting have left, every submitted task has run |
| `ThreadPool.NoDeadlock` | iceberg/common/threadpool.h:130-157 | while work or a shutdown is pending some worker can move |
| `ThreadPool.ShutdownTerminates` | iceberg/common/threadpool.h:136-157 | after a stop every worker step decreases a measure |
| `ThreadPool.SubmitIsPossible` | iceberg/common/threadpool.h:73-85 | a task can be submitted at any time; a running pool queues it behind the others, a stopped one refuses it |
| `ThreadPool.StopIsPossible` | iceberg/common/threadpool.h:93-106 | the pool can be stopped at any time; the first stop counts and leaves nobody blocked |
| `ThreadPool.EnterTakes` | iceberg/common/threadpool.h:129-150 | a worker that enters while there is work takes the oldest task, unless the pool is cancelled |
| `Cells.LittleEndianInjective` | iceberg/equality_delete/generic_delete.cpp:26-33 | the memory image determines the number |
| `Cells.MaskInjective` | iceberg/equality_delete/generic_delete.cpp:102-111 | the null mask determines which columns are null |
| `MaxLayers.UpdateMaxHas` | iceberg/equality_delete/utils.h:206-214 | one update makes exactly its key visible, at its layer and below |
| `GenericKey.EncodePrefixFree` | iceberg/equality_delete/generic_delete.cpp:99-126 | for up to 64 columns the encoding is a prefix code: equal bytes come from agreeing rows and no key is a prefix of another |
| `GenericKey.AgreeingRows` | iceberg/equality_delete/generic_delete.cpp:99-126 | rows with equal null flags and equal non-null values have equal bytes |
| `GenericKey.ShortKeyIdentifies` | iceberg/equality_delete/generic_delete.h:51-54 | a key below 2^16 bytes equals another key exactly when the rows agree |
| `GenericKey.LongKeyCollides` | iceberg/equality_delete/generic_delete.h:16-30 | every longer key equals the key of a row that does not agree with it |
| `GenericKey.KeyIdentifiesExactly` | iceberg/equality_delete/generic_delete.h:13-54 | a key identifies its row exactly when it is shorter than 2^16 bytes |
| `GenericKey.KeyExactly` | iceberg/equality_delete/generic_delete.cpp:12-95 | a row has a key exactly when its non-null values are of the supported types; a value that cannot be measured is reported first |
| `GenericKey.Measure` | iceberg/equality_delete/generic_delete.cpp:102-111 | the first pass yields the null mask and the exact width of what will be written, or the error of an unmeasurable value |
| `GenericKey.WriteBody` | iceberg/equality_delete/generic_delete.cpp:116-124 | the second pass fills the buffer exactly with the non-null values behind the mask, or meets an unwritable type |
| `GenericKey.ConstructKey` | iceberg/equality_delete/generic_delete.cpp:99-126 | the constructor writes exactly the encoding and compares by its low 16 bits of size |
| `GenericKey.AddAllHas` | iceberg/equality_delete/generic_delete.cpp:128-137 | after adding rows a key is found at a layer exactly when it was before or a row has it |
| `GenericKey.GenericEqualityDelete.Add` | iceberg/equality_delete/generic_delete.cpp:128-137 | more than 64 columns are refused; otherwise all rows are added, up to the first exception |
| `GenericKey.GenericEqualityDelete.IsDeleted` | iceberg/equality_delete/generic_delete.cpp:139-144 | the answer is whether the key's highest layer reaches the data layer |
| `PackedKey.EightColumns` | iceberg/equality_delete/delete.cpp:68-74 | packable columns are at least 16 bits wide, so 128 bits hold at most eight |
| `PackedKey.OrderMask` | iceberg/equality_delete/specialized_multiple_column_delete.h:66-71 | the null mask does not depend on the column order |
| `PackedKey.PackedExactly` | iceberg/equality_delete/specialized_multiple_column_delete.h:135-200 | under any column order packed values are equal exactly when all slots are |
| `PackedKey.ConstructorsAgree` | iceberg/equality_delete/specialized_multiple_column_delete.h:135-200 | skipping nulls changes nothing on rows without nulls |
| `PackedKey.ConstructRow` | iceberg/equality_delete/specialized_multiple_column_delete.h:135-168 | shift and addition in the chosen integer give the packed non-null columns, without overflow |
| `PackedKey.ConstructRowIgnoreNulls` | iceberg/equality_delete/specialized_multiple_column_delete.h:170-200 | shift and addition in the chosen integer give all packed columns, without overflow |
| `PackedKey.NullsMask` | iceberg/equality_delete/specialized_multiple_column_delete.h:66-71 | the 8-bit mask is the row's null mask |
| `PackedKey.AddPackedHas` | iceberg/equality_delete/specialized_multiple_column_delete.h:35-86 | after adding rows a mask and key are found at a layer exactly when they were before or a row has them |
| `PackedKey.SpecializedDeleteMultipleColumn.Add` | iceberg/equality_delete/specialized_multiple_column_delete.h:35-86 | wrong columns fail without change; otherwise both maps hold exactly the added rows |
| `PackedKey.SpecializedDeleteMultipleColumn.IsDeleted` | iceberg/equality_delete/specialized_multiple_column_delete.h:98-126 | the answer is whether the key's highest layer in the map of its mask reaches the data layer |
| `DeleteTables.MakeEqualityDelete` | iceberg/equality_delete/delete.cpp:16-97 | the factory picks the form by number, types and total width of the columns, with any order of the columns by descending width |
| `DeleteTables.FactoryExactly` | iceberg/equality_delete/delete.cpp:16-97 | a specialised form is picked exactly for 16-, 32- and 64-bit integers and timestamps of at most 128 bits together, the one-column form for one of them |
| `DeleteTables.FilledExactly` | iceberg/equality_delete/generic_delete.cpp:12-95 | a specialised table takes every history, a generic one exactly those with at most 64 columns and storable rows |
| `DeleteTables.FactorySuits` | iceberg/equality_delete/delete.cpp:50-97 | the form picked meets the needs of its key construction |
| `DeleteTables.HitIsAgreement` | iceberg/equality_delete/generic_delete.cpp:128-144 | in every form an added row matches a row exactly when they agree and its layer is not below the row's |
| `DeleteTables.FilledHits` | iceberg/equality_delete/delete.cpp:16-97 | after any history each form reports exactly what some added row hits |
| `DeleteTables.TableExact` | iceberg/equality_delete/delete.cpp:16-97 | every form, after any history, reports a row exactly when an agreeing row was added in its layer or above |
| `DeleteTables.FormsAgree` | iceberg/equality_delete/delete.cpp:16-97 | the specialised forms answer as the generic one on rows without nulls |
| `DeleteTables.NullsIgnoreLayers` | iceberg/equality_delete/specialized_one_column_delete.h:31-53 | the one-column form reports a null key exactly when any null was added, whatever the layers |
| `DeleteTables.NullsExactlyWhen` | iceberg/equality_delete/specialized_one_column_delete.h:31-53 | on a null key the one-column form is right exactly when no null was added or one was in the layer or above |
| `DeleteTables.NullLayerForgotten` | iceberg/equality_delete/specialized_one_column_delete.h:47-48 | a null of layer 0 is reported as deleting a null of layer 1 |
| `DeleteTables.NullSlotsMatter` | iceberg/equality_delete/specialized_multiple_column_delete.h:65-85 | the packed form takes rows as equal exactly when they agree and their null slots hold equal values |
| `DeleteTables.PackedComparesSlots` | iceberg/equality_delete/specialized_multiple_column_delete.h:35-126 | after any history the packed form reports exactly the rows whose key and null slots were added in their layer or above |
| `DeleteTables.PackedExactlyWhen` | iceberg/equality_delete/specialized_multiple_column_delete.h:35-126 | it is right exactly when a key added there was added once with the same null slots |
| `DeleteTables.NullSlotMissed` | iceberg/equality_delete/specialized_multiple_column_delete.h:65-85 | a row that should be deleted is missed because of the value behind its null |
| `DeleteTables.PackedWithNulls` | iceberg/equality_delete/specialized_multiple_column_delete.h:35-126 | with a fixed filler in null slots the packed form is exact on rows with nulls |
| `Handler.AppendKeepsLimit` | iceberg/equality_delete/handler.cpp:129-158 | a successful append leaves at most as many rows as before plus the file's, within the limit |
| `Handler.AppendExactly` | iceberg/equality_delete/handler.cpp:122-165 | a delete file is accepted exactly when its rows still fit, its key fields are columns and, unless they pack, number at most 64 and have supported types where not null |
| `Handler.AppendAllExactly` | iceberg/equality_delete/handler.cpp:122-165 | a sequence of files is accepted exactly when each is in its turn |
| `Handler.AppendAllSucceeds` | iceberg/equality_delete/handler.cpp:122-165 | admissible files whose rows fit together are all accepted |
| `TableSizes.TableCounts` | iceberg/equality_delete/handler.cpp:148-154 | a table of distinguishable rows counts every row once, however often and in whatever layers it was added |
| `TableSizes.RowsCounted` | iceberg/equality_delete/handler.cpp:129-133 | the rows compared with the limit are all rows of the file |
| `Handler.AppendReports` | iceberg/equality_delete/handler.cpp:122-158 | one delete file adds exactly the deletion of rows with its keys in its layer or below |
| `Handler.HandlerExact` | iceberg/equality_delete/handler.cpp:122-197 | after any delete files a record is reported exactly when a file of its layer or above has its key |
| `Handler.HandlerAnswers` | iceberg/equality_delete/handler.cpp:188-197 | the lookup never raises on such a record, and its answer is that one |
| `Handler.EmptyReportsNothing` | iceberg/equality_delete/handler.cpp:93-106 | skipping empty tables is harmless |
| `Handler.ParseEqualityDeleteFile` | iceberg/equality_delete/handler.cpp:74-90 | batches are added one after another up to the first error |
| `Handler.VisitExact` | iceberg/equality_delete/handler.cpp:188-197 | asking the non-empty tables in turn answers for all tables |
| `Handler.EqualityDeleteHandler.AppendDelete` | iceberg/equality_delete/handler.cpp:122-165 | the row limit and missing columns are checked first, then the file is added to the table of its field ids and the row count renewed |
| `Handler.EqualityDeleteHandler.PrepareDeletesForFile` | iceberg/equality_delete/handler.cpp:93-106 | the data layer is set and the tables with rows are selected |
| `Handler.EqualityDeleteHandler.PrepareDeletesForBatch` | iceberg/equality_delete/handler.cpp:108-120 | for each selected table the batch's columns are picked in id order |
| `Handler.EqualityDeleteHandler.IsDeleted` | iceberg/equality_delete/handler.cpp:188-197 | without a data layer it raises; otherwise the answer is what the tables report |
| `RowDeletion.PartitionExact` | iceberg/streams/iceberg/equality_delete_applier.h:133-145 | with the plan's layer numbers the lookup never raises and deletes exactly by equality deletes of the same or a later layer |
| `RowDeletion.OnePlace` | iceberg/tea_scan.cpp:732-744 | inside a partition key, data files with distinct paths have a single place in the plan |
| `RowDeletion.EqualityScans` | iceberg/tea_scan.cpp:1347-1366 | a scan that meets an equality delete returns the builder's plan unchanged |
| `RowDeletion.RowsDeletedExactly` | iceberg/tea_scan.cpp:862-900 | every plan partition belongs to a key, and a row of its data files is deleted exactly when an equality delete of that key or unpartitioned, strictly newer, has its key; the lookup never raises |
| `RowDeletion.MaterializedSucceeds` | iceberg/equality_delete/handler.cpp:122-165 | the deletes of a plan partition are all taken when their files are admissible and their rows within the limit |
| `EndToEnd.ScanDeletesRows` | iceberg/tea_scan.cpp:862-900 | every row of every data file of a scan is answered, and deleted exactly when an equality delete entry that is unpartitioned or of the file's partition, with a strictly greater number, has a row with its key |
| `Segments.ValidateSegments` | iceberg/experimental_representations.cpp:36-43 | comparing neighbours decides whether all offsets are in order |
| `Segments.UniteSegments` | iceberg/experimental_representations.cpp:45-78 | unsorted segments raise; otherwise the loop computes the united segments |
| `Segments.UniteExact` | iceberg/experimental_representations.cpp:45-78 | uniting keeps the covered bytes exactly and leaves strictly separated segments |
| `Segments.SeparatedIsUnique` | iceberg/experimental_representations.cpp:45-78 | strictly separated segments are determined by the bytes they cover |
| `Segments.EqualExactly` | iceberg/experimental_representations.cpp:144-155 | the comparison raises exactly on unsorted segments; otherwise entries compare equal exactly when path and covered bytes are equal |
| `Segments.AnySortUnites` | iceberg/tea_scan.cpp:367-369 | the result of uniting does not depend on how the sort orders equal offsets |
| `Segments.PlusExact` | iceberg/tea_scan.cpp:360-382 | different paths raise; otherwise the sum covers the union, in separated form, and only the assigning form keeps the vector |
| `Segments.PlusCommutes` | iceberg/tea_scan.cpp:360-371 | the sum is commutative |
| `Segments.PlusAssociates` | iceberg/tea_scan.cpp:360-371 | the sum is associative |
| `Segments.PlusAbsorbs` | iceberg/tea_scan.cpp:360-371 | adding bytes already covered changes nothing; the sum is idempotent on separated parts |
| `Segments.SplitsUnite` | iceberg/tea_scan.cpp:815-823 | the segments of non-decreasing split offsets unite to one, from the first offset to the end |
| `SelectionVectors.SelectionVector.KeepIfEqual` | iceberg/common/selection_vector.h:15-36 | the merge keeps exactly the members, in order, and returns how many went |
| `SelectionVectors.SelectionVector.DeleteIfEqual` | iceberg/common/selection_vector.h:38-63 | the merge keeps exactly the non-members, in order, and returns how many went |
| `SelectionVectors.SelectionVector.Set` | iceberg/common/selection_vector.h:71-74 | all row numbers below the size, in order |
| `SelectionVectors.ChosenCounts` | iceberg/common/selection_vector.h:15-63 | kept elements keep their multiplicity, the others vanish |
| `SelectionVectors.ChosenSorted` | iceberg/common/selection_vector.h:15-63 | the vector stays sorted |
| `SelectionVectors.ChosenPartition` | iceberg/common/selection_vector.h:15-63 | what one merge keeps and the other keeps partition the vector |
| `Puffin.PuffinFileBuilder.AppendBlob` | iceberg/puffin.h:124-132 | the blob is appended |
| `Puffin.PuffinFileBuilder.Build` | iceberg/puffin.cpp:333-379 | incomplete builders raise; otherwise the loop lays out blobs and metadata and the file is parsed back |
| `Puffin.FooterFoundExactly` | iceberg/puffin.cpp:302-320 | the parsed footer is the written one exactly up to 0x7FFF_FFEF bytes |
| `Puffin.NegativeSizesExactly` | iceberg/puffin.cpp:302-320 | a negative footer size is accepted exactly if it is -12, or -8 with flags equal to the magic |
| `Puffin.NegativeSizeAccepted` | iceberg/puffin.cpp:302-320 | sixteen bytes without a footer that are taken for a file |
| `Puffin.BlobsTile` | iceberg/puffin.cpp:343-357 | blob ranges follow each other without gap or overlap from byte 4 to the second magic |
| `Puffin.MagicBehindBlobs` | iceberg/puffin.cpp:357-357 | the second magic stands right behind the last blob |
| `Puffin.BlobsRoundTrip` | iceberg/puffin.h:88-97 | with an invertible footer codec and a footer of at most 0x7FFF_FFEF bytes every blob is read back |
| `Puffin.MetadataRoundTrip` | iceberg/puffin.cpp:343-354 | the metadata read back are those of the blobs appended: type, fields, properties and length of each, with the builder's snapshot id and sequence number |
| `Puffin.FooterReadExactly` | iceberg/puffin.cpp:302-320 | in any file with a size that is not negative the footer found is exactly the one the file ends in, behind and before a magic, with uncompressed flags |
| `Puffin.BlobReadExactly` | iceberg/puffin.h:88-97 | a blob is read exactly when the file holds it where its metadata say, with at least one byte behind it |
| `Temporal.MonthFollowsMonth` | iceberg/tea_scan.cpp:170-178 | month starts are a calendar month apart, across year ends as well |
| `Temporal.YearsCounted` | iceberg/tea_scan.cpp:162-168 | the first day of a year is given by the closed form of the Gregorian calendar |
| `Temporal.MonthTable` | iceberg/tea_scan.cpp:170-178 | the first days of the months of common and leap years |
| `Temporal.DateBoundsExact` | iceberg/tea_scan.cpp:259-279 | within the library's years, the bounds of a date column are exactly the days whose transform lies between the partition values |
| `Temporal.TimestampBoundsExact` | iceberg/tea_scan.cpp:281-299 | within the library's years, the bounds of a timestamp column are exactly the instants whose transform lies between the partition values |
| `Temporal.TimestamptzBoundsExact` | iceberg/tea_scan.cpp:301-317 | for timestamps with time zone the bounds contain every instant with a local time, up to a day away, in the partition, and no other instant if the partition values are in order |
| `Temporal.DateStatsExactly` | iceberg/tea_scan.cpp:259-279 | a date column has no bounds exactly for the greatest partition value, and raises exactly for the hour transform and for years and months outside the accepted ones |
| `Temporal.TimestampStatsExactly` | iceberg/tea_scan.cpp:281-317 | a timestamp column, with time zone or without, has no bounds exactly for the greatest partition value, and raises exactly when a value is outside the accepted ones or a day cannot be turned into hours |
| `Temporal.OtherStats` | iceberg/tea_scan.cpp:331-350 | columns of other types have no bounds |
| `Temporal.DaysFit` | iceberg/tea_scan.cpp:162-178 | on every accepted input day numbers, and the day after the last, fit into 32 bits |
| `Temporal.HoursFit` | iceberg/tea_scan.cpp:189-195 | on every accepted input hours fit into 32 bits |
| `Temporal.MicrosFit` | iceberg/tea_scan.cpp:197-203 | on every accepted input microseconds fit into 64 bits, and 32-bit hours are always accepted |
| `Temporal.StatsFit` | iceberg/tea_scan.cpp:331-350 | the bounds handed to the filter fit their column type |

## Left out

- Avro, JSON, Parquet, Arrow, object stores and catalogs: manifests are sequences of entries, delete files are sequences of record batches, the Puffin footer codec is a parameter.
- `SerializePartitionTuple`: the partition key is an opaque string, empty for the unpartitioned tuple; how many specifications fit a tuple is a number carried by the entry.
- 64-bit wrap-around of `sequence_number - 1` and of segment ends: sequence numbers and offsets are unbounded integers.
- Logging and metrics, and the log messages attached to errors.
- `MakeFlatFilesList` and `AreScanMetadataEqual`: another view of plans, not used by the planner.
- `MemoryState`, the limited allocator and the exception-flag guards: tables are mathematical maps.
- Write-side transforms, positional-delete streams, deletion-vector bitmaps, the statistics filter.
- Entries.ScanAppliesPositions: assumes that no other live delete file has the path of this one, because the final plan keeps only the path.
- Separation.PlanPairsExactly: assumes that no delete has its bounds inverted; without that `Meaning.PlanIsSound` and `Meaning.PlanIsComplete` remain.
- Meaning.PlanIsExact: assumes distinct paths of positional delete files, because the final plan keeps only the path.
- Clauses.EffectiveIsRule: assumes distinct paths of positional delete files for the same reason, as do the statements on clauses built on it; for regrouped scans `Clauses.RegroupedAreDistinct` proves it.
- Resolve.ResolveDeletionVectors: the hash map of current vectors is a mathematical map, so the order in which one layer's vectors are visited is not modelled; it does not matter, paths being distinct there.
- GenericKey.ConstructKey: needs encodings below 2^32 bytes, the size of the buffer being a 32-bit number; boolean, decimal and fixed-size binary columns, for which the measured and the written width differ, are not modelled, and numbers are given by their bit images.
- PackedKey.NullsMask: setting a bit that is still clear is written as an addition.
- PackedKey.SpecializedDeleteMultipleColumn.Add: failure to allocate is not modelled.
- Handler.EqualityDeleteHandler.AppendDelete: holds its tables by value and in order of first use instead of by pointer and by id set; every field has one type in all files; after a failure nothing is promised about the tables, the scan being over.
- Handler.EqualityDeleteHandler.IsDeleted: the batch prepared before is a ghost parameter that ties the answer to it.
- Segments.UniteExact: lengths are not negative.
- SelectionVectors.SelectionVector.KeepIfEqual: indices and range are sorted, as the merge needs.
- SelectionVectors.SelectionVector.DeleteIfEqual: indices and range are sorted, as the merge needs.
- ThreadPool.ThreadPool.GetTask: one turn under the lock; waiting and waking are steps of the state machine beside the class, and tasks are opaque values that always finish.
- Concurrent.InterleavingsAgree: both scans read the same manifests, although the multi-threaded one is never given the statistics filter; reading a manifest is one step with the submission of its next entry, and a sequence number inherited from the manifest is already in the entry.
- Handler.NewGroup: takes columns of equal width in their given order, one of the orders the factory allows; the answers do not depend on it.
- EndToEnd.ScanDeletesRows: rows and data paths as for `RowDeletion.RowsDeletedExactly`, and delete files that are admissible and within the row limit.
- RowDeletion.RowsDeletedExactly: rows with non-null keys of supported types, keys below 2^16 bytes, and data paths distinct inside each partition key.
- RegroupRules.SharedExactly: assumes that the deletes that reference the file cover it; where one does not, its place in the plan depends on the buckets.
- Puffin.GetBlob: `offset + length` is a 64-bit sum in iceberg/puffin.h:92 and unbounded here, so a sum beyond 64 bits, whose behaviour C++ leaves undefined, is refused.
- Temporal.TimestamptzBoundsExact: like the other bounds, within the years of `std::chrono::year` (-32767 to 32767), beyond which the library's days are unspecified.
