# Verified model of kamu's metadata chain services

kamu keeps every dataset as an append-only chain of metadata blocks in the Open
Data Fabric format.  This project models the services that read and rewrite
those chains, in Dafny, and proves what they promise.

| modules | part of the system |
|---|---|
| `Odf`, `Offsets` | blocks, events, chain traversal, append validation, counting records by offsets |
| `CompactionModel`, `CompactionMeaning`, `CompactionLength`, `CompactionCommit`, `CompactionGroups`, `CompactionCheckpoints`, `CompactionHead`, `CompactionNumbers`, `CompactionExamples`, `Compaction` | compaction of data slices: a backward scan, a length test, a recommit |
| `TransformModel`, `TransformRuns`, `TransformCommit`, `TransformOnce`, `TransformEngine`, `TransformReplay`, `TransformVerify`, `TransformExamples`, `Transform` | derivative datasets: planning, committing, replaying, verifying, resetting |
| `WriterModel`, `WriterLaws`, `WriterEffects`, `WriterRuns`, `WriterExamples`, `WriterCompaction`, `Writer` | the data writer of root datasets and its cached state |
| `Changes` | the summary of changes in an interval of a chain |
| `PullModel`, `PullPlan`, `PullOrder`, `PullService`, `PullRemotes`, `PullBatches` | planning and carrying out pulls |
| `DependencyModel`, `DependencyGraph` | the in-memory dependency graph and its recursive queries |
| `Lineage` | the lineage walk and its DOT drawing |
| `TableSyntax`, `TableScopes`, `TablePositions`, `TableTrees`, `TableExtraction`, `TableRefs` | table references of SQL queries |
| `Graphs`, `Search`, `Renaming`, `Sorting`, `Wrappers` | reachability, searches, sorting, containers |

How the model is set up:

- A block hash is the history that it seals, so a chain is a sequence of blocks,
  `tail <= head` says that `tail` is an ancestor, and no two histories share a hash.
- A chain is `Valid` when each of its blocks was accepted by append validation,
  which is modelled check by check.  "Well-formed chain" always means that.
- A data file is its rows with an encoding and a size.  The logical hash of a
  slice is its rows, the physical hash the file.
- Code that updates things step by step is written as methods with loops and
  classes with fields, and proved against functions or stated properties; the
  theorems about runs are lemmas about those functions.

What the proofs brought to light, each with its exact condition:

- Compaction keeps the watermark at the head only if the newest slice is merged
  or carries it (`WatermarkKeptIff`).  The source state and the checkpoint can be lost
  in the same way, and a merged slice can also bring one back that had been dropped
  (`NotesKeptIff`, `ScanAfterCompaction`, `NotesLost`, `StateRevived`).
- Append validation lets queries onto chains of root kind, and compaction drops them
  (`CompactDataset`, `QueryDropped`).
- Compaction of a chain with checkpoints can be rejected half-way: a merged slice
  takes over the newest checkpoint that is set anywhere in its group, also one that
  a later slice had cleared, and a single slice keeps its own although an event
  without data above it, which is dropped, may hold the current one
  (`RecommitAcceptedIff` with `CheckpointsFit`, `CheckpointRejected`,
  `ClearedCheckpointRejected`); chains of the data writer carry none.
- On validated chains the missing flush at the seed loses nothing: data is only
  accepted after a schema.
- A dataset used as an input under two aliases is replayed under one of them
  (`PlanIsHistory`, `TwoAliasesReplayed`), and replay shows inputs with their present
  vocabulary and schema (`EngineViewReplayedIff`, `NewVocabularyReplayed`).
- A tail is accepted by verification only if a query is recorded at it or before
  it (`GetVerificationPlan`, `SeedRefusedAsTail`).
- The commit of a planned operation panics if it sets no schema and the query is
  skipped.  That happens if the engine returns neither data, checkpoint nor watermark,
  and also if it repeats the last watermark and checkpoint for inputs without new
  blocks, which are planned again as long as the output has no schema
  (`PlannedCommitPanicsIff`, `RunCommitOutcome`, `EmptyResponsePanics`,
  `RepeatedWatermarkPanics`).
- The number of records that an operation declares for an input is right unless
  the input's first offset is not zero (`DeclaredRecordsIff`, `TooManyDeclared`).
- The writer lists files in another order than a scan as soon as there are two
  (`FileOrderKeptIff`); its results agree with those of a scanning writer if
  merging does not depend on that order (`KeepingRefinesScanning`).
- A write whose only effect is to forget the source state of a chain without
  watermark is refused (`WriteSucceedsIff`, `ForgettingRefused`).
- Pull plans depend on the order of requests once a request names a remote
  (`RemoteHonouredIff`, `RemoteRequestedLast`, `RemoteRequestedFirst`).
- The initial scan of dependencies stops at the first entry that cannot be listed, and
  counts as done all the same (`InitialScan`, `ScanCompleteIff`).
- Table extraction loses a table that is referred to before a subquery defines
  an alias of the same name (`ExtractsPositionsIff`, `LaterAliasHidesTable`).

`dafny verify dfyconfig.toml` checks everything.

## Model

| member | source | states |
|---|---|---|
| `Odf.ValidIffAppended` | src/infra/core/src/repos/metadata_chain_impl.rs:198-287 | a chain grown by one block is valid exactly if the rest is valid and the append is accepted |
| `Odf.SeedIsFirst` | src/infra/core/src/repos/metadata_chain_validators.rs:38-55 | on a valid chain the seed is the first block and no other |
| `Odf.StreamLinked` | src/infra/core/src/repos/metadata_chain_validators.rs:196-290 | every data event continues the offsets of the one before it and does not lower its watermark |
| `Odf.WatermarkMonotone` | src/infra/core/src/repos/metadata_chain_validators.rs:147-192 | over any stretch of a valid chain the watermark never decreases and is never unset |
| `Odf.SchemaBeforeData` | src/infra/core/src/repos/metadata_chain_validators.rs:571-623 | data only comes after a schema |
| `Odf.OneSourceKind` | src/infra/core/src/repos/metadata_chain_validators.rs:340-441 | no valid chain holds both a polling and a push source |
| `Odf.DataEventsDiffer` | src/infra/core/src/repos/metadata_chain_validators.rs:521-623 | a data event without data has another checkpoint, watermark or source state than the one before it |
| `Odf.QueriesContinue` | src/infra/core/src/repos/metadata_chain_validators.rs:627-845 | a query continues the blocks, offsets and checkpoint of the query before it, on the same inputs unless the transform was defined anew |
| `Odf.Interval` | src/infra/core/src/repos/metadata_chain_impl.rs:74-97 | the blocks between two hashes exist exactly if the tail is an ancestor of the head, and join the tail to the head |
| `Odf.SchemaEquivalentMeans` | src/infra/ingest-datafusion/src/writer.rs:390-404 | schemas are equivalent exactly if they are equal up to nullability |
| `Offsets.RecordsByOffset` | src/domain/opendatafabric/src/dtos/dtos_extra.rs:277-281 | the records of a valid chain are counted by its last offset and the offset it starts from |
| `Offsets.OffsetsPersist` | src/domain/opendatafabric/src/dtos/dtos_extra.rs:20-87 | once a chain has an offset it keeps having one, and its first offset never changes |
| `CompactionMeaning.MergeRestoresOrder` | src/infra/core/src/compaction_service_impl.rs:264-306 | merging adjacent slices, read newest first and sorted by offset, gives their rows in chain order with consecutive offsets |
| `CompactionMeaning.ScanOk` | src/infra/core/src/compaction_service_impl.rs:157-262 | at every point of the scan a merged batch is made of adjacent slices with its bounds, and a closed batch of one block names a metadata event or a slice (which one is stated by ScanNamesAlone) |
| `CompactionMeaning.ScanWithinLimits` | src/infra/core/src/compaction_service_impl.rs:164-187 | every batch of two or more slices stays within both limits, although the counters are stale after a metadata event |
| `CompactionMeaning.ScanKeepsMeaning` | src/infra/core/src/compaction_service_impl.rs:121-242 | at every point of the scan the closed batches and the pending slices hold the records and the other events of the blocks seen, in order |
| `CompactionMeaning.NothingPendingBelowSchema` | src/infra/core/src/compaction_service_impl.rs:211-234 | below the first schema no slice is pending, so that nothing is lost by not flushing at the seed |
| `CompactionMeaning.CompactionPreservesMeaning` | src/infra/core/src/compaction_service_impl.rs:121-395 | the events of the batches hold the same records in the same order, the same other events in the same order, and the same records before each of them |
| `CompactionLength.NeverLonger` | src/infra/core/src/compaction_service_impl.rs:398-422 | the batches and the seed never outnumber the blocks of any valid chain, and are fewer if it holds a query |
| `CompactionLength.LengthTestExact` | src/infra/core/src/compaction_service_impl.rs:398-422 | the batches and the seed never outnumber the blocks, and are equally many exactly when recommitting would reproduce the same events |
| `CompactionLength.GroupStable` | src/infra/core/src/compaction_service_impl.rs:164-187 | grouping the groups again, with summed sizes, changes nothing and leaves the same counters |
| `CompactionLength.ScanSimulated` | src/infra/core/src/compaction_service_impl.rs:157-230 | the decisions of the scan depend on sizes and record counts alone |
| `CompactionLength.SecondScanFindsNothing` | src/infra/core/src/compaction_service_impl.rs:121-242 | a scan of a compacted chain with the same limits finds nothing to merge |
| `CompactionCommit.ScanChained` | src/infra/core/src/compaction_service_impl.rs:316-395 | the events of the batches join without gaps in offsets and without lowering a watermark |
| `CompactionCommit.RecommitLinkedIff` | src/infra/core/src/compaction_service_impl.rs:316-395 | recommitting can be rejected for two reasons only, a checkpoint that no longer links and a clock that goes back between commits |
| `CompactionCheckpoints.ScanTracked` | src/infra/core/src/compaction_service_impl.rs:157-262 | at every point of the scan the counters, the pending slices and what they note are those of a group read off the chain and the limits, the closed batches link exactly if the groups of the chain do, and the newest of them shows the group of the newest slice |
| `CompactionCheckpoints.ScanNamesAlone` | src/infra/core/src/compaction_service_impl.rs:157-262 | a closed batch of one block names a metadata event, or a slice that is alone in its group |
| `CompactionCheckpoints.RecommitAcceptedIff` | src/infra/core/src/compaction_service_impl.rs:316-395 | append validation accepts all recommitted events exactly if, in the original chain, the oldest slice of every group continues the checkpoint that the group below is committed with, and the clock does not go back |
| `CompactionCommit.RecommitAccepted` | src/infra/core/src/compaction_service_impl.rs:316-395 | recommitting a chain without checkpoints is rejected only if the clock goes back |
| `CompactionHead.NewestBatchShown` | src/infra/core/src/compaction_service_impl.rs:198-262 | which offset, source state, watermark and checkpoint the newest recommitted data event carries |
| `CompactionHead.HeadAfter` | src/infra/core/src/compaction_service_impl.rs:316-395 | these are what the compacted chain shows at its head |
| `CompactionHead.NotesKeptIff` | src/infra/core/src/compaction_service_impl.rs:198-262 | source state, checkpoint and watermark at the head are kept, each exactly under a condition on the chain and the limits |
| `CompactionHead.WatermarkKeptIff` | src/infra/core/src/compaction_service_impl.rs:198-262 | the watermark at the head is kept exactly if the newest slice is merged or carries it, or there is neither data nor watermark |
| `CompactionHead.OffsetKeptIff` | src/infra/core/src/compaction_service_impl.rs:198-262 | the last offset is kept exactly if there is data, or none was claimed |
| `CompactionHead.MetadataKept` | src/infra/core/src/compaction_service_impl.rs:211-230 | chains that mean the same have the same newest event of every other kind, such as schema and vocabulary |
| `CompactionNumbers.ScanCount` | src/infra/core/src/compaction_service_impl.rs:121-242 | at every point of the scan there is one batch for every metadata event and for every group of slices |
| `CompactionNumbers.NothingToMergeIff` | src/infra/core/src/compaction_service_impl.rs:411-422 | there are as many batches as blocks exactly if no event is empty and no two neighbouring slices fit the limits, counted from the head |
| `CompactionNumbers.ScanWithin` | src/infra/core/src/compaction_service_impl.rs:164-187 | every slice that is committed is an old one, or within both limits |
| `CompactionExamples.NotesLost` | src/infra/core/src/compaction_service_impl.rs:198-209 | valid chains of four blocks whose watermark and source state every compaction loses |
| `CompactionExamples.StateRevived` | src/infra/core/src/compaction_service_impl.rs:198-209 | a valid chain on which compaction brings back a source state that was dropped |
| `CompactionExamples.QueryDropped` | src/infra/core/src/compaction_service_impl.rs:211-234 | a valid chain of root kind whose query every compaction drops |
| `CompactionExamples.CheckpointRejected` | src/infra/core/src/compaction_service_impl.rs:337-391 | a valid chain of four blocks whose compaction is always rejected |
| `CompactionExamples.ClearedCheckpointRejected` | src/infra/core/src/compaction_service_impl.rs:244-262 | a valid chain in which every data event has data, whose compaction is rejected because a merged slice takes over a cleared checkpoint |
| `Compaction.AppendBatch` | src/infra/core/src/compaction_service_impl.rs:244-262 | closing a pending batch adds a batch exactly if a slice is pending |
| `Compaction.AddSlice` | src/infra/core/src/compaction_service_impl.rs:157-196 | the running variables after one slice are the state of the scan after it |
| `Compaction.GatherChainInfo` | src/infra/core/src/compaction_service_impl.rs:121-242 | the loop computes the scan whose meaning, limits and length the lemmas establish, the seed, and the number of blocks |
| `Compaction.CommitNewBlocks` | src/infra/core/src/compaction_service_impl.rs:316-395 | the batches are committed oldest first on top of the seed, each with its own reading of the clock, through full validation, up to the first rejection |
| `Compaction.MetadataEventsParts` | src/infra/core/src/compaction_service_impl.rs:211-234 | keeping the metadata drops the seed, data and queries wherever they stand, and nothing else, in order |
| `Compaction.MetadataOnlyRecommit` | src/infra/core/src/compaction_service_impl.rs:141-230 | keeping the metadata only leaves the seed and the other events in order and is rejected exactly if the clock goes back |
| `Compaction.MetadataOnlyLength` | src/infra/core/src/compaction_service_impl.rs:411-422 | in that mode nothing is to do exactly if the chain holds neither data nor queries |
| `Compaction.RebuiltChain` | src/infra/core/src/compaction_service_impl.rs:398-459 | a compacted chain is valid, intact, means the same, and compacts to itself |
| `Compaction.QueriesDropped` | src/infra/core/src/compaction_service_impl.rs:121-242 | a rewritten chain holds no query, and means the same only if there was none |
| `Compaction.CompactDataset` | src/infra/core/src/compaction_service_impl.rs:398-517 | for every valid chain with intact slices: who is refused, that the seed and on failure the whole chain stay, that success shortens a chain which is valid and means the same exactly if it held no query; without queries also, in the numbers that the caller gives or the defaults, exactly when there is nothing to do, how many blocks are left and how large merged slices get, that no second compaction is needed, what the chain shows at its head, and that compaction is rejected half-way exactly if CheckpointsFit fails on the chain or the clock goes back |
| `TransformModel.InputFromQuery` | src/infra/core/src/transform_service_impl.rs:356-446 | an input is built exactly if its dataset, schema and block interval exist, and then lists the slices and watermarks of that interval |
| `TransformModel.InputObtained` | src/infra/core/src/transform_service_impl.rs:251-268 | each planned input is the one computed for its declaration and its own previous state |
| `TransformModel.AliasIsLast` | src/infra/core/src/transform_service_impl.rs:599-608 | of several declarations of a dataset the alias of the last one counts |
| `TransformModel.StepsRebuild` | src/infra/core/src/transform_service_impl.rs:590-657 | the plan exists if every step can be rebuilt, and is then step by step what was rebuilt |
| `TransformRuns.InvHolds` | src/infra/core/src/transform_service_impl.rs:113-354 | over every run of input appends and transforms the chain records each operation of the run in order, each continuing every input where the one before stopped |
| `TransformCommit.PlanningSucceedsIff` | src/infra/core/src/transform_service_impl.rs:196-295 | over every run planning succeeds exactly if every declared input exists and has a schema, so no input diverges, and on an output without a schema an operation is always planned |
| `TransformCommit.QueryVerdict` | src/infra/core/src/repos/metadata_chain_validators.rs:627-845 | the verdict of append validation on a planned query, check by check, also after its schema was committed |
| `TransformCommit.NoRepeatWithSchema` | src/infra/core/src/transform_service_impl.rs:267-280 | on an output with a schema only operations with new blocks are planned |
| `TransformCommit.PlannedCommitPanicsIff` | src/infra/core/src/transform_service_impl.rs:113-193 | the commit of any planned operation panics exactly if it sets no schema, none is incompatible, and the response is empty or repeats the last query without new blocks |
| `TransformCommit.RunCommitOutcome` | src/infra/core/src/transform_service_impl.rs:113-193 | in every reachable state: when an operation is recorded, when it panics, and when only its schema is committed, each exactly; the checks on the sequence of inputs refuse nothing that was planned |
| `TransformOnce.ExactlyOnce` | src/infra/core/src/transform_service_impl.rs:251-354 | over every run the block ranges of the operations tile a prefix of each input, and the slices that the engine is shown are those of that prefix, once and in order |
| `TransformEngine.PlannedShows` | src/infra/core/src/engine/engine_io_strategy.rs:122-185 | what a planned operation shows the engine, from the chains: of each input one file for each new slice and one watermark for each new block that carries one, the offsets after the last processed one, schema and vocabulary; and the next offset and the checkpoint of the output |
| `TransformEngine.PlannedIff` | src/infra/core/src/transform_service_impl.rs:267-280 | an operation is planned exactly if the output has no schema or some input holds a new slice or watermark |
| `TransformEngine.EngineSees` | src/infra/core/src/transform_service_impl.rs:113-354 | over every run each recorded operation showed the engine exactly the part of each input between what was processed before and after it, and recorded that part and the answer field by field |
| `TransformOnce.NothingLeftBehind` | src/infra/core/src/transform_service_impl.rs:297-354 | a recorded operation covers every input up to its head |
| `TransformOnce.DeclaredRecordsIff` | src/infra/core/src/transform_service_impl.rs:313-339 | new offset minus previous offset counts the records of the listed slices exactly if the input starts at offset zero or was seen before |
| `TransformExamples.TooManyDeclared` | src/infra/core/src/transform_service_impl.rs:313-339 | a run that declares six records for an input of one |
| `TransformExamples.OnceRecorded` | src/infra/core/src/transform_service_impl.rs:113-193 | for any inputs with a schema, a run that records one operation, and the chain it leaves |
| `TransformExamples.EmptyResponsePanics` | src/infra/core/src/transform_service_impl.rs:168-191 | a planned operation whose commit panics because nothing is returned |
| `TransformExamples.SchemaAloneIsCommitted` | src/infra/core/src/transform_service_impl.rs:130-191 | an empty response whose commit does not panic, because it sets a schema |
| `TransformExamples.RepeatedWatermarkPanics` | src/infra/core/src/transform_service_impl.rs:168-191 | a reachable state in which the commit panics although a watermark is returned |
| `TransformReplay.PlanIsHistory` | src/infra/core/src/transform_service_impl.rs:472-657 | in every reachable state the plan has one step per recorded query, in order, equal to the operation of the run in blocks, slices, watermarks, offsets and checkpoints, and equal in aliases too exactly if no dataset is an input under two aliases |
| `TransformReplay.EngineViewReplayedIff` | src/infra/core/src/transform_service_impl.rs:356-446 | a replayed step sends the engine the same request exactly if aliases resolve and each input still shows its vocabulary and schema |
| `TransformReplay.ViewsHold` | src/infra/core/src/transform_service_impl.rs:356-446 | over runs that change no vocabulary or schema which an operation has seen, every input still shows what was seen of it |
| `TransformExamples.TwoAliasesReplayed` | src/infra/core/src/transform_service_impl.rs:472-657 | a run with one dataset under two aliases whose replayed operation is another one |
| `TransformExamples.NewVocabularyReplayed` | src/infra/core/src/transform_service_impl.rs:356-446 | a run with a changed vocabulary whose replayed request is another one |
| `TransformReplay.ReproducesMeans` | src/infra/core/src/transform_service_impl.rs:868-923 | what is compared: inputs, offsets, watermark and rows, but not physical hash, size and checkpoint |
| `TransformReplay.EveryRunVerifies` | src/infra/core/src/transform_service_impl.rs:829-937 | every chain that runs of a deterministic engine produced is reproduced step by step, if the inputs show the vocabularies and schemas that operations have seen |
| `Transform.CollectBlocks` | src/infra/core/src/transform_service_impl.rs:400-430 | slices and watermarks of an interval are collected in chain order |
| `Transform.CollectInput` | src/infra/core/src/transform_service_impl.rs:356-446 | the collected input is the one whose consistency with its interval is stated by InputFromQuery |
| `Transform.CommitExecuteTransform` | src/infra/core/src/transform_service_impl.rs:113-193 | schema first and once, then the query, a query without content skipped, and the head after every outcome |
| `TransformVerify.QueriesFromExact` | src/infra/core/src/transform_service_impl.rs:501-547 | these are exactly the queries at or after the tail, in ascending order |
| `TransformVerify.CollectQueries` | src/infra/core/src/transform_service_impl.rs:501-547 | the backward walk collects the queries at or after the tail, oldest first, and says whether the tail was reached |
| `TransformVerify.RebuildPlan` | src/infra/core/src/transform_service_impl.rs:590-657 | the steps are rebuilt in order and the first failure is reported |
| `TransformVerify.GetVerificationPlan` | src/infra/core/src/transform_service_impl.rs:472-657 | the plan from an inclusive tail to the head expects exactly the queries recorded there, in order, or which error, with a tail refused exactly if no query is at it or before it, and no plan if a declared input is missing |
| `TransformVerify.PlanFromTail` | src/infra/core/src/transform_service_impl.rs:501-657 | from an accepted tail on the plan is the later part of the whole plan |
| `TransformVerify.TailPlanIsHistory` | src/infra/core/src/transform_service_impl.rs:472-657 | in every reachable state that plan has one step for each operation recorded at the tail or later, in order, equal to the operation of the run if no dataset has two aliases |
| `TransformExamples.SeedRefusedAsTail` | src/infra/core/src/transform_service_impl.rs:501-547 | a chain with a query whose seed is refused as a tail |
| `TransformVerify.ReplayPlan` | src/infra/core/src/transform_service_impl.rs:829-937 | replay succeeds exactly if every step is reproduced, and otherwise names the first that is not |
| `TransformVerify.VerifyTransform` | src/infra/core/src/transform_service_impl.rs:807-941 | verification succeeds exactly if the plan exists and every recorded query is reproduced |
| `TransformVerify.RunsVerify` | src/infra/core/src/transform_service_impl.rs:807-941 | every output of transform runs of a deterministic engine passes verification from every accepted tail, if the inputs show what operations have seen |
| `Transform.NoQueryNoDivergence` | src/infra/core/src/transform_service_impl.rs:251-295 | without a recorded query every input starts from its beginning and none can diverge |
| `Transform.ResetDropsQueries` | src/infra/core/src/transform_service_impl.rs:707-741 | after the metadata-only compaction no query is left |
| `Transform.ResetDataset` | src/infra/core/src/transform_service_impl.rs:707-741 | the reset after a divergence always succeeds while the clock does not go back, keeps the other events, and the next operation cannot diverge |
| `Transform.TransformDataset` | src/infra/core/src/transform_service_impl.rs:661-744 | the chain afterwards is that of one transform step of a run, on the dataset or on what a reset left of it; which result or error is reported for that step, with the answer of an engine that was shown what the chains hold; a diverged input is reported exactly without the reset option, and the recursion is at most two deep |
| `WriterLaws.AssignedInterval` | src/infra/ingest-datafusion/src/writer.rs:482-543 | the interval read back from the file is the one that the row numbers were assigned from |
| `WriterLaws.NewestEventTime` | src/infra/ingest-datafusion/src/writer.rs:505-566 | the event time for the watermark bounds all rows and belongs to one of them |
| `WriterLaws.StageFits` | src/infra/ingest-datafusion/src/writer.rs:627-751 | whatever is staged continues the offsets and checkpoints of the state, advances something, and sets a schema only if there was none |
| `WriterLaws.CoherentAfterData` | src/infra/ingest-datafusion/src/writer.rs:799-828 | updating the cached state after a commit amounts to scanning the grown chain |
| `WriterLaws.OffsetsTile` | src/infra/ingest-datafusion/src/writer.rs:323-359 | the records of a chain carry consecutive offsets without gap or overlap, and their number gives the next offset |
| `WriterLaws.DataAcceptedIff` | src/infra/ingest-datafusion/src/writer.rs:782-797 | append validation accepts a staged AddData exactly if the clock and the watermark do not go back and the event carries something |
| `WriterLaws.CommitAppends` | src/infra/ingest-datafusion/src/writer.rs:754-837 | which blocks a commit appends in every outcome, also if only the schema is accepted, and that the cached state is then that of a scan |
| `WriterLaws.StaleCommitRefused` | src/infra/core/src/repos/metadata_chain_impl.rs:240-260 | a writer whose dataset has moved on commits nothing and keeps its state |
| `WriterLaws.WriteSucceedsIff` | src/infra/ingest-datafusion/src/writer.rs:627-837 | a staged write is refused exactly if the clock goes back, an explicit watermark is lower than the one reached, or its only effect is to forget the source state of a chain without watermark |
| `WriterExamples.ForgettingRefused` | src/infra/ingest-datafusion/src/writer.rs:627-837 | a chain on which dropping the source state is staged and then refused |
| `WriterLaws.WatermarkSucceedsIff` | src/infra/ingest-datafusion/src/writer.rs:595-624 | a watermark is written exactly if it or the source state changes, it is not lower, and the clock does not go back |
| `WriterLaws.WriteAddsRows` | src/infra/ingest-datafusion/src/writer.rs:639-720 | a successful write adds exactly the merged rows, numbered from where the chain stopped, with missing event times filled in |
| `WriterLaws.FileOrderKeptIff` | src/infra/ingest-datafusion/src/writer.rs:811-814 | the cached list of files has the order of a scan exactly if there was no file before |
| `WriterEffects.StagedIff` | src/infra/ingest-datafusion/src/writer.rs:639-751 | a write is staged exactly if the merge succeeds with a schema that fits, and there are rows or a new schema, watermark or source state |
| `WriterEffects.WriteEffect` | src/infra/ingest-datafusion/src/writer.rs:566-751 | after a successful write: the merged rows with their offsets and event times, the schema if there was none, the given source state, and the watermark: the explicit one, or else the least that the old one and all new event times allow |
| `WriterEffects.WatermarkEffect` | src/infra/ingest-datafusion/src/writer.rs:595-624 | after a successful write of a watermark: that watermark, the given source state, and the same rows and schema |
| `WriterEffects.MergeReadsChain` | src/infra/ingest-datafusion/src/writer.rs:639-700 | the merge reads the records of the chain in chain order after a scan |
| `WriterRuns.EveryRun` | src/infra/ingest-datafusion/src/writer.rs:627-837 | over any run of any number of writers no block is lost, records are numbered without gap or overlap, the watermark does not decrease, at most one schema is committed, and every cached state is that of a scan |
| `WriterRuns.KeepingRefinesScanning` | src/infra/ingest-datafusion/src/writer.rs:883-983 | writers that keep their state produce the same chains as writers that scan before every operation |
| `WriterCompaction.ScanAfterCompaction` | src/infra/ingest-datafusion/src/writer.rs:883-983 | what a writer scans after compaction: the same schema, vocabulary and records, and the same offset, source state, watermark and checkpoint exactly under conditions on the chain and the limits |
| `Writer.Dataset.Commit` | src/infra/core/src/repos/dataset_impl.rs:409-475 | a block is appended exactly if it is accepted and the head is still the expected one |
| `Writer.DataWriter.constructor` | src/infra/ingest-datafusion/src/writer.rs:883-983 | a new writer holds the state of a scan |
| `Writer.DataWriter.Commit` | src/infra/ingest-datafusion/src/writer.rs:754-837 | the new state, head and reported result in every outcome, and that the writer stays coherent |
| `Writer.DataWriter.Write` | src/infra/ingest-datafusion/src/writer.rs:584-592 | exactly when a write succeeds, what the chain then shows (WriteEffect), and that the writer stays coherent |
| `Writer.DataWriter.WriteWatermark` | src/infra/ingest-datafusion/src/writer.rs:595-624 | the outcome of writing a watermark, the watermark and source state that the chain then shows, and that the writer stays coherent |
| `Changes.MakeIncrement` | src/infra/core/src/dataset_changes_service_impl.rs:74-186 | the one-pass summary fails exactly if the old head is no ancestor, counts the blocks and records, and reports an updated watermark exactly if the watermarks at the two ends differ |
| `Changes.IncrementsAdd` | src/infra/core/src/dataset_changes_service_impl.rs:74-186 | summaries add up over adjacent intervals, and an update shows in the whole exactly if it shows in a part |
| `Changes.RecordsAreOffsetDifference` | src/infra/core/src/dataset_changes_service_impl.rs:93-110 | the records of an interval are the difference of the last offsets at its ends |
| `PullModel.Resolve` | src/infra/core/src/pull_service_impl.rs:100-160 | a resolved request names an existing dataset and its alias, or a new name with a remote to pull from |
| `PullModel.ResolveCases` | src/infra/core/src/pull_service_impl.rs:100-160 | which dataset a request finds by id, name or remote, and which name a new one gets, or which error |
| `PullPlan.CollectDependency` | src/infra/core/src/pull_service_impl.rs:201-228 | one dependency is planned with everything below it that was not visited before, the running maximum is that of the depths so far, and failure means that the descent met a bad dataset |
| `PullPlan.CollectDependencies` | src/infra/core/src/pull_service_impl.rs:201-228 | after the descent every dependency is planned, the maximum of their depths is known, new are only datasets reached without passing through visited ones, and failure means that a descent met a bad dataset |
| `PullPlan.CollectNew` | src/infra/core/src/pull_service_impl.rs:172-246 | a new target gets depth 0 if synced and otherwise one more than its deepest dependency, and nothing else changes |
| `PullPlan.Collect` | src/infra/core/src/pull_service_impl.rs:94-246 | the descent ends on every acyclic graph and keeps the plan consistent, also when a request fails or was visited before |
| `PullOrder.DependencyShallower` | src/infra/core/src/pull_service_impl.rs:201-235 | every dependency of a planned item is planned and strictly shallower |
| `PullOrder.DepthIsLongestWalk` | src/infra/core/src/pull_service_impl.rs:185-235 | the depth of an item is the length of the longest chain of dependencies below it |
| `PullOrder.DepthInRepository` | src/infra/core/src/pull_service_impl.rs:185-235 | if no request names a remote, that is the longest path in the repository, with synced datasets as roots |
| `PullOrder.TextLeMeans` | src/infra/core/src/pull_service_impl.rs:745-750 | names are ordered by their first difference |
| `PullOrder.PlanOrdered` | src/infra/core/src/pull_service_impl.rs:729-751 | in a plan shallower items come first, then synced ones, then the smaller names |
| `PullOrder.ItemLeTotal` | src/infra/core/src/pull_service_impl.rs:729-751 | the comparison of items is a total order |
| `PullOrder.SortedValues` | src/infra/core/src/pull_service_impl.rs:87-91 | the plan lists exactly the visited items, sorted, each name once |
| `PullService.CollectPullGraph` | src/infra/core/src/pull_service_impl.rs:64-91 | the plan is consistent, every request that did not fail is noted on its item and on no other, and, if none names a remote, exactly the requests that lead to a missing or ambiguous dataset fail, in order |
| `PullService.PlanHoldsNeeded` | src/infra/core/src/pull_service_impl.rs:64-91 | without failures everything that the requests need is planned |
| `PullService.SameItemsInAnyOrder` | src/infra/core/src/pull_service_impl.rs:64-91 | the same requests in any order give the same items, depths and sources, and the same explicit ones |
| `PullService.SamePlan` | src/infra/core/src/pull_service_impl.rs:87-91 | and the same plan, up to which of several equivalent requests is remembered |
| `PullRemotes.FirstVisitDecides` | src/infra/core/src/pull_service_impl.rs:169-196 | in the plan an item has the source that the first request to visit it gives: the named remote if the request leads there, otherwise the registered one |
| `PullRemotes.LocalVisits` | src/infra/core/src/pull_service_impl.rs:94-246 | a request without a remote fails exactly if its descent, cut at the names visited before, meets a bad dataset, and otherwise visits exactly what that descent meets |
| `PullRemotes.TraceVisits` | src/infra/core/src/pull_service_impl.rs:64-91 | in a list without failures the names visited after each request are a function of the repository and the list |
| `PullRemotes.SuccessfulRun` | src/infra/core/src/pull_service_impl.rs:64-91 | a run without errors is one on a list without failures in that sense |
| `PullRemotes.RemoteHonouredIff` | src/infra/core/src/pull_service_impl.rs:169-196 | in every list without failures, requests with and without remotes mixed, a dataset is pulled from the remote that a request names exactly if the first request that visits it gives it that source |
| `PullRemotes.RemotesInFront` | src/infra/core/src/pull_service_impl.rs:169-196 | with only requests for remotes in front, failing or not, a dataset is pulled from the remote that a request names exactly if the first request for that dataset names the same |
| `PullRemotes.FirstRemoteHonouredIff` | src/infra/core/src/pull_service_impl.rs:169-196 | the first request in a list that names a remote is honoured exactly if no earlier request needs its dataset, or the remote is the registered one |
| `PullRemotes.UntouchedRemoteHonoured` | src/infra/core/src/pull_service_impl.rs:169-196 | in every list, failing requests or not, a remote is used if no earlier request leads to its dataset or needs it |
| `PullRemotes.RemoteRequestedLast` | src/infra/core/src/pull_service_impl.rs:169-176 | two requests for which the named remote is ignored |
| `PullRemotes.RemoteRequestedFirst` | src/infra/core/src/pull_service_impl.rs:169-196 | the same two in the other order, for which it is used |
| `PullBatches.Slice` | src/infra/core/src/pull_service_impl.rs:336-350 | a batch and the rest join to the plan, the batch is on one level, and it is the longest such batch |
| `PullBatches.RunBatches` | src/infra/core/src/pull_service_impl.rs:561-605 | the batches that run are leading parts of the plan, each with all neighbours on its level, all but the last without failures, and the whole plan unless the last one failed; there is one response for each item, with what the service for its level made of it |
| `PullBatches.OneBatchPerLevel` | src/infra/core/src/pull_service_impl.rs:336-350 | items on the same level run in one batch |
| `PullBatches.RunAnswered` | src/infra/core/src/pull_service_impl.rs:561-605 | response by response: for which item, from which service, and that the run stops exactly with the first batch in which a response holds a failure |
| `PullBatches.BatchIndependent` | src/infra/core/src/pull_service_impl.rs:60-63 | no two items of a batch depend on each other |
| `PullBatches.DependenciesRanBefore` | src/infra/core/src/pull_service_impl.rs:561-605 | when dependencies are pulled too, each has run in an earlier batch without failures |
| `PullBatches.ServiceMatches` | src/infra/core/src/pull_service_impl.rs:568-598 | items with a remote are synced, items with dependencies transformed, the rest ingested |
| `PullBatches.RetainedItems` | src/infra/core/src/pull_service_impl.rs:554-557 | a pull that is not recursive keeps exactly the requested items, in order |
| `PullBatches.PullMulti` | src/infra/core/src/pull_service_impl.rs:515-608 | with a failed request nothing runs; otherwise the chosen part of the plan does, with the responses of RunAnswered, and one request without recursion gets one response |
| `PullBatches.PullOne` | src/infra/core/src/pull_service_impl.rs:468-498 | the assertion of exactly one response holds, a local request is refused exactly if it leads to a missing or ambiguous dataset, and otherwise the result is that of the right service for the requested dataset and remote |
| `Search.DfsVisit` | src/infra/core/src/dependency_graph_service_inmem.rs:239-251 | everything newly discovered is finished, reached from the start, and, without cycles, listed after its successors |
| `Search.DepthFirst` | src/infra/core/src/dependency_graph_service_inmem.rs:230-254 | exactly the reachable nodes, each once, successors first if there is no cycle |
| `Search.BreadthFirst` | src/infra/core/src/dependency_graph_service_inmem.rs:209-224 | exactly the reachable nodes, each once, nearest first |
| `Search.ReversedBreadthFirst` | src/infra/core/src/dependency_graph_service_inmem.rs:195-228 | one segment per start with what no earlier start reached, farthest first |
| `DependencyGraph.State.GetOrCreateNode` | src/infra/core/src/dependency_graph_service_inmem.rs:56-66 | the dataset has a node afterwards, its own, and nothing else changes |
| `DependencyGraph.State.AddDependency` | src/infra/core/src/dependency_graph_service_inmem.rs:143-157 | exactly one dependency is added, without parallel edges |
| `DependencyGraph.State.RemoveDependency` | src/infra/core/src/dependency_graph_service_inmem.rs:160-178 | exactly that dependency is gone |
| `DependencyGraph.State.UpdateDependencies` | src/infra/core/src/dependency_graph_service_inmem.rs:406-431 | the loops over obsolete and added ids give the dataset exactly the new upstream |
| `DependencyGraph.UpdatedUpstream` | src/infra/core/src/dependency_graph_service_inmem.rs:406-431 | the upstream of every other dataset is unchanged |
| `DependencyModel.ConsumedChanges` | src/infra/core/src/dependency_graph_service_inmem.rs:387-435 | which ids and dependencies each kind of message adds and removes, with all others as before, and which messages are refused |
| `DependencyGraph.HistoryCoherent` | src/infra/core/src/dependency_graph_service_inmem.rs:387-435 | after every history of messages each dependency joins two known datasets |
| `DependencyGraph.State.Consume` | src/infra/core/src/dependency_graph_service_inmem.rs:387-435 | each message does to the indexed graph what it means for the plain one, and messages about unknown datasets change nothing |
| `DependencyGraph.State.ConsumeAll` | src/infra/core/src/dependency_graph_service_inmem.rs:387-435 | over every history of messages the indexed graph agrees with the plain one, its table being a bijection |
| `DependencyGraph.ScanCompleteIff` | src/infra/core/src/dependency_graph_service_inmem.rs:114-131 | everything listed is scanned exactly if no entry of the listing failed |
| `DependencyGraph.State.InitialScan` | src/infra/core/src/dependency_graph_service_inmem.rs:89-140 | the scan adds exactly the datasets and dependencies listed before the first failure, the first time only, and counts as done also when cut short |
| `DependencyGraph.State.RecursiveDownstream` | src/infra/core/src/dependency_graph_service_inmem.rs:230-254 | fails exactly if a dataset is unknown, and otherwise lists exactly the datasets that depend on the given ones, each once, before what they depend on if there is no cycle |
| `DependencyGraph.State.RecursiveUpstream` | src/infra/core/src/dependency_graph_service_inmem.rs:195-228 | fails exactly if a dataset is unknown, and otherwise lists exactly what the given ones depend on, each once, segment by segment, farthest first |
| `DependencyModel.GraphsAgree` | src/infra/core/src/dependency_graph_service_inmem.rs:36-66 | the indexed graph and the graph of ids are the same up to the numbering |
| `Lineage.DotVisitor.Enter` | src/infra/core/src/provenance_service_impl.rs:155-188 | a dataset is drawn exactly if it was not visited before: its node in the style of its kind, then one arrow from each dependency in order |
| `Lineage.DrawingLines` | src/infra/core/src/provenance_service_impl.rs:155-188 | the lines of a drawing are exactly the nodes of the datasets in their styles and the arrows from their dependencies |
| `Lineage.Visit` | src/infra/core/src/provenance_service_impl.rs:41-96 | the walk ends on every finite graph, explores everything below, and fails only because of a dependency that cannot be resolved |
| `Lineage.GetDatasetLineage` | src/infra/core/src/provenance_service_impl.rs:104-112 | succeeds exactly if everything upstream can be resolved, and then has drawn exactly that, each dataset once with each of its dependencies |
| `TablePositions.ListedIff` | src/infra/core/src/query_service_impl.rs:480-542 | the listing of a syntax tree holds exactly the paths that end at a table |
| `TablePositions.ListedInOrder` | src/infra/core/src/query_service_impl.rs:480-542 | and lists them in the order of the text |
| `TableTrees.AliasesDefined` | src/infra/core/src/query_service_impl.rs:490-498 | the aliases of a tree of scopes are those that a query at some path defines |
| `TableExtraction.KeptByPosition` | src/infra/core/src/query_service_impl.rs:480-542 | what extraction keeps is, path by path, what has no alias of its name defined around it or after it |
| `TableExtraction.FreeByPosition` | src/infra/core/src/query_service_impl.rs:480-542 | the free references of a tree of scopes are those that the path to them does not bind |
| `TableExtraction.ExtractsPositionsIff` | src/infra/core/src/query_service_impl.rs:467-542 | extraction gives the names at exactly the unbound paths, in the order of the text, if and only if none of them has an alias of its name defined around it or after it |
| `TableScopes.ExtractOneKeeps` | src/infra/core/src/query_service_impl.rs:480-500 | a reference survives the later removals exactly if no enclosing and no later scope has an alias of its name |
| `TableScopes.ExtractsFreeIff` | src/infra/core/src/query_service_impl.rs:480-542 | extraction gives exactly the references that no WITH clause binds, in order and number, if and only if every reference removed later is bound where it stands |
| `TableScopes.NoClashExtractsFree` | src/infra/core/src/query_service_impl.rs:480-542 | in particular if no alias is also the name of a table, for any nesting and shadowing |
| `TableRefs.TableList.RemoveAlias` | src/infra/core/src/query_service_impl.rs:493-497 | all one-part references to an alias leave the shared list, and no others |
| `TableRefs.ExtractQuery` | src/infra/core/src/query_service_impl.rs:480-500 | the recursion over the syntax tree with one shared list is extraction from the tree of scopes: its aliases leave the list, and the names at its paths are added unless removed |
| `TableRefs.ExtractSetExpr` | src/infra/core/src/query_service_impl.rs:502-526 | the same for selects, subqueries and both sides of set operations |
| `TableRefs.ExtractTableRefs` | src/infra/core/src/query_service_impl.rs:467-478 | the names at which paths of the syntax tree are returned, in the order of the text, and exactly when these are the unbound ones |
| `TableRefs.LaterAliasHidesTable` | src/infra/core/src/query_service_impl.rs:490-498 | a query whose extraction loses a table |

## Left out

- Hash computation and object storage: a hash is taken to be the history it seals, so hash mismatches, missing blocks and skipped sequence numbers cannot occur.
- Parquet, Arrow and DataFusion: files are rows with a size; the merge strategies of the writer are a parameter that gives the merged rows in order.
- The integer width of offsets, sizes and depths: all are unbounded.
- Normalization of transforms, SQL inside them, and engine provisioning: a transform is a text, an engine a function of the request and the number of the call.
- DisablePollingSource and DisablePushSource events: append validation panics on them (src/infra/core/src/repos/metadata_chain_validators.rs:294-324), so that no chain holds one.
- Names of push sources, and source states of several sources.
- Compaction.CompactDataset: which chains of root kind that hold queries are rejected half-way is not stated; the size of a merged file is a parameter, and idempotence assumes that sizes add up.
- Transform.ResetDataset: assumes that the clock does not go back during the reset; with a clock that does, the compaction is rejected as CompactDataset states, and the reset with it.
- TransformReplay.EveryRunVerifies: assumes that inputs show the vocabulary and schema that operations saw, and one alias per dataset; EngineViewReplayedIff says that both are needed for the engine to get the same request, and TwoAliasesReplayed and NewVocabularyReplayed show runs without them.
- PullRemotes.RemoteHonouredIff: lists with a failing request are left to FirstVisitDecides and UntouchedRemoteHonoured, because nothing is pulled for them.
- WriterRuns.KeepingRefinesScanning: assumes that the merge does not depend on the order of earlier files, because that order differs (FileOrderKeptIff).
- PullPlan.Collect: cyclic dependencies are excluded, because the descent of the code does not end on them; a remote reference by id, which the code does not implement, is not modelled.
- DependencyGraph.State.RecursiveUpstream: no topological order is claimed, because the distance order is none in general.
- Listing all datasets of an owner for a pull of everything: its result is one more list of requests.
- Interleavings inside one service call: calls are atomic, except that any number of writers may interleave between commits.
- Authorization, listeners, caching, logging, command line, HTTP, GraphQL and other transports.
- Push, sync and smart transfer protocols, remote alias registry, account management: other parts of the system, which do not read or rewrite chains by the rules modelled here.
