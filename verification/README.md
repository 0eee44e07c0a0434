# Quorin verification model

Quorin keeps machine-learning feature rows in one shared-memory byte buffer per schema version (a
*segment*), feeds that buffer from a Redis Stream used as a write-ahead log, stores every row in a
Parquet dataset as well, and moves readers from one segment to the next with a small Redis protocol.
This project models those parts in Dafny and proves what the code is for:

* **Segment store** (`Bits`, `Bytes`, `Layout`, `SlotTable`, `Segment`, `SegmentInsert`, `Upsert`,
  `SegmentRuns`, `CrashSafety`, `SlotWords`, `ConcurrentLookup`). A segment is a byte array. `Segment.StoreMap`
  is the plain map from id to row bytes that the bytes stand for, and lookup, insert, iteration, crash
  points and concurrent reads are stated against that map. The hash is any function from bytes to 64
  bits: ids are told apart by their bytes, and no statement assumes that the hash is injective.
* **Rows and reads** (`Sorting`, `Schema`, `RowPack`, `Packers`, `Assembly`, `FeatureReader`, `RoundTrip`). Two
  field orders meet here: declaration order and name-hash order. The plan-driven packer, the keyword
  packer, the single reader and the batch kernels are proved against one meaning for a row.
* **Bulk insert** (`BulkInsert`, `BulkColumns`, `BulkKernel`). The kernel never compares ids. Its buffer equals
  the row-by-row fold byte for byte if and only if the ids are distinct and non-empty.
* **WAL consumer** (`Wal`, `WalOrder`, `WalOnline`, `WalRuns`, `WalConvergence`, `WalGuards`, `WalStreams`,
  `WalConsumer`, `WalComplete`). A state machine over stream, pending-entries list, online map, offline buffer, offline files,
  `_pending_ack` and processed keys; what its runs keep, and exactly when a pause, an overlapping flush or
  a retry breaks it.
* **Offline store** (`OfflineStore`, `PointInTime`, `ExactlyOnce`). Column buckets with aliased lists and flushes that
  fail at any bucket; as-of joins, dedup and the hydration read against one declarative definition; and
  both together, each appended row read back once.
* **Segment lifecycle** (`Lifecycle`, `LifecycleConservation`, `LifecycleRelease`, `LifecycleHolders`, `LifecycleGuards`,
  `LifecycleOpen`, `LifecycleScripts`, `Watchdog`). Every Lua script and
  every MULTI pipeline is one atomic step; the scripts and the watchdog's tick are also given as in-place
  code proved to compute those steps.
* **Schema upgrades** (`SchemaUpgrade`, `FloatFormat`, `RowTranslation`, `UpgradeCopy`, `UpgradeProtocol`, `UpgradeContents`,
  `UpgradeWrites`, `UpgradeBuffers`, `UpgradeRun`). What `can_upgrade` accepts, what becomes of a row and of a whole segment, and
  the orchestrator as a state machine on top of the lifecycle and of the segments' contents, with any
  number of orchestrators, writers, an expiring lock, failures and crashes.
* **BLAKE2b kernel** (`Blake2b`, `Blake2bRounds`, `Blake2bExample`, `Blake2bFullBlock`). The in-place kernel against a
  functional definition of RFC 7693, and that definition against the example the RFC prints and against a published
  digest of a full block.

Code that computes is modelled as functions and lemmas; code that updates objects, arrays or shared keys
is modelled as classes and methods over fields and arrays, each proved against a specification function.

## Where the code does less than its documentation says

The model follows the code. Each of these is a lemma with a concrete run, or an exact condition:

* The upgrade pause drops the batch it has just read and flushes beside the flush task, and
  `quorin/wal_consumer.py:58-60` says `_pending_ack` does not survive `run()` although nothing clears it. Each of
  the three breaks a promise on some run (`PauseBreaksOrder`, `OverlapForgetsId`, `RetryBreaksOrder`), and for
  each there is a guard on the state before the step that is exactly right: under the guard every run that goes on keeps the
  acknowledgements a prefix of the applicable deliveries, trims no unacknowledged id and converges;
  without it some run does not (`OrderGuardIff`, `OrderlyIff`). A paused read must drop nothing
  applicable, or have nothing applicable after it, and what it drops must not change the map; a second
  flush must have nothing applicable left to be delivered; a retry must not hold two unacknowledged rows
  for one key of which the drain would leave the older. On whole streams: order survives everything exactly when at most one
  message is applicable (`AlwaysInOrderIff`), and convergence survives unrestricted retries exactly when no
  applied row overtakes another (`ConvergesOnRetryIff`).
* A pause that drops an applicable message also costs the acknowledgement: a caught-up pass followed by a successful
  flush has acknowledged every applicable delivery if and only if no pause of that pass did (`FlushAcknowledgesAll`).
* Under those guards the online map converges if and only if no half-applied message (inserted online, then a
  bad event time or a failed offline append) is overtaken by another row for its key (`ConvergesIff`).
  Acknowledged rows are durable in every run all the same (`AckImpliesDurable`).
* A write to the old segment between an upgrade's copy and its flip is lost, unless the copy already had an
  equal translation, whatever else happens in between (`WriteSurvivesIff`); pausing the writers is what prevents it (`NothingIsLost`).
* Re-opening a segment the process already holds and closing the extra handle
  (`quorin/wal_consumer.py:676-681`) takes the process off the holder set while it still holds the segment;
  after its death no cleanup releases that segment (`ReopenLosesListing`). Not opening a segment twice is
  exactly the guard: the refcounts equal the holder lists throughout a run if and only if no process
  does (`AlwaysExactIff`), and a cleanup gives back everything a dead process held on a segment if and only
  if that was one listed handle or nothing (`CleanupReleasesIff`, `OpensOnceIff`).
* `upgrade_schema` opens the current segment and closes it again, so it falls under the same rule. A caller
  that already holds the segment, like the one in `examples/upgrade.py:84-99`, which created it, loses
  its listing by the SREM in `quorin/shm.py:220`, whether the upgrade fails or succeeds. Every key is otherwise as
  promised (`UpgradeSchema`, `FailedCreate`, `UpgradeInstalls`; `HolderUpgrades` is the smallest failing call).
* `open_current` reads the current key and counts its handle in two round trips. If the last holder closes in
  between, the segment is unlinked under a live, counted handle (`LateOpen`); that no retired segment is ever
  held is true exactly of the runs in which every handle is counted while the segment still is
  (`AlwaysUnheldIff`).
* Without message ids, a query for which two different rows tie reads the one that happens to be listed last,
  so its answer depends on the order of the files; exactly such queries do (`OrderIrrelevantIff`).
* A writer crash between claiming a row and publishing its entry is harmless for lookups and inserts, but
  it makes every later schema upgrade of that segment refuse its copy (`CrashBlocksUpgrade`).
* Re-running a crashed insert restores the intended map unless the crash used up the last row
  (`RerunRecovers`).
* Bulk insert of repeated or empty ids does not equal single inserts (`InsertMany`).

## What is assumed

* Memory is sequentially consistent, and each 8-byte cursor word is stored whole; everything else may be
  cut at any byte.
* Number encodings, float32 casts and float widening are parameters. Only their lengths, that `struct` and
  NumPy store the same bytes for a value both accept, and that a float keeps its value when widened are assumed;
  integer widening is defined on bytes and proved to keep values. Nothing is assumed about bytes that `struct`
  leaves at its pad codes, or about what a failed pack leaves in the buffer.
* With message ids, rows that carry the same message id are the same row; without them nothing is assumed, and
  rows may tie. Entity ids are compared by rank.
  The calendar that turns an event time into a date is a parameter, and may refuse.
* Redis scripts and pipelines are atomic and their replies are not lost; segment names and lock tokens are
  never reused; opening a segment is one step, except in `LifecycleOpen`; a process with handles has its heartbeat on record.
* In the upgrade protocol a copy is one step, so a write falls before or after it, and only orchestrators
  point the schema at a new segment. The segments a consumer reopens after a pause hold the rows it left
  there. The process table may refuse to answer, but does not report a live process as gone.

## Model

| member | source | states |
|---|---|---|
| `Layout.AlignUpLeast` | quorin/layout.py:194-195 | the `&`/`~` form of `_align_up` is the least multiple of a power-of-two alignment at or above the value |
| `Layout.NextPow2Least` | quorin/layout.py:198-202 | `_next_pow2` is the least power of two at or above `n`, for every integer `n` |
| `Layout.ComputeLayoutValid` | quorin/layout.py:254-340 | every layout the code accepts has ordered, disjoint, in-bounds regions, a power-of-two slot table at least twice the capacity, and line- and page-aligned boundaries |
| `Layout.ComputeLayoutAccepts` | quorin/layout.py:254-340 | the code accepts exactly the inputs for which some segment geometry within the limits exists, and each of the five errors has its exact condition |
| `Layout.LeastGeometry` | quorin/layout.py:284-327 | the accepted layout is the smallest: every boundary is at or before that of any other geometry for the same inputs |
| `Layout.ExampleLayout` | quorin/layout.py:254-340 | the layout of a hundred thousand entities with 64-byte ids and rows, number by number |
| `Layout.RecoverLayout` | quorin/layout.py:357-388 | the two header words alone yield the creating layout again |
| `SlotTable.NeverExhausted` | quorin/layout.py:469-481 | on a well-formed table a probe always meets its id or an empty slot, so the bounded loops never run out |
| `SlotTable.SearchIsMembership` | quorin/layout.py:459-481 | probing hits exactly the stored ids, each at its own row, whatever the hash function does |
| `SlotTable.InsertKeepsOk` | quorin/layout.py:517-604 | filling the vacancy a probe found keeps the table invariant, in particular that every stored id stays reachable |
| `SlotTable.InsertAddsEntry` | quorin/layout.py:566-604 | that insert adds one entry at the next row and changes no other |
| `Segment.MaskIsHome` | quorin/layout.py:465-466 | `h & mask` is the hash modulo the slot count |
| `Segment.MaskIsSucc` | quorin/layout.py:479 | `(idx + 1) & mask` is the next slot, wrapping at the end |
| `Segment.PoolRoom` | quorin/layout.py:573-578 | while a row is left the string pool has room for any acceptable id |
| `Segment.MapWellDefined` | quorin/layout.py:446-481 | stored ids are distinct and every one has a row inside the segment |
| `Segment.Lookup` | quorin/layout.py:446-481 | the in-place probe returns the abstract map's answer: invalid id, not found, or the stored row's offset |
| `SegmentInsert.WritesApart` | quorin/layout.py:583-604 | the nine writes of an insert touch pairwise disjoint bytes |
| `SegmentInsert.StageVisible` | quorin/layout.py:583-604 | every state before the flags are written looks like the old segment to a reader |
| `SegmentInsert.InsertKeepsBytes` | quorin/layout.py:583-604 | an insert leaves earlier pool entries, earlier rows, every other slot and the header byte for byte |
| `SegmentInsert.InsertedTable` | quorin/layout.py:583-604 | the finished bytes decode to the old table with exactly one new entry |
| `SegmentInsert.InsertedMap` | quorin/layout.py:550-606 | a finished insert maps the id to exactly the given row bytes and nothing else changes |
| `Upsert.UpdatedMap` | quorin/layout.py:532-540 | the update branch changes that id's row bytes and nothing else |
| `Upsert.UpsertIsMapUpdate` | quorin/layout.py:484-606 | insert is map update, or one of four errors each given by its exact condition; two of the source's raises cannot happen |
| `Upsert.InsertIntoEmptySlot` | quorin/layout.py:550-606 | the in-place writes, in source order, leave exactly the specified bytes |
| `Upsert.ProbeAndWrite` | quorin/layout.py:512-547 | the probe loop takes the update, insert or full branch exactly when the specification does |
| `Upsert.Insert` | quorin/layout.py:484-606 | the whole upsert on the buffer, result and bytes, for every input |
| `SegmentRuns.InitializeSegmentRegions` | quorin/layout.py:636-644 | writes the two cursors and the pool header, and no other byte |
| `SegmentRuns.InitializedFresh` | quorin/layout.py:636-644 | an initialised zero buffer is an empty segment that records its `max_id_bytes` |
| `SegmentRuns.RunRefinesMap` | quorin/layout.py:484-606 | after any sequence of inserts the segment holds exactly what a bounded plain map holds, and the row cursor counts its entries |
| `SegmentRuns.LookupReadsMap` | quorin/layout.py:446-481 | lookup hits exactly the stored ids and points at their row bytes |
| `SegmentRuns.LookupAfterRun` | quorin/layout.py:446-606 | both of the above together, for every run and every id |
| `SegmentRuns.RecoverAfterRun` | quorin/layout.py:357-388 | a process that opens the segment after any run re-derives the creating layout |
| `SegmentRuns.IterateOccupied` | quorin/layout.py:609-626 | yields every stored id exactly once, with its own row offset |
| `CrashSafety.CutCursors` | quorin/layout.py:583-586 | at any crash point outside the two cursor words, which are stored whole, each cursor is untouched or fully advanced |
| `CrashSafety.CrashedInsert` | quorin/layout.py:566-604 | after a crash at any byte of the write sequence, except inside one of the two 8-byte cursor words, the segment is well formed and its map is the old one, or the old one plus the entry |
| `CrashSafety.CrashedUpdate` | quorin/layout.py:532-540 | after a crash inside an update only that id's row differs, a new prefix followed by the old rest |
| `CrashSafety.RerunRecovers` | quorin/layout.py:484-606 | re-running the interrupted insert gives the intended map if and only if it had been published or a row is left |
| `CrashSafety.RerunUpdate` | quorin/layout.py:532-540 | re-running an interrupted update always gives the intended map |
| `SlotWords.ProbeStep` | quorin/layout.py:470-479 | the raw words of a slot decide the probe as the decoded slot does |
| `ConcurrentLookup.WriterStepExtends` | quorin/layout.py:583-604 | every partial write, and the death and replacement of the writer at any point of an insert, keeps every published slot |
| `ConcurrentLookup.StepKeepsOk` | quorin/layout.py:469-481 | the reader-writer invariant is kept by every step of either side |
| `ConcurrentLookup.LookupLinearizable` | quorin/layout.py:446-481 | under any interleaving, also across writers that die inside an insert, a miss means the id was absent at the start, a hit is the id's own offset, and no read is ever out of range |
| `ConcurrentLookup.PresentIdAlwaysFound` | quorin/layout.py:446-481 | an id stored before the lookup began is never missed and always gets its own offset |
| `ConcurrentLookup.LookupWaitFree` | quorin/layout.py:468-481 | every read brings the lookup closer to its answer, whatever the writer does |
| `Sorting.ArgsortOk` | quorin/schema.py:352-353 | the sort yields a permutation of the indices, in key order |
| `Sorting.SortedUnique` | quorin/evolution.py:759-760 | with distinct keys there is one sorted order, so an unstable argsort gives the same result |
| `Schema.FieldByteOffsets` | quorin/schema.py:299-315 | the cursor loop computes each field's aligned offset |
| `Schema.ExtentsDisjoint` | quorin/schema.py:299-315 | field extents are line-aligned, in order, disjoint and inside the row, and a row is whole lines |
| `Schema.ExtentInRow` | quorin/schema.py:409-420 | every field ends inside the row size |
| `Schema.RebasedOffset` | quorin/schema.py:386-406 | offsets behind the segment header are the row offsets moved by one line |
| `Schema.OffsetLeast` | quorin/schema.py:299-315 | each field starts at the first line boundary after the field before it, and the row ends at the first one after the last field |
| `Schema.ElementCountCounts` | quorin/schema.py:182-187 | a field's element count is the number of index tuples of its shape |
| `Schema.CompileSchema` | quorin/schema.py:323-364 | fails exactly on a name-hash collision, and otherwise lists every field's extent in hash order |
| `Schema.ComputeRowOffsetTable` | quorin/schema.py:386-406 | rebasing gives, in hash order, the extents of the declaration-order table |
| `Schema.ComputeAssemblyTable` | quorin/schema.py:423-454 | the same extents, in declaration order |
| `Schema.ComputeRowSize` | quorin/schema.py:409-420 | the maximum over the hash-sorted table is the end of the last declared field, rounded up |
| `RowPack.PackInto` | quorin/_internal/row_pack.py:182-186 | a successful struct pack writes each number's encoding in place; pad bytes are arbitrary |
| `RowPack.FitsMeans` | quorin/_internal/row_pack.py:139-205 | what each packer accepts for a field: `struct` one packable number, NumPy as many as the shape has elements |
| `RowPack.HeldNumbers` | quorin/_internal/row_pack.py:200-205 | a field that holds its value stores, at element `j`, the encoding of the value's number `j` |
| `RowPack.ByOffsetIsDeclaration` | quorin/_internal/row_pack.py:259-274 | sorting the hash-ordered rows by byte offset restores declaration order |
| `RowPack.BuildPlan` | quorin/_internal/row_pack.py:218-307 | the plan's format covers the row exactly and its indices map every declared field to its wire position |
| `Packers.PackScalars` | quorin/_internal/row_pack.py:177-186 | the scalar pass puts every scalar in its extent, or fails exactly when one does not pack |
| `Packers.PackRowFromList` | quorin/_internal/row_pack.py:139-205 | on any reused buffer, every field of a packed row holds its wire value, element `j` being the encoding of its number `j`; each error has its exact condition and a length error touches nothing |
| `Packers.PackRow` | quorin/layout.py:652-706 | the keyword packer puts every value in its field, number by number in order, zeros elsewhere, and fails exactly on missing, unknown or badly shaped fields |
| `Packers.PackBoth` | quorin/_internal/row_pack.py:139-205 | one set of values through both packers: what they return agrees on every field's bytes, each succeeds under its own exact condition, and the keyword packer leaves zeros between the fields |
| `Assembly.SameBytes` | quorin/_internal/lookup_kernel.py:161-167 | the byte-compare loop decides equality of the stored and the queried id |
| `Assembly.LookupCore` | quorin/_internal/lookup_kernel.py:87-179 | the raw kernel's answer is the abstract map's, for every well-formed segment and id |
| `FeatureReader.RawReadsRow` | quorin/_internal/lookup_kernel.py:87-179 | a non-negative answer is where the stored row's bytes are; -1 means not stored |
| `FeatureReader.AssembleCore` | quorin/assembly.py:65-116 | the kernel's cursor loop writes the row's vector in declaration order |
| `FeatureReader.Assemble` | quorin/serving.py:43-123 | reads exactly the stored vector, or reports the empty id, the unknown entity or the wrong buffer and leaves the buffer alone |
| `FeatureReader.BatchOne` | quorin/assembly.py:408-483 | one iteration answers its own query and touches no other row |
| `FeatureReader.AssembleBatchCore` | quorin/assembly.py:359-607 | in any iteration order, row `b` is the single read of query `b` or zeros with its mask bit, whatever the buffers held |
| `FeatureReader.PrepareQueries` | quorin/assembly.py:696-720 | padded bytes, lengths and hashes stand for the ids, or the first empty id is reported |
| `FeatureReader.AssembleBatch` | quorin/assembly.py:610-752 | the same for the public entry point, with its two errors leaving both buffers alone |
| `RoundTrip.RowReadsBack` | quorin/serving.py:103-123 | a packed row reads back, in declaration order, as the float32 of every packed value |
| `RoundTrip.RowServes` | quorin/serving.py:103-123 | number `j` of the value of field `d` is served, as its float32, `j` places after the elements of the fields declared before it |
| `RoundTrip.PackInsertRead` | quorin/serving.py:43-123 | pack on any dirty buffer, insert, read: the entity serves exactly its values, each number of each field at its own index, and every other entity is served as before |
| `BulkInsert.KernelRowIsInsert` | quorin/_internal/insert_kernel.py:145-207 | one kernel row leaves the bytes of one insert, cursors aside |
| `BulkInsert.ProbeFreeIsFirstEmpty` | quorin/_internal/insert_kernel.py:149-161 | for a new id the kernel's first-empty probe stops where insert's probe stops |
| `BulkInsert.FoldStep` | quorin/_internal/insert_kernel.py:145-207 | one more distinct row advances the row-by-row fold by exactly the kernel's writes |
| `BulkColumns.PrepareInsertColumns` | quorin/_internal/insert_kernel.py:319-436 | the flat column-major buffers with their prefix sums hold every id and every cell |
| `BulkKernel.EmptyExists` | quorin/_internal/insert_kernel.py:149-161 | while rows are left the kernel finds an empty slot, even for repeated ids |
| `BulkKernel.InsertManyCore` | quorin/_internal/insert_kernel.py:84-209 | the kernel's negative return is unreachable, and on distinct non-empty ids the buffer is the fold's, cursors aside |
| `BulkKernel.FullRunIsDistinct` | quorin/_internal/insert_kernel.py:439-550 | a fold that uses a row per operation saw only distinct acceptable ids |
| `BulkKernel.InsertMany` | quorin/_internal/insert_kernel.py:439-550 | every outcome with its exact condition; two of the errors never occur; the equality above for the whole buffer |
| `Wal.AckImpliesDurable` | quorin/wal_consumer.py:1018-1042 | in every run, with failures, cancellation, overlap, the upgrade pause and crashes, an acknowledged id was inserted, marked, and is in a finalized offline file |
| `WalOrder.AckedIsPrefix` | quorin/wal_consumer.py:1018-1042 | in every run whose pauses and flushes keep their guards, retries with a retained `_pending_ack` included, acknowledged ids are a prefix, in delivery order, of the applicable deliveries |
| `WalOrder.NothingForgotten` | quorin/wal_consumer.py:815-876 | in every such run whose pauses drop nothing applicable, each applicable message the pass is past is acknowledged, in `_pending_ack`, or in the batch being applied |
| `WalOrder.PauseForgetsIff` | quorin/wal_consumer.py:506-510 | a paused read loses track of a message if and only if it drops an applicable one |
| `WalOnline.LastWriter` | quorin/wal_consumer.py:815-876 | every key is untouched by the first deliveries or has a last writer among them |
| `WalConvergence.ReachedUpToDate` | quorin/wal_consumer.py:744-775 | on a stream without stale messages every orderly run that has caught up holds the last-writer-wins fold of every delivery |
| `WalConvergence.ConvergesIff` | quorin/wal_consumer.py:878-981 | convergence on a stream holds if and only if no half-applied message is overtaken by another row for its key |
| `WalConvergence.StaleExample` | quorin/wal_consumer.py:970-978 | the smallest stream on which it fails: an unparsable event time, then a good row |
| `WalGuards.OrderGuardIff` | quorin/wal_consumer.py:506-584 | at any state an ordered run reaches, a pause or a second flush keeps its guard if and only if every ordered run that goes on acknowledges in order and trims no unacknowledged id |
| `WalGuards.OrderlyIff` | quorin/wal_consumer.py:421-584 | the same for order and contents together: a pause, a second flush or a `run()` with a retained `_pending_ack` keeps its guards if and only if every orderly run that goes on stays in order and a caught-up pass holds the fold |
| `WalStreams.AlwaysInOrderIff` | quorin/wal_consumer.py:506-584 | whatever pauses, flushes and retries happen, order and the pending list survive exactly on the streams with at most one applicable message |
| `WalStreams.ConvergesOnRetryIff` | quorin/wal_consumer.py:421-483 | with unrestricted retries the store converges exactly on the streams in which no applied row overtakes another without a half-applied message in between |
| `WalStreams.PauseBreaksOrder` | quorin/wal_consumer.py:506-510 | a run in which the pause drops a batch, a later message is acknowledged first, and a restart overwrites the newer row |
| `WalStreams.RetryBreaksOrder` | quorin/wal_consumer.py:421-483 | a run in which a second `run()` acknowledges a row its drain has just overwritten with an older one |
| `WalStreams.OverlapForgetsId` | quorin/wal_consumer.py:583-584 | a run in which two overlapping flushes leave an applied message unacknowledged by this process |
| `WalConsumer.Consumer.Apply` | quorin/wal_consumer.py:878-981 | decode, insert, append: what becomes of every field of the object, which is the state machine's step |
| `WalConsumer.Consumer.ProcessBatch` | quorin/wal_consumer.py:815-876 | a batch's whole effect on the online map, the marks and the pending list |
| `WalConsumer.Consumer.DrainPel` | quorin/wal_consumer.py:744-775 | the paging loop's whole effect, stopped at any page |
| `WalConsumer.Consumer.FlushAndAck` | quorin/wal_consumer.py:1018-1042 | a successful flush acknowledges exactly what was pending and leaves nothing pending; a failed one acknowledges nothing and keeps everything; what becomes of the files and the buffer either way |
| `WalRuns.BatchEffect` | quorin/wal_consumer.py:815-876 | a batch marks, buffers and leaves pending exactly its applicable messages, and each key holds the row of its last message that was inserted |
| `WalRuns.BatchDoneReached` | quorin/wal_consumer.py:815-876 | what the object does to a batch is a run of the state machine |
| `WalConsumer.FlushReached` | quorin/wal_consumer.py:1018-1042 | what the object does to flush and acknowledge is a run of the state machine, from the flush task or from `run` itself |
| `WalComplete.FlushAcknowledgesAll` | quorin/wal_consumer.py:1018-1042 | after any ordered past, a pass that has caught up and then a successful flush: the acknowledged ids are exactly the applicable deliveries, if and only if no pause of that pass dropped an applicable one |
| `WalConsumer.RestartConverges` | quorin/wal_consumer.py:744-775 | a drain that is not stopped early leaves the fold of every delivery, after a crash or with any `_pending_ack` that keeps the retry guard |
| `OfflineStore.ArrowPlanFor` | quorin/_internal/arrow_schema.py:72-182 | the wire-to-declaration permutation hits every feature column once; a reserved name or a shape of more than two dimensions is reported, each exactly when it occurs |
| `OfflineStore.WireValueInItsColumn` | quorin/_internal/arrow_schema.py:166-173 | each wire value lands in its own field's column |
| `OfflineStore.Bucket.constructor` | quorin/offline.py:213-232 | fresh equal-length columns, and a second set of references to the same lists |
| `OfflineStore.Bucket.AppendRow` | quorin/offline.py:283-293 | the append path through the second references adds exactly one row, every column one cell longer |
| `OfflineStore.ParquetStore.constructor` | quorin/offline.py:158-197 | opened on a dataset and whatever a dead process left in the temporary directory: the rows of the dataset count as appended, the leftovers go |
| `OfflineStore.ParquetStore.CacheTransparent` | quorin/offline.py:199-211 | the per-day date cache answers as the calendar does, for every calendar with one answer a day |
| `OfflineStore.ParquetStore.CacheNamesUtcDays` | quorin/offline.py:199-211 | for a calendar of UTC days the cached answer is the name of the event time's own day |
| `OfflineStore.ParquetStore.Append` | quorin/offline.py:199-293 | one row into its bucket, or one of three errors, an event time without a date among them, each with its exact condition and changing no row |
| `OfflineStore.ParquetStore.WriteTable` | quorin/offline.py:354-421 | at every point where the process can die the dataset has the whole file or does not have it; a raise removes the temporary file, and the file stays exactly when the rename was reached |
| `OfflineStore.ParquetStore.WriteBuckets` | quorin/offline.py:320-352 | what is written, what stays and what is in both places, for a failure at any bucket |
| `OfflineStore.ParquetStore.Flush` | quorin/offline.py:295-352 | disk plus buffer is the set of appended rows after any flush, failing at any bucket; success empties the buffer |
| `OfflineStore.FinishedEffect` | quorin/offline.py:295-352 | the loop's effect and the restore together are the flush's contract |
| `ExactlyOnce.DedupListsOnce` | quorin/offline.py:817-840 | any listing of the stored rows, repeats included, deduplicates by message id to each appended row once and nothing else |
| `ExactlyOnce.StoredOnce` | quorin/offline.py:295-352 | at any moment this holds of what the dataset and the buffers hold together |
| `ExactlyOnce.FlushTwiceAndRead` | quorin/offline.py:295-421 | a flush that failed at any bucket, even past a rename, then a second flush and a read: every row ever appended exactly once |
| `PointInTime.AnswerUnique` | quorin/offline.py:843-916 | the declarative as-of definition has at most one answer, if and only if no two different rows tie for the greatest |
| `PointInTime.AsOfMeans` | quorin/offline.py:843-916 | an answer is a row of the entity in the window with no later one, by event time and then by message id, milliseconds before sequence number; there is none exactly when the window is empty |
| `PointInTime.DedupFeatures` | quorin/offline.py:817-840 | keeps the first row of each message id, or the last of each entity and time without message ids |
| `PointInTime.DedupKeepsRows` | quorin/offline.py:817-840 | with payload-determining message ids dedup drops nothing but repeats |
| `PointInTime.DedupKeepsAnswers` | quorin/offline.py:817-840 | dedup changes no as-of answer |
| `PointInTime.DedupKeepsLast` | quorin/offline.py:817-840 | without message ids dedup leaves, of rows tied on entity and time, the last listed |
| `PointInTime.SearchSorted` | quorin/offline.py:885-900 | the binary search returns the insertion point on the chosen side |
| `PointInTime.AsOfOne` | quorin/offline.py:884-912 | one query's slice, search and lookback give the declarative answer |
| `PointInTime.AsOfJoin` | quorin/offline.py:843-916 | every query's answer is the greatest matching row by event time and message id, or null |
| `PointInTime.FilterKeepsAnswers` | quorin/offline.py:614-632 | the global window filter changes no answer |
| `PointInTime.ReadPointInTime` | quorin/offline.py:484-658 | every answer is the declarative one on all stored rows, and without message ids, where rows may tie, the last listed of them; the one argument error has its exact condition |
| `PointInTime.OrderIrrelevant` | quorin/offline.py:614-640 | two reads of the same rows, listed in any order and any number of times, agree on every query without a tie, and with message ids on every query |
| `PointInTime.OrderIrrelevantIff` | quorin/offline.py:820-840 | without message ids a query reads the same from every order of the same rows if and only if no two different rows tie for its answer |
| `PointInTime.LatestFeatures` | quorin/offline.py:660-775 | exactly the entities with a row in the window, each with its greatest row |
| `PointInTime.HydrationEqualsPointRead` | quorin/offline.py:731-768 | the hydration read returns, for exactly the entities the as-of join answers at the snapshot, a row of the same event time, and the same row unless, without message ids, rows tie for it |
| `Lifecycle.StepKeepsInv` | quorin/shm.py:203-220 | every script or pipeline keeps the accounting invariant |
| `Lifecycle.RefcountCoversHolders` | quorin/shm.py:289-303 | in every run the refcount is the number of outstanding handles and at least the number of listed holders; equal exactly when the handles belong to distinct listed processes |
| `Lifecycle.RetiredHasNoHolder` | quorin/_internal/watchdog_lua.py:84-109 | with opening as one step a queued, popped or unlinked segment has no handle, no listed holder and no schema it is current for |
| `Lifecycle.CurrentIsHeld` | quorin/shm.py:329-344 | a current key names a counted, unretired segment filed under its schema |
| `LifecycleConservation.NothingLeaks` | quorin/_internal/watchdog_lua.py:62-134 | in every run each created segment is counted, queued, popped or unlinked and only one of these, the sidetable files exactly the counted ones, and a segment is on its way to the unlink if and only if no handle on it is outstanding |
| `LifecycleConservation.AllGivenBack` | quorin/shm.py:203-220 | once every handle is given back and the queue is worked off, every segment ever created is unlinked and no refcount, sidetable entry, current key or holding is left |
| `LifecycleRelease.ReleaseAllMeans` | quorin/_internal/watchdog_lua.py:75-109 | the release loop takes one from the count of each listed segment, retires exactly those in their last use, and drops exactly the current keys of these |
| `LifecycleHolders.RefcountEqualsListing` | quorin/shm.py:340-344 | when no process holds a segment twice, the refcount is the number of listed holders |
| `LifecycleGuards.AlwaysExactIff` | quorin/shm.py:340-344 | in a run every refcount is at every moment the number of listed holders if and only if no process opens a segment it already holds |
| `LifecycleGuards.CleanupReleasesIff` | quorin/_internal/watchdog_lua.py:75-110 | after the cleanup of a dead process no handle of it on a segment is outstanding if and only if it had one and was listed, or none and was not |
| `LifecycleGuards.OpensOnceIff` | quorin/shm.py:329-344 | at every state reached without second opens, an event is no second open if and only if in every such run that goes on from it cleanup leaves nothing of a dead process outstanding |
| `LifecycleOpen.AlwaysUnheldIff` | quorin/shm.py:324-344 | with reading the key, mapping and counting as separate steps, no queued, popped or unlinked segment is ever held if and only if every open counts its handle while the segment is still counted |
| `LifecycleOpen.LateOpen` | quorin/shm.py:324-344 | a run in which the last holder closes between the read and the count, and the segment is unlinked under a live, counted handle |
| `LifecycleHolders.ReopenLosesListing` | quorin/wal_consumer.py:676-681 | a run in which re-opening a held segment and closing the extra handle leaves a counted segment that no cleanup will ever release |
| `LifecycleScripts.Redis.ReleaseOne` | quorin/shm.py:203-220 | the shared body: one handle fewer, or, in the last use, queued, uncounted, unfiled and no longer current |
| `LifecycleScripts.Redis.CloseSegment` | quorin/shm.py:203-220 | the same for one segment, which also leaves the caller's holder set; nothing else changes |
| `LifecycleScripts.Redis.CleanupDeadPid` | quorin/_internal/watchdog_lua.py:62-110 | reuse guard, then one handle fewer on each listed segment in any order, the pid erased, and the number of segments in their last use returned |
| `LifecycleScripts.Redis.DrainQueue` | quorin/_internal/watchdog_lua.py:113-134 | pops distinct queued names, up to the batch size |
| `LifecycleScripts.Redis.Register` | quorin/shm.py:289-303 | the registration pipeline's effect on every key: counted once, listed, filed, and current if asked for |
| `LifecycleScripts.Redis.OpenCurrent` | quorin/shm.py:329-344 | the current segment of the schema, one count more and listed, or nothing found and only the heartbeat written |
| `LifecycleScripts.Redis.FlipCurrent` | quorin/_internal/evolution_lua.py:33-58 | compare-and-set: the new segment is current exactly on code 1, and codes 0 and -1 change nothing |
| `LifecycleScripts.Redis.ReleaseLock` | quorin/_internal/evolution_lua.py:65-78 | deletes the lock exactly when it holds the caller's token |
| `Watchdog.UnchangedMeans` | quorin/watchdog.py:246-263 | a miss count of `n` means the last `n + 1` readings agree and the one before differs |
| `Watchdog.DeadIsNotAlive` | quorin/watchdog.py:360-383 | a dead verdict is never about a live process with that create time |
| `Watchdog.CalledIff` | quorin/watchdog.py:265-319 | the script is called for a pid under a fingerprint if and only if its heartbeat has been stuck for more than the threshold since a reading with that create time, and the process table has no such process |
| `Watchdog.CleanedAllOwners` | quorin/watchdog.py:289-319 | after the calls of a tick a called pid has no listing and no heartbeat, unless its heartbeat shows another process; every other pid is as before |
| `Watchdog.CallsAreSteps` | quorin/watchdog.py:271-319 | a tick's cleanups are steps of the lifecycle and take no handle from a live process |
| `Watchdog.WatchdogState.Observe` | quorin/watchdog.py:224-263 | the tracking entries summarise exactly the readings seen so far |
| `Watchdog.WatchdogState.CleanDead` | quorin/watchdog.py:265-319 | exactly the pids at the threshold whose cross-check says dead go to the script, once, under their own fingerprint |
| `Watchdog.WatchdogState.RunOneTick` | quorin/watchdog.py:201-353 | the whole tick: the script is called exactly for the stuck heartbeats whose process is gone, such a pid is erased unless its heartbeat was reused, the queue is emptied up to the batch size, and the lifecycle invariant survives |
| `SchemaUpgrade.FaultlessIffUpgradable` | quorin/evolution.py:206-289 | a pair is upgradable exactly when none of the listed faults holds |
| `SchemaUpgrade.CanUpgrade` | quorin/evolution.py:206-289 | the reasons are exactly the faults, and `ok` exactly when there are none |
| `SchemaUpgrade.UpgradableTransitive` | quorin/evolution.py:206-289 | upgradability composes, the two-dimensional rejections included |
| `RowTranslation.WidenKeepsInteger` | quorin/evolution.py:124-140 | every permitted integer widening keeps the two's-complement value |
| `RowTranslation.WidenKeepsNumber` | quorin/evolution.py:124-140 | every permitted widening, the float one included, keeps the number an element stands for |
| `RowTranslation.WideningExact` | quorin/evolution.py:124-140 | the permitted dtype changes are exactly those within the integers or within the floats that can hold every number of the old dtype |
| `FloatFormat.WidenSingleValue` | quorin/evolution.py:721-729 | a float32 and the float64 it widens to have the same value by section 3.4 of IEEE 754-2008: zeros, subnormals, normals, infinities and NaNs |
| `FloatFormat.KnownValues` | quorin/evolution.py:721-729 | what 1.0, -2.0, infinity and the smallest subnormals are byte by byte |
| `RowTranslation.WidenElementCompose` | quorin/evolution.py:124-140 | widening in two permitted steps is widening in one |
| `RowTranslation.KeptFieldWidened` | quorin/evolution.py:713-729 | after an upgrade every element of a kept field is the widened old element at the new offset, and stands for the same number |
| `RowTranslation.AddedFieldZero` | quorin/evolution.py:705-711 | an added field reads as zero bytes |
| `RowTranslation.TranslateKeeps` | quorin/evolution.py:656-786 | a translated row has the old numbers in every field kept by name and zeros in every added one |
| `RowTranslation.TranslateRowCompose` | quorin/evolution.py:656-786 | upgrading a row through an intermediate schema stores the same bytes as upgrading it directly |
| `RowTranslation.TranslatedMapCompose` | quorin/evolution.py:656-786 | the same for a whole segment: same entities, same rows |
| `UpgradeCopy.RowByteOffsetsByName` | quorin/evolution.py:789-803 | the hash-sorted table read back by name gives each declared field's own offset |
| `UpgradeCopy.SortedIndices` | quorin/evolution.py:759-760 | sorting `n` distinct row indices below `n` puts index `k` at place `k` |
| `UpgradeCopy.CollectIds` | quorin/evolution.py:741-767 | ids come out aligned with their rows, and the check refuses exactly the segments whose row cursor is not their entity count |
| `UpgradeCopy.TranslateColumns` | quorin/evolution.py:699-739 | every column cell is the translation of its stored row |
| `UpgradeCopy.CopySegment` | quorin/evolution.py:505-508 | the copy succeeds exactly when the row cursor counts the entities, and the new segment then holds the same ids with translated rows: the same numbers in every kept field, zeros in every added one |
| `UpgradeCopy.CrashBlocksUpgrade` | quorin/evolution.py:749-754 | a writer crash between claiming a row and publishing it makes the copy refuse after every later run of inserts, and no other crash point does |
| `UpgradeProtocol.StepKeepsSafe` | quorin/evolution.py:460-648 | every step of any orchestrator, and of everyone else, keeps the protocol invariant |
| `UpgradeProtocol.OrphanDropIsClose` | quorin/evolution.py:811-875 | orphan cleanup equals closing, draining and unlinking the segment, and leaves the current key alone |
| `UpgradeProtocol.CurrentAlwaysPopulated` | quorin/evolution.py:460-531 | in every run the current key is absent or names an unretired segment that was copied, at the end of the chain of all earlier current segments |
| `UpgradeContents.PathIsTranslated` | quorin/evolution.py:503-531 | in every run, whatever is written meanwhile, each segment of that chain was filled with exactly the translation of what the one before it held at the copy |
| `UpgradeContents.NothingIsLost` | quorin/evolution.py:460-531 | if writes keep out of the copies' way, each segment has every entity of the one before it, filled from exactly the rows that one still holds |
| `UpgradeContents.CurrentHoldsTranslation` | quorin/evolution.py:460-531 | in every run without writes, however many upgrades, failures and crashes, the current segment holds exactly the starting rows translated to its schema in one step |
| `UpgradeWrites.WriteSurvivesIff` | quorin/evolution.py:461-531 | a write to the old segment between copy and flip, with any steps around it that do not write that entity there again, survives the flip if and only if the copy already had a row with the same translation |
| `UpgradeBuffers.CopyStep` | quorin/evolution.py:503-508 | on the buffers the copy is the protocol's copy step, and it refuses exactly when that step is not enabled |
| `UpgradeProtocol.UnflippedIsUnseen` | quorin/evolution.py:602-617 | an orchestrator's unflipped segment has one handle and is no schema's current segment |
| `UpgradeProtocol.OneFlipPerOldSegment` | quorin/_internal/evolution_lua.py:44-57 | two successful flips of one run never start from the same old segment |
| `UpgradeRun.UpgradeSchema` | quorin/evolution.py:297-648 | a call that fails before the flip leaves every key as it was, and one that reaches it installs the new segment whatever fails later, each if and only if it never opened the old segment or the caller did not already hold it; a holder loses its listing and nothing else; the lock is given back |
| `UpgradeRun.FailedCreate` | quorin/evolution.py:602-642 | open, create, orphan pipeline, close: no key has changed if and only if the caller was not listed as holding the old segment; otherwise exactly that listing is gone |
| `UpgradeRun.UpgradeInstalls` | quorin/evolution.py:467-571 | open, create, flip, close: the new segment is installed and nothing else has changed, under the same condition |
| `UpgradeRun.HolderUpgrades` | quorin/evolution.py:629-638 | the smallest failing call: the process that created the segment upgrades it, as examples/upgrade.py:84-99 does, and is listed as holding nothing while its handle is out |
| `Blake2b.Rotr64Rotates` | quorin/_internal/hash_kernel.py:133-137 | the shift-and-or form is rotation for the four amounts used |
| `Blake2b.G` | quorin/_internal/hash_kernel.py:147-168 | the eight in-place updates compute the mixing function of section 3.1 of RFC 7693 |
| `Blake2b.KernelRows` | quorin/_internal/hash_kernel.py:102-118 | the twelve-row table is the ten schedules taken modulo ten |
| `Blake2b.F` | quorin/_internal/hash_kernel.py:184-221 | the in-place compression is section 3.2's, with the high counter word zero |
| `Blake2b.LittleEndianAppend` | quorin/_internal/hash_kernel.py:276-281 | OR-ing in a shifted byte extends the little-endian value by that byte |
| `Blake2b.LoadFinalBlock` | quorin/_internal/hash_kernel.py:284-295 | the guarded load yields the words of the zero-padded message without reading beyond `n` |
| `Blake2b.BytesOfThenLittleEndian` | quorin/_internal/hash_kernel.py:299-302 | a word's bytes read back little-endian are the word |
| `Blake2b.DigestIsFirstWord` | quorin/_internal/hash_kernel.py:299-302 | the 8-byte digest read little-endian is the first state word |
| `Blake2b.Blake2b8` | quorin/_internal/hash_kernel.py:235-302 | for every buffer and every `n` the result is the little-endian 8-byte unkeyed digest of the first `n` bytes, as sections 3.1 to 3.3 of RFC 7693 define it |
| `Blake2bExample.KnownAnswer` | quorin/_internal/hash_kernel.py:122-221 | the definition gives the digest of "abc" printed in appendix A of RFC 7693 |
| `Blake2bFullBlock.KnownAnswer` | quorin/_internal/hash_kernel.py:102-118 | the definition gives the published digest of the bytes 0 to 127; the sixteen words of that block all differ, so every entry of the schedules matters |

## Left out

- ConcurrentLookup.LookupLinearizable: offsets and first-insert contents only; a reader that copies a row while that row is being overwritten in place may see a mixture, which the code does not prevent.
- CrashSafety.CutCursors: a cut inside one of the two 8-byte cursor words is excluded; each is one aligned store.
- WalConvergence.ReachedUpToDate: is about passes that have caught up; that a PEL drain ends is not claimed, because back-pressure can stop it before the flush task exists.
- WalGuards.OrderlyIff: a pause after which the reopened segment holds other rows than before is outside it; the order half, `OrderGuardIff`, covers any reopened segment.
- WalConsumer.Consumer.Apply: which of decoding, packing, inserting and appending fails is given by the message's outcome.
- WalConsumer.Consumer.ProcessBatch: the back-pressure wait before a batch, and a failing SET pipeline, are steps of the state machine but not of the method.
- WalConsumer.Consumer.FlushAndAck: runs to its end; being suspended between its flush, XACK and trim is a matter of the state machine.
- Lifecycle.RetiredHasNoHolder: holds with opening as one step; `LifecycleOpen.AlwaysUnheldIff` says exactly when it holds with the code's separate GET and INCR.
- LifecycleOpen.AlwaysUnheldIff: the other lifecycle and upgrade results keep opening as one step.
- BulkKernel.InsertMany: missing or mistyped Arrow columns are not outcomes.
- UpgradeProtocol.CurrentAlwaysPopulated: hydration, which creates a segment as current before filling it, is not a step of the model.
- UpgradeRun.UpgradeSchema: one orchestrator without interference; the drain checks, the pause key and the wait for a consumer are one fault parameter, and interleavings are the subject of `UpgradeProtocol`.
- RowTranslation.KeptFieldWidened: float32 to float64 widening is any that keeps the value, and NaN is one value, so NaN payloads and signs are not described.
- UpgradeCopy.CopySegment: row data is copied field by field and element by element where the code uses strided NumPy views and Arrow columns.
- RowPack.PackInto: `struct` is modelled as a sequence of encodings and pads; after a failing argument the buffer is unconstrained.
- FeatureReader.AssembleBatchCore: the parallel kernel is the same iterations in any order; overlapping of two iterations in time is not modelled.
- BulkColumns.PrepareInsertColumns: columns arrive as cells of the field's size; Arrow buffers, null handling and dtype casts of foreign columns are not modelled.
- PointInTime.ReadPointInTime: schema, column and time-type checks before the read, and the date-string partition filter, are not modelled; the `event_time_ns` window is.
- PointInTime.LatestFeatures: only the window check of its arguments is modelled.
- OfflineStore.ArrowPlanFor: the Arrow types of the columns are not modelled, and plans are made with the store, not at the first append.
- OfflineStore.ParquetStore.constructor: what an earlier process had buffered and lost does not count as appended; its messages are redelivered.
- OfflineStore.ParquetStore.Append: the calendar is any function, so the rounding of `ns / 1e9` next to midnight is covered but not described.
- OfflineStore.ParquetStore.WriteTable: a rename is one atomic move; directory names and the reach of fsync are not modelled.
- Watchdog.WatchdogState.RunOneTick: the counters a tick reports are not modelled, and an unlink that fails with an operating-system error is not a case.
- Blake2b.Blake2b8: the segment modules keep the hash abstract instead of using this one, which covers every hash function.
- POSIX shared memory, mmap, the header's CRC check and segment creation beyond its regions.
- TTL clocks: the upgrade lock may expire at any step; the pause key, which is deleted without a token check, and the liveness key are not modelled.
- Redis connection errors, retries and lost replies.
- Trimming of the stream and claiming of other consumers' pending entries.
- Recreating a deleted consumer group, which redelivers the whole stream from id 0 (`quorin/wal_consumer.py:790-808`), is not a step of the WAL model.
- The hydration orchestration around `latest_features` and `insert_many`.
- `_extract_field_to_numpy`, `distinct_entity_ids`, `total_segment_size` and the dry-run report: easy members.
- Buffer pools, prewarming, thread-count thresholds, metrics, logging, the heartbeat thread, msgpack and pydantic validation, command-line entry points.
