# Verification of dotMD's indexing, sync and retrieval core

A Dafny model of the parts of dotMD in which a fast, stateful implementation has to agree with a simple
specification, and proofs that it does.

* **Resumable delta sync** (`Delta*.dfy`). A manifest becomes thirteen ordered phases that are written in
  batches to a keyed store. `DeltaWriter` and `DeltaRunner` are the writer and the runner, with a budget of
  connection calls after which one raises; the other `Delta` modules say what their runs mean. Main results:
  crash-retry convergence, the meaning of a run in terms of the manifest's rows, the fixpoint on rerunning,
  when the batch size matters, unit and checkpoint accounting, and frontmatter reconciliation.
* **Incremental index** (`FileTracking`, `ChunkTables`, `IncrementalIndex`, `IndexCommits`, `IndexRuns`,
  `IndexRows`, `IndexStore`, `Embedding`, `NerCache`, `NerAgreement`, `GlinerSegments`, `AppSource`, `AppSourceRuns`,
  `SchemaWipe`). Change detection, shared chunks, rebinding, crashes between commits, layered caches,
  transactional application-source ingest and the crash-safe wipe, each against recomputing from scratch.
* **Chunker** (`Joining`, `OverlapWindows`, `Sections`). Heading sections, the seven-slot heading stack, overlapping
  token-budget windows.
* **Retrieval arithmetic** (`Ndcg`, `Doubling`, `Blend`). nDCG bounds, the doubling retrieval loop, rerank
  blending.
* `Wrappers`, `Numbers` and `Sequences` hold what several modules share.

Classes model the objects the code updates in place; each of their methods is proved against a specification
function, and the theorems are lemmas about those functions and about runs of them.

## Hypotheses

* Hashes and record-id encodings are injective, so chunk ids, cache keys and record keys are modelled as the
  tuples that are hashed. Chunk ids are (body checksum, index, strategy); application chunk ids are (unit ref,
  fingerprint) within one namespace and strategy.
* The encoder, the entity model, the chunker (as far as the index uses it), payload preparation, sentence
  splitting, token costs and regular-expression matches are fixed functions or given data. Heading matches
  arrive as ordered, non-overlapping spans with levels 1 to 6; sentence splitting loses white space only. Token
  costs are any naturals per sentence.
* Payload preparation keeps the columns that identify a relation (`KeepsRelationColumns`); needed for
  frontmatter reconciliation alone.
* Bulk relation insertion puts each record by its id, one after another, and may fail between two of them.
* One sync state belongs to one manifest. The code shares one state among all manifests
  (`pipeline.py:583`, `pipeline.py:2602-2606`); `SharedStateSuppressesPhases` proves what that does, so
  convergence is not claimed for the pipeline as a whole.
* Graph batches are settled (`Settled`): at each relation record their payloads agree or they sweep the last of
  them. `BatchIsPlainExactly` and `BatchStabilisesExactly` show that exactly these are plain operations and
  repeat without harm. Frontmatter reconciliation needs relation rows that agree (`RelationsAgree`).
* Stored relations sit under the identifier their columns give (`WellKeyed`), which the writer keeps, or no
  two batches reconcile one file; needed for the exact effect of a cut into batches.
* Graph rows are for graph tables (`GraphTablesOnly`): on any other `write_graph` raises, so no run finishes.
* A transaction of the index is atomic and a statement outside one is a commit of its own; `index_file` and a
  purge may die between any two of their commits.
* Equal mtime and size mean equal content (`HonestClock`); `DiffIsChecksumComparison` shows that this is
  exactly what the two-stage test needs.
* A file's path and its document ref name the same file, and a unit's document ref is that of its document.
* Vectors are stored without loss, and adding chunks to the vector store replaces the row of a chunk id.
* `SentinelIsHonest` takes every process to check the schema sentinel when it starts. The code checks only when
  destructive startup repair is allowed (`pipeline.py:588-595`); `PermittedRunsStayHonest` and
  `UncheckedIndexing` say when skipping it is harmless.

## Where code and documentation differ, and where the code falls short

* The extraction cache looks up one chunk per text (`cache.py:320-323`), so of several chunks with the same
  text in one call only the last is attributed, against the per-chunk attribution its comments promise.
* Cached MENTIONS weights count entities where fresh ones count spans.
* The schema check without a sentinel looks at chunk fingerprints and vectors only; where these are empty, meta
  fingerprints, graph and embedding cache survive it.
* `index_file` commits the cleanup and the new chunks before the fingerprint, so a file edited back after a crash
  in between is taken as unchanged and keeps no chunks, or those of the aborted content, until it changes again.
  If a file's first indexing dies so and the file then matches a retained binding of another path, the rebind
  adds the retained chunks to the aborted ones.
* The candidate search stops when doubling the pool lists no more ids than before, although engines that overlap
  may still hold unlisted active candidates (`service.py:1250-1251`), against its promise to go on until the
  result is filled or the engines are exhausted.
* The writer reconciles a file's frontmatter relations per batch, so a batch boundary inside a file's relations
  drops the earlier ones, although the phase as a whole names them.
* The chunk id of an application unit leaves out its document, and an unchanged unit keeps its chunk only while
  no document with the same unit ref and fingerprint changes.
* A unit whose hidden flag changes without a new fingerprint is skipped and keeps its old row.

## Model

| member | source | states |
|---|---|---|
| DeltaIdentifiers.JoinInjective | backend/src/dotmd/ingestion/surreal_delta_sync.py:558-559 | composite identifiers of separator-free parts are equal only when their parts are equal |
| DeltaIdentifiers.BindingTombstoneReachesItsRecord | backend/src/dotmd/ingestion/surreal_delta_sync.py:610-614 | a tombstone made from a stored binding row addresses the record that was written exactly when the row had its `resource_ref` or the default filled in at write time names the same record |
| DeltaStoredRows.IdentifierFromOwnColumn | backend/src/dotmd/ingestion/surreal_delta_sync.py:561-711 | a row's own identifier column, the first that is present, names its record whatever else the row has |
| DeltaStoredRows.IdentifierFromParts | backend/src/dotmd/ingestion/surreal_delta_sync.py:561-711 | without one the record is named by the joined columns when all are present, and by the change's ref otherwise |
| DeltaStoredRows.DocumentIdentifier | backend/src/dotmd/ingestion/surreal_delta_sync.py:561-563 | a document is named by its own ref unless that is empty |
| DeltaStoredRows.SectionRowIsDefaultsAndRow | backend/src/dotmd/ingestion/surreal_delta_sync.py:918-1014 | each section stores a row's own columns as they are and fills in exactly the listed defaults for those it does not have; embeddings alone replace a blank vector row id |
| DeltaStoredRows.GraphRowIsDefaultsAndRow | backend/src/dotmd/ingestion/surreal_delta_sync.py:1016-1058 | the same for files, sections, entities, tags and relations, the record ids of a relation's ends included |
| DeltaStoredRows.TombstoneReachesItsRecord | backend/src/dotmd/ingestion/surreal_delta_sync.py:835-869 | a tombstone made from a stored row of any section but documents and bindings, under any name of its table, deletes the very record the row was written to |
| DeltaStoredRows.BareTombstone | backend/src/dotmd/ingestion/surreal_delta_sync.py:835-869 | a tombstone without a previous row deletes the record of its ref, or of the change's ref when it has none |
| DeltaStoredRows.DocumentTombstone | backend/src/dotmd/ingestion/surreal_delta_sync.py:840-841 | documents are deleted by ref |
| DeltaStoredRows.GraphTombstone | backend/src/dotmd/ingestion/surreal_delta_sync.py:843-868 | a tombstone of a graph row with its own identifier deletes that record |
| DeltaOps.RunIsLocal | backend/src/dotmd/ingestion/surreal_delta_sync.py:891-916 | what a run of upserts, deletes and sweeps does to a record depends on that record alone |
| DeltaOps.ReplayAbsorbsPrefix | backend/src/dotmd/ingestion/surreal_delta_sync.py:1413-1549 | record by record, a full replay over the result of any prefix gives what one run gives |
| DeltaOps.ReplayConverges | backend/src/dotmd/ingestion/surreal_delta_sync.py:1413-1549 | replaying a whole sequence after it was cut short anywhere leaves the store of one uninterrupted run |
| DeltaOps.RunIdempotent | backend/src/dotmd/ingestion/surreal_delta_sync.py:1413-1549 | running a sequence twice leaves what running it once leaves |
| DeltaPlan.PhaseOrder | backend/src/dotmd/ingestion/surreal_delta_sync.py:1228-1278 | every manifest has the same thirteen phases in the same order: tombstones, eleven sections, the checkpoint last |
| DeltaPlan.TombstonePhaseRows | backend/src/dotmd/ingestion/surreal_delta_sync.py:1229-1254 | the tombstone phase holds exactly the rows of the eleven sections that carry a tombstone, deferred sections included, each as often as it occurs, sorted |
| DeltaPlan.SectionPhaseRows | backend/src/dotmd/ingestion/surreal_delta_sync.py:1256-1275 | a section's phase holds exactly its other rows, each as often as it occurs, and none when it is deferred |
| DeltaPlan.BatchesAreFull | backend/src/dotmd/ingestion/surreal_delta_sync.py:1372-1376 | batches are of the given size but for the last, none is empty, and together they are the rows in order |
| DeltaRows.TotalUnitsAreRows | backend/src/dotmd/ingestion/surreal_delta_sync.py:1281-1284 | the units of a manifest: one for each tombstone, each row a section upserts, and the checkpoint |
| DeltaPlan.SortKeepsChanges | backend/src/dotmd/ingestion/surreal_delta_sync.py:1224-1225 | sorting a section loses and invents no change |
| DeltaPlan.SortIsStable | backend/src/dotmd/ingestion/surreal_delta_sync.py:1224-1225 | a sorted section is in the order of table and ref, and changes that tie keep their order |
| DeltaPlan.SectionOpsIgnoreBatchSize | backend/src/dotmd/ingestion/surreal_delta_sync.py:1372-1376 | cutting a plain section into batches of any size performs the same row operations in the same order |
| DeltaConvergence.DonePhasesDoNothing | backend/src/dotmd/ingestion/surreal_delta_sync.py:1413-1549 | phases that are completed or empty leave the store alone and complete nothing: completed phases are never replayed |
| DeltaConvergence.ReplayedPhaseHasSameOps | backend/src/dotmd/ingestion/surreal_delta_sync.py:1007-1014 | an interrupted phase performs the same operations when replayed, although vector components are prepared from stored embeddings |
| DeltaConvergence.ResumeEqualsUninterrupted | backend/src/dotmd/ingestion/surreal_delta_sync.py:1379-1549 | resuming after a run that raised anywhere in any phase ends in the snapshot the run would have reached: store, completed phases, units and checkpoint flag |
| DeltaConvergence.RetriesConverge | backend/src/dotmd/ingestion/surreal_delta_sync.py:1379-1549 | any number of failed runs with the retained state and then one that finishes leave the store and the state of a single uninterrupted run, for every manifest, store and batch size; runs here are plain operation sequences, which the code's are exactly when every graph batch is settled (`BatchIsPlainExactly`) |
| DeltaAccounting.CompletingIsAccounted | backend/src/dotmd/ingestion/surreal_delta_sync.py:1281-1285 | completing the first n phases adds exactly their missing units and keeps completion in plan order |
| DeltaAccounting.RetriesAreAccounted | backend/src/dotmd/ingestion/surreal_delta_sync.py:1413-1549 | at every point of a retried run `completed_units` is the sum over `completed_phases`, an applied checkpoint means every other non-empty phase is complete, and success completes all units |
| DeltaAccounting.SharedStateSuppressesPhases | backend/src/dotmd/ingestion/pipeline.py:2594-2606 | with one state reused for a second manifest exactly the phases that were empty in the first are applied, its checkpoint is never written, and nothing is written when it uses no further section |
| DeltaGraph.BatchIsPlainExactly | backend/src/dotmd/ingestion/surreal_delta_sync.py:1016-1078 | buffering the relations comes to the same as sweeping and then upserting every row, from every store, if and only if the batch is settled: at every relation record its payloads agree or it sweeps the last of them itself |
| DeltaGraph.AgreeingBatchIsPlain | backend/src/dotmd/ingestion/surreal_delta_sync.py:1016-1078 | so it does for every batch whose relation rows agree |
| DeltaGraph.CutFlushIsInterrupted | backend/src/dotmd/ingestion/surreal_delta_sync.py:1016-1078 | a failure while the buffered relations are flushed leaves a state that a replay of the plain operations repairs, whatever the rows |
| DeltaGraph.BatchStabilisesExactly | backend/src/dotmd/ingestion/surreal_delta_sync.py:1016-1132 | repeating a batch changes nothing, from every store, if and only if at every relation record the batch's payloads agree or the batch itself sweeps the last of them; if not, no store at all is left alone by it |
| DeltaGraph.ConflictingRelationsOscillate | backend/src/dotmd/ingestion/surreal_delta_sync.py:1016-1078 | the smallest case: two differing rows for one record make repeated runs alternate between them |
| DeltaGraph.FrontmatterReconciled | backend/src/dotmd/ingestion/surreal_delta_sync.py:1080-1132 | after a batch whose relation rows agree and that names a file, the file's stored HAS_TAG and HAS_PARTICIPANT relations are exactly those the batch asks for |
| DeltaGraph.OtherRelationsSurvive | backend/src/dotmd/ingestion/surreal_delta_sync.py:1080-1132 | no relation is deleted other than frontmatter relations of files the batch names |
| DeltaGraph.LaterBatchDropsEarlierRelations | backend/src/dotmd/ingestion/surreal_delta_sync.py:1080-1132 | a later batch naming the file without one of its stored frontmatter relations deletes that relation |
| DeltaBatching.BatchedRecord | backend/src/dotmd/ingestion/surreal_delta_sync.py:1016-1132 | cut into batches, every record ends as if all graph rows were one batch, except that a relation a later batch sweeps is gone |
| DeltaBatching.CutIsHarmlessExactly | backend/src/dotmd/ingestion/surreal_delta_sync.py:1372-1376 | a cut of the graph rows leaves what one batch of them leaves if and only if no relation is lost, that is, stored by its last writer and swept by a later batch |
| DeltaBatching.FilesInOneBatchEach | backend/src/dotmd/ingestion/surreal_delta_sync.py:1372-1376 | when each file and its frontmatter relations share a batch, the cut writes what one batch writes, whatever is stored |
| DeltaBatching.BatchSizeMattersExactly | backend/src/dotmd/ingestion/surreal_delta_sync.py:1372-1376 | two runs of a manifest with different batch sizes, graph rows included, end in the same store if and only if the two cuts lose the same relations |
| DeltaBatching.BatchSizeDoesNotMatter | backend/src/dotmd/ingestion/surreal_delta_sync.py:1372-1376 | with no graph rows, or each file left to one batch, the batch size makes no difference, whatever is stored |
| DeltaBatching.SplitFileLosesTag | backend/src/dotmd/ingestion/surreal_delta_sync.py:1080-1132 | an instance: two tags of one file in batches of their own lose the first, in one batch neither |
| DeltaGraph.OneTagReplacesAnother | backend/src/dotmd/ingestion/surreal_delta_sync.py:1080-1132 | an instance: a batch with one tag or participant of a file, its kind under either column, stores it and drops the file's other stored one |
| DeltaGraph.FileRowDropsItsTags | backend/src/dotmd/ingestion/surreal_delta_sync.py:1080-1132 | an instance: a file row alone drops a stored relation of the file iff that is a tag or a participant |
| DeltaGraph.OtherSourcesDropNothing | backend/src/dotmd/ingestion/surreal_delta_sync.py:1080-1132 | a relation row that is not of a file, or has no target, drops nothing |
| DeltaGraph.RepeatedBatchIsStable | backend/src/dotmd/ingestion/surreal_delta_sync.py:1016-1132 | repeating a batch whose relation rows agree leaves the store unchanged |
| DeltaGraph.BatchKeepsTableWellKeyed | backend/src/dotmd/ingestion/surreal_delta_sync.py:703-711 | relations written by a batch are stored under the identifier their columns give, which reconciliation relies on |
| DeltaWriter.StoreWriter.UpsertPoint | backend/src/dotmd/ingestion/surreal_delta_sync.py:891-899 | the record holds the payload afterwards, and the count says whether it held another before; a failure leaves it old or new |
| DeltaWriter.StoreWriter.DeleteTombstones | backend/src/dotmd/ingestion/surreal_delta_sync.py:901-916 | deletes exactly the addressed records, or is interrupted among them; counts those that were there |
| DeltaWriter.StoreWriter.WriteSection | backend/src/dotmd/ingestion/surreal_delta_sync.py:918-1014 | performs the section's upserts in order, or is interrupted among them; counts those that changed the store |
| DeltaWriter.StoreWriter.DeleteStale | backend/src/dotmd/ingestion/surreal_delta_sync.py:1080-1132 | deletes and counts exactly the stale frontmatter relations; cut short, every record is as before or as after |
| DeltaWriter.StoreWriter.WriteGraph | backend/src/dotmd/ingestion/surreal_delta_sync.py:1016-1078 | leaves the store that sweeping, writing nodes and flushing the differing relations gives, and counts the swept, changed and flushed rows; every failure leaves an interrupted plain batch |
| DeltaWriter.StoreWriter.WriteCheckpoint | backend/src/dotmd/ingestion/surreal_delta_sync.py:1144-1155 | writes the one checkpoint record |
| DeltaRunner.RunBatches | backend/src/dotmd/ingestion/surreal_delta_sync.py:1440-1510 | all batches of a phase through equals the phase run as a whole; cut short equals the phase interrupted, with the state untouched; for phases whose graph batches are settled |
| DeltaRunner.RunNextPhase | backend/src/dotmd/ingestion/surreal_delta_sync.py:1413-1520 | one phase is skipped, completed with its units, or cut short with the state as it was, and reported last as such, for every phase; and the store is that of the phase run whole or interrupted when its graph batches are settled |
| DeltaRunner.RunSync | backend/src/dotmd/ingestion/surreal_delta_sync.py:1379-1549 | for manifests whose graph batches are settled each run is a finished or a failed run in the sense of the convergence theorem; for every manifest the state stays accounted for, a finished run on the manifest's own state has all units and reports 100 last, and percentages stay in 0..100 and never fall within a run |
| DeltaMeaning.PlanIsOneSequence | backend/src/dotmd/ingestion/surreal_delta_sync.py:1228-1278 | a whole run is one operation sequence, although one phase reads what an earlier one wrote |
| DeltaRows.SyncMeaning | backend/src/dotmd/ingestion/surreal_delta_sync.py:1379-1549 | for the ten plain sections, read off the manifest's rows: a record ends as its section's last row for it, with that row's columns and the filled-in ones prepared, even when it is tombstoned too; is absent if only tombstoned by a row of any section; is untouched otherwise; vector components are prepared with the embeddings the run leaves |
| DeltaRows.RowsOfSection | backend/src/dotmd/ingestion/surreal_delta_sync.py:1256-1275 | the rows a section upserts are its rows without a tombstone as often as they occur, sorted; none if it is deferred |
| DeltaRows.NodeMeaning | backend/src/dotmd/ingestion/surreal_delta_sync.py:1016-1078 | files, sections, entities and tags end with their last graph row, in whatever batches it came |
| DeltaRows.RelationMeaning | backend/src/dotmd/ingestion/surreal_delta_sync.py:1016-1132 | a relation is gone if a later batch sweeps it, else ends with its last row, else is gone if tombstoned or stale, else untouched |
| DeltaRows.CheckpointMeaning | backend/src/dotmd/ingestion/surreal_delta_sync.py:1144-1155 | the checkpoint record ends with the manifest's cursor, source time and watermark, no error, not advanced, tombstoned or not |
| DeltaRows.LastRowSortsLast | backend/src/dotmd/ingestion/surreal_delta_sync.py:1224-1278 | of a section's rows for one record the one that wins has the greatest table and ref |
| DeltaRows.SameRecordExactly | backend/src/dotmd/ingestion/surreal_delta_sync.py:558-720 | rows of the six composite sections that are named by their separator-free columns share a record if and only if those columns are equal |
| DeltaRows.RowStands | backend/src/dotmd/ingestion/surreal_delta_sync.py:918-1014 | in such a section every row that no later row shares its identifying columns with is stored under its own record |
| DeltaMeaning.SyncIsFixpoint | backend/src/dotmd/ingestion/surreal_delta_sync.py:1379-1549 | running a finished manifest again with fresh state leaves the store as it is, graph rows included |
| FileTracking.DiffIsChecksumComparison | backend/src/dotmd/ingestion/file_tracker.py:105-162 | the new, modified and unchanged files of a diff are those that comparing checksums gives if and only if equal mtime and size mean equal checksum for every discovered file |
| FileTracking.DiffSharesOutFiles | backend/src/dotmd/ingestion/file_tracker.py:105-162 | every discovered file is in exactly one of the three lists |
| FileTracking.RefreshedKeepsHonest | backend/src/dotmd/ingestion/file_tracker.py:105-162 | rewriting drifted mtime and size keeps every checksum and keeps the test exact |
| FileTracking.RefreshAllMeaning | backend/src/dotmd/ingestion/file_tracker.py:105-162 | after a diff unchanged files carry their current mtime and size, and no fingerprint appears, disappears or changes its checksum |
| FileTracking.FileTracker.Diff | backend/src/dotmd/ingestion/file_tracker.py:105-162 | the four lists are exactly the new, modified, unchanged and deleted files, and only drifted stats are rewritten |
| FileTracking.FileTracker.SaveFingerprint | backend/src/dotmd/ingestion/file_tracker.py:166-186 | the path's fingerprint is replaced, the others are kept |
| FileTracking.FileTracker.RemoveFingerprint | backend/src/dotmd/ingestion/file_tracker.py:188-194 | the path's fingerprint is removed, the others are kept |
| ChunkTables.CleaningIsSafe | backend/src/dotmd/ingestion/pipeline.py:3353-3408 | cleaning a file deletes exactly the chunks it alone held, empties its refs, leaves every other file's refs and keeps the tables consistent |
| ChunkTables.TombstonesMatchCascade | backend/src/dotmd/ingestion/pipeline.py:2739-2750 | the orphans named by the tombstone manifest (at most one holder) are exactly those the local cascade deletes |
| ChunkTables.AttachMeaning | backend/src/dotmd/ingestion/pipeline.py:3150-3199 | adding holder rows gives the path those refs, no other path any, and keeps chunk, holder and provenance rows in step |
| ChunkTables.SavingMeaning | backend/src/dotmd/ingestion/pipeline.py:3150-3199 | saving a file's chunks gives it exactly their refs on top of what it had |
| IndexCommits.IndexFileIsAllCommits | backend/src/dotmd/ingestion/pipeline.py:3052-3296 | `index_file` that does not die does all of its commits: rebind in three, re-chunking in five (two for a file without chunks), refreshing in up to five, the document and the binding being commits of their own |
| IndexRows.RowsAfterIndex | backend/src/dotmd/ingestion/pipeline.py:3052-3296 | the path's document, binding and both fingerprints after `index_file` in every branch: all current when it rebinds, re-chunks into chunks, or finds new metadata of a file with chunks; a file that gives no chunks loses its document and keeps binding and metadata fingerprint; otherwise document and binding stay; no other path's rows change |
| IndexRows.MetaPrintComesLast | backend/src/dotmd/ingestion/pipeline.py:2060-2070 | wherever `index_file` dies, a metadata fingerprint that has moved on finds document, binding and chunk fingerprint current |
| IndexRows.RowsAfterUnbind | backend/src/dotmd/ingestion/pipeline.py:3485-3547 | deactivating retains in the binding what the document row says, or what the binding said, and changes no other row |
| IndexRows.RowsAfterPurge | backend/src/dotmd/ingestion/pipeline.py:3410-3483 | purging removes document and fingerprints and keeps the binding row |
| IndexRows.ReachableRowsAgree | backend/src/dotmd/ingestion/pipeline.py:3052-3296 | over every run without crashes, the rows of each path with chunks agree: its binding with its document, and its metadata fingerprint with the document's metadata |
| IndexRows.UnboundFileIsTakenBack | backend/src/dotmd/ingestion/pipeline.py:1622-1724 | a file that is unbound and indexed again unchanged has the same chunks and rows as before, the binding active again |
| IndexCommits.CommitMeaning | backend/src/dotmd/ingestion/pipeline.py:3093-3228 | after any number of commits: the refs the file has, every other file's refs as before, the fingerprint old or current, and the invariant for all paths not counted as torn |
| IndexCommits.IndexedRefs | backend/src/dotmd/ingestion/pipeline.py:3052-3296 | whatever crashes left before: a rebind adds the refs of the binding it found to those already there, fingerprinted content keeps its refs, any other content is chunked from scratch |
| IndexCommits.IndexFileMeaning | backend/src/dotmd/ingestion/pipeline.py:3052-3296 | after `index_file` on a path that no crash has torn, its refs are those of chunking its current content from scratch, and no other file's refs changed |
| IndexCommits.ReindexAfterCrashExactly | backend/src/dotmd/ingestion/pipeline.py:3102-3228 | after a crash anywhere while a file is re-chunked, the first time or later: if the next `index_file` finds a retained binding with refs, the file ends with these and the refs the crash left, and is right if and only if together they are those of its content; else it is right if and only if its content has the refs the crash left or differs from the fingerprinted content; the refs left are none before the chunk commit and those of the aborted content after it |
| IndexCommits.BoundFileAfterCrash | backend/src/dotmd/ingestion/pipeline.py:3102-3228 | for a file with a binding row: right if and only if its content has the refs the crash left, or differs from the fingerprinted content and is not taken back from that binding; otherwise the file keeps the refs the crash left |
| IncrementalIndex.RebindEqualsRechunk | backend/src/dotmd/ingestion/pipeline.py:1622-1724 | rebinding a moved file leaves the very chunk tables that cleaning and re-chunking it leave, since chunk ids ignore the path |
| IncrementalIndex.PurgeKeepsInv | backend/src/dotmd/ingestion/pipeline.py:3410-3483 | purging one path keeps every other path's refs equal to those of its fingerprinted content and puts a torn path right |
| IncrementalIndex.PurgeCleansEveryStrategy | backend/src/dotmd/ingestion/pipeline.py:3353-3408 | in every strategy the path loses its refs and the chunks it alone held, and no other path any ref |
| IndexCommits.PurgeCommit | backend/src/dotmd/ingestion/pipeline.py:3437-3483 | a purge that dies leaves only its own path torn, and only before the fingerprint is removed |
| IncrementalIndex.DeactivateKeepsInv | backend/src/dotmd/ingestion/pipeline.py:3485-3547 | deactivating a binding changes the binding row alone, so all derived rows and every path's refs are retained, and keeps the invariant |
| IndexRuns.ReachableIndexIsFromScratch | backend/src/dotmd/ingestion/pipeline.py:3052-3296 | over every run of edits, deletions, indexing, rebinds, deactivations and purges, each of which may die after any commit: each fingerprinted path that no crash has torn has exactly the refs of its fingerprinted content; a chunk exists iff a file holds it, each holder with its provenance row; and without crashes nothing is torn |
| IndexRuns.TornPathsAreRepaired | backend/src/dotmd/ingestion/pipeline.py:3086-3228 | a completed re-chunking or purge puts a torn path right |
| IndexRuns.RevertAfterCrash | backend/src/dotmd/ingestion/pipeline.py:3102-3227 | an instance for both crash points: a file edited, its indexing dead after the cleanup or after the chunk commit, and edited back is left without chunks or with the chunks of the aborted content |
| IndexRuns.FirstIndexingDies | backend/src/dotmd/ingestion/pipeline.py:1622-1724 | an instance without a binding row: a new file's first indexing dead after the chunk commit, and its content replaced by one retained elsewhere: the rebind adds the retained chunks to the aborted ones |
| IndexStore.Pipeline.HolderAwareCleanup | backend/src/dotmd/ingestion/pipeline.py:3353-3408 | the loop over all strategies performs exactly the cascade in each |
| IndexStore.Pipeline.PurgeFile | backend/src/dotmd/ingestion/pipeline.py:3410-3483 | cascade, then both fingerprints removed |
| IndexStore.Pipeline.DeactivateBinding | backend/src/dotmd/ingestion/pipeline.py:3485-3547 | only the binding row changes |
| IndexStore.Pipeline.RebindRetained | backend/src/dotmd/ingestion/pipeline.py:1622-1724 | the retained refs, the binding and the fingerprints, or nothing |
| IndexStore.Pipeline.SaveChunks | backend/src/dotmd/ingestion/pipeline.py:3150-3199 | the write loop performs insert-or-ignore for every chunk with its holder and provenance rows |
| IndexStore.Pipeline.RechunkFile | backend/src/dotmd/ingestion/pipeline.py:3086-3228 | cleanup, chunks and fingerprint of a changed file, with the branch for a file without chunks |
| IndexStore.Pipeline.IndexOne | backend/src/dotmd/ingestion/pipeline.py:3052-3296 | `index_file` as a whole: the store is exactly what the specification function proved correct above gives |
| Embedding.LookUp | backend/src/dotmd/ingestion/pipeline.py:1341-1406 | every chunk is served by its component, by the global cache or queued for the encoder, aligned with the input |
| Embedding.FillPlaceholders | backend/src/dotmd/ingestion/pipeline.py:1408-1416 | every placeholder ends up with its own chunk's vector |
| Embedding.EmbeddingStore.EmbedChunks | backend/src/dotmd/ingestion/pipeline.py:1341-1426 | the result is aligned with the input and holds the encoder's vector for each chunk whichever layer served it; the cache gains exactly the missing texts and stays coherent |
| Embedding.EmbeddingStore.TextVectors | backend/src/dotmd/ingestion/pipeline.py:1982-2000 | stored vectors plus freshly embedded missing ones are the encoder's vectors for all chunks |
| Embedding.EmbeddingStore.StoreAll | backend/src/dotmd/ingestion/pipeline.py:2035-2070 | text components, the meta component, fused vectors and hashes are stored for every chunk under its own id |
| Embedding.EmbeddingStore.IndexFileEmbed | backend/src/dotmd/ingestion/pipeline.py:1893-2085 | the body-changed and the metadata-only branch both leave the stores a full embed describes |
| Embedding.BranchesAgree | backend/src/dotmd/ingestion/pipeline.py:1893-2085 | any two branches that embed a file leave identical stores, missing text vectors included |
| Embedding.FilledIsUnique | backend/src/dotmd/ingestion/pipeline.py:1341-1426 | which texts get cached is determined, whatever the lookup order |
| NerCache.ExtractChunk | backend/src/dotmd/extraction/ner.py:245-302 | from the predictions alone: the first non-empty stripped span of every name and type that agree in lower case, in order; CO_OCCURS for every two of them, the earlier first, n (n - 1) / 2 in all; MENTIONS for each weighted by the number of spans of that name |
| NerCache.PairsAreCombinations | backend/src/dotmd/extraction/ner.py:279-287 | the pairs hold every i < j at its place of `combinations`, and nothing else |
| NerCache.MergeEntities | backend/src/dotmd/extraction/ner.py:183-206 | merging adds the chunk to every key it mentions, once, and keeps one entity per key |
| NerCache.Extract | backend/src/dotmd/extraction/ner.py:171-211 | entity keys, the chunk ids of each, and the relations with their weights are those of the chunks |
| NerCache.Extraction.ExtractWithCache | backend/src/dotmd/extraction/ner.py:82-169 | what hits and misses give together for the chunks that are looked up, and a cache that stays coherent and gains the texts of the misses |
| NerCache.CachedMentionPairs | backend/src/dotmd/extraction/ner.py:107-135 | MENTIONS rebuilt from a cached row name the same (chunk, name) pairs as fresh ones, each once, weighted by the entities of that name |
| NerAgreement.CachedAgreesWithUncached | backend/src/dotmd/extraction/ner.py:82-211 | for chunks with distinct texts, any split into hits and misses gives the same keys, chunk ids, multiset of CO_OCCURS and (chunk, name) pairs as running the model on every chunk |
| NerAgreement.RepeatedTextsDoHarm | backend/src/dotmd/storage/cache.py:320-357 | the lookup keeps one chunk per text: for chunks with distinct ids, attribution, CO_OCCURS and the MENTIONS pairs are each right for every extractor if and only if no chunk has the text of a later one |
| NerAgreement.RepeatedTextsLoseAttribution | backend/src/dotmd/storage/cache.py:320-357 | only the refinement for one extractor, in terms of what it finds: attribution agrees with the uncached one iff every chunk passed over has no entities |
| NerAgreement.TwoChunksOneText | backend/src/dotmd/storage/cache.py:320-357 | the smallest case: of two chunks with one text the first loses its entities and its MENTIONS |
| NerAgreement.MentionWeights | backend/src/dotmd/extraction/ner.py:107-135 | the MENTIONS relations for a name carry the same weight from the cache as fresh iff every span with that name is the first of its (name, type) key |
| NerAgreement.RepeatedSpanWeighsLess | backend/src/dotmd/extraction/ner.py:107-135 | a name found twice under one type weighs 2 fresh and 1 from the cache |
| NerAgreement.BatchedInference | backend/src/dotmd/extraction/ner.py:213-240 | of the one call for all segments of all chunks, what is regrouped under a chunk's id is what the model finds in that chunk's text |
| AppSourceRuns.IngestIsIndexedExactly | backend/src/dotmd/ingestion/pipeline.py:630-903 | a committed batch keeps every visible unit at exactly the chunk of its stored fingerprint, and no other chunk, if and only if it writes for each changed unit a chunk for the row it ends with and no other, and no changed unit shares its stored chunk with a visible unit of another document that the batch leaves as it is; both can be read off the stored rows before the commit |
| AppSourceRuns.OrdinaryBatchesKeep | backend/src/dotmd/ingestion/pipeline.py:630-903 | batches whose changes of one unit are alike, over unit refs that belong to one document each, always meet that condition |
| AppSourceRuns.ChunkTexts | backend/src/dotmd/ingestion/pipeline.py:776-835 | a chunk keeps its stored text while it stays, and else has that of a change written under its id |
| AppSourceRuns.RowsAfterUpserts | backend/src/dotmd/storage/metadata.py:651-687 | a unit's row after a batch is the fold of its own changes: a change replaces the row unless the fingerprint is the one it has by then; units without changes keep theirs |
| AppSourceRuns.CommittedRows | backend/src/dotmd/ingestion/pipeline.py:693-835 | for alike changes: a unit whose stored fingerprint is that of its change keeps its row, any other gets the change's fingerprint and visibility |
| AppSourceRuns.OtherRowsStay | backend/src/dotmd/storage/metadata.py:651-687 | units without a change in the batch keep their rows |
| AppSourceRuns.SkippedBatchChangesNothing | backend/src/dotmd/ingestion/pipeline.py:693-717 | a batch that brings only stored fingerprints touches no unit, chunk or provenance row |
| AppSourceRuns.IngestingAgainChangesNothing | backend/src/dotmd/ingestion/pipeline.py:630-903 | a batch delivered again changes no unit, chunk or provenance row |
| AppSourceRuns.CommittedBindings | backend/src/dotmd/ingestion/pipeline.py:776-800 | a commit binds the documents of its changes and no other, and clears the error |
| AppSourceRuns.UpsertsDrop | backend/src/dotmd/storage/metadata.py:907-957 | all upserts of a batch together remove exactly the chunks stored for its changed units, with every provenance row of them, whichever documents share them and however often a unit occurs |
| AppSourceRuns.InsertsAdd | backend/src/dotmd/ingestion/pipeline.py:776-835 | all inserts together add exactly the chunks and provenance rows of the visible changes and leave the text of chunks already there |
| AppSourceRuns.RunsAreIndexedExactly | backend/src/dotmd/ingestion/pipeline.py:630-903 | over runs of committed and rolled-back batches the store is indexed after every step if and only if every committed batch meets that condition on the store it finds |
| AppSourceRuns.ReachableHasOneChunkPerUnit | backend/src/dotmd/ingestion/pipeline.py:630-903 | after every such run each visible unit has exactly the chunk of its stored fingerprint, each hidden unit none |
| AppSourceRuns.RollbacksAreInvisible | backend/src/dotmd/ingestion/pipeline.py:880-901 | over every run, rolled-back batches leave units, chunks, bindings and cursor as if they had never been tried; only the error remembers them, until the next commit |
| AppSourceRuns.CursorIsLastCommitted | backend/src/dotmd/ingestion/pipeline.py:656-688 | the stored cursor is that of the last committed batch with changes or a cursor of its own; empty batches without one and rolled-back batches leave it |
| AppSource.AppStore.Ingest | backend/src/dotmd/ingestion/pipeline.py:630-903 | for every point of failure the whole batch commits with its checkpoint or nothing of it does and only the error is recorded; discovered = new + changed + skipped |
| AppSource.AppStore.Classify | backend/src/dotmd/ingestion/pipeline.py:693-717 | new, changed, skipped and hidden counts, and exactly the visible changes that differ are to be indexed |
| AppSourceRuns.RepeatedUnitKeepsTwoChunks | backend/src/dotmd/ingestion/pipeline.py:776-835 | an instance: two fingerprints of one unit in a batch leave two live chunks |
| AppSourceRuns.SharedUnitRefLosesChunk | backend/src/dotmd/ingestion/pipeline.py:1030-1032 | an instance: the chunk id leaves out the document, so with one unit ref and fingerprint in two documents a change in the one deletes the chunk of the other |
| SchemaWipe.SentinelIsHonest | backend/src/dotmd/ingestion/pipeline.py:3991-4055 | with crashes after any commit and any restarts by any versions, a sentinel that names a version means that no store holds a row of another schema: vectors, chunk and meta fingerprints, embedding cache and graph |
| SchemaWipe.PermittedRunsStayHonest | backend/src/dotmd/ingestion/pipeline.py:588-595 | the same over runs in which boots skip the check, as long as each of these finds no sentinel, a wipe in progress or its own version |
| SchemaWipe.CheckKeepsExactly | backend/src/dotmd/ingestion/pipeline.py:3991-4055 | a finished check, for every sentinel: a store marked with the running version, or unmarked and without chunk fingerprints and vectors, keeps every row of every store; any other store is emptied entirely |
| SchemaWipe.OwnBootKeepsAll | backend/src/dotmd/ingestion/pipeline.py:3998-3999 | a boot of the version the sentinel names leaves the whole store as it was, wherever it dies |
| SchemaWipe.UpToDateIsSafe | backend/src/dotmd/ingestion/pipeline.py:3991-4020 | a check of an up-to-date store empties nothing even when it dies |
| SchemaWipe.OwnBootsLoseNothing | backend/src/dotmd/ingestion/pipeline.py:3991-4055 | over runs with restarts of the sentinel's own version only, no row is ever lost, neither one that was there nor one that indexing wrote since |
| SchemaWipe.BootRunsUnlessItDies | backend/src/dotmd/ingestion/pipeline.py:3991-4055 | a boot leaves its version running exactly unless the check dies before its last commit |
| SchemaWipe.InterruptedWipeResumes | backend/src/dotmd/ingestion/pipeline.py:4004-4050 | an interrupted wipe resumes, however many boots die in between, to the fully wiped store with the current sentinel |
| SchemaWipe.UnmarkedStoreKeepsTheRest | backend/src/dotmd/ingestion/pipeline.py:4010-4016 | without a sentinel the caches, graph and meta fingerprints are free of old rows afterwards iff the check wiped or they were empty before |
| SchemaWipe.UncheckedIndexing | backend/src/dotmd/ingestion/pipeline.py:588-595 | indexing that writes a vector or a chunk fingerprint after a boot that skipped the check keeps the sentinel honest iff it names no version, a wipe in progress, or the running version |
| SchemaWipe.Pipeline.CheckSchemaVersion | backend/src/dotmd/ingestion/pipeline.py:3991-4055 | performs exactly the check's commits, or dies after a prefix of them |
| GlinerSegments.Split | backend/src/dotmd/extraction/ner.py:332-370 | every word once and in order, no segment over 320 words, no sentence within the limit torn, and no two neighbours that fit together except behind the tail of a cut sentence |
| GlinerSegments.Slices | backend/src/dotmd/extraction/ner.py:354-360 | a long sentence's slices rebuild it, all of 320 words but the last |
| GlinerSegments.SegmentsForChunks | backend/src/dotmd/extraction/ner.py:373-380 | one owner id per segment, chunk after chunk |
| GlinerSegments.PredictionsByChunk | backend/src/dotmd/extraction/ner.py:383-390 | each id maps to the predictions of the segments it owns, in order |
| GlinerSegments.RegroupedByChunk | backend/src/dotmd/extraction/ner.py:373-390 | regrouped predictions are those of the chunk's own segments in order when chunk ids are distinct |
| OverlapWindows.Overlap | backend/src/dotmd/ingestion/chunker.py:73-84 | the longest tail within the overlap budget, and never empty |
| OverlapWindows.WindowAt | backend/src/dotmd/ingestion/chunker.py:64-93 | each window starts inside the one before and ends strictly later |
| OverlapWindows.WindowCost | backend/src/dotmd/ingestion/chunker.py:64-93 | every window costs at most max(max_tokens, max(overlap_tokens, m) + m) for the largest sentence cost m |
| OverlapWindows.DroppingOverlapsRebuilds | backend/src/dotmd/ingestion/chunker.py:64-93 | dropping the overlaps rebuilds the sentence list |
| OverlapWindows.WindowsAreUnique | backend/src/dotmd/ingestion/chunker.py:64-93 | no other list of windows meets this description |
| OverlapWindows.SplitWithOverlap | backend/src/dotmd/ingestion/chunker.py:38-93 | segments over the budget are cut into their sentences, one segment after another; each piece is a window's sentences with single spaces between them, the windows starting at the beginning, covering the list, overlapping by the longest affordable tail and closing only when the next sentence breaks the budget; without segments the text itself, or nothing when blank |
| Sections.ParseSections | backend/src/dotmd/ingestion/chunker.py:96-128 | the preamble unless it is blank and a heading follows, then one section per heading with its body and offset |
| Sections.SectionsRebuildText | backend/src/dotmd/ingestion/chunker.py:96-128 | section bodies between heading spans rebuild the text, apart from a blank preamble |
| Sections.SectionHasItsHeading | backend/src/dotmd/ingestion/chunker.py:96-128 | each section carries the level and text of its heading and the offset where that ends |
| Sections.SlotMeaning | backend/src/dotmd/ingestion/chunker.py:189-200 | slot j holds the latest level-j heading with no shallower heading since, or nothing |
| Sections.StackIsOpenHeadings | backend/src/dotmd/ingestion/chunker.py:189-202 | the stack read by slots is the list of still open headings read by position |
| Sections.HierarchyIsEnclosingHeadings | backend/src/dotmd/ingestion/chunker.py:189-202 | a section's hierarchy is its chain of enclosing headings, outermost first, ending with its own |
| Sections.SectionTextReads | backend/src/dotmd/ingestion/chunker.py:204-218 | a section's text is its enclosing headings in order with ' > ' between them, then its stripped body, with a blank line between the two when both are there |
| Joining.JoinedReads | backend/src/dotmd/ingestion/chunker.py:212-217 | joined text is the parts in order with one separator between neighbours and nothing else |
| Sections.EmptySections | backend/src/dotmd/ingestion/chunker.py:204-218 | a section is passed over exactly when its body is blank and it has no heading text |
| Sections.ChunkFile | backend/src/dotmd/ingestion/chunker.py:131-258 | the chunks are the numbered cuts of the parsed sections: of each section's text, headings and body as above, whole if it fits the budget and in windows if not, each with its section's hierarchy and level; the path plays no part |
| Sections.ChunkTextsAreThePieces | backend/src/dotmd/ingestion/chunker.py:220-258 | the chunks' texts are the pieces of the sections, one section after another, none lost or added |
| Sections.ChunksAreNumbered | backend/src/dotmd/ingestion/chunker.py:23-35 | chunk indices are 0..n-1 and ids are distinct |
| Sections.ChunkHasItsHeadings | backend/src/dotmd/ingestion/chunker.py:220-258 | every chunk carries the enclosing headings of the section it was cut from |
| Sections.EnterHeading | backend/src/dotmd/ingestion/chunker.py:195-200 | a heading takes its slot, clears the deeper ones and keeps the shallower ones |
| Ndcg.NdcgInUnitInterval | backend/devtools/reranker_quality_bench.py:211-219 | nDCG lies in [0, 1] for every ranking of distinct ids, every label sets, every cut and every positive non-rising discount |
| Ndcg.NdcgIsOneExactly | backend/devtools/reranker_quality_bench.py:211-219 | with a strictly falling discount nDCG is 1 iff there are labels, k > 0, and up to the cut the relevant ids come first, then the other maybe ids, then none of either |
| Ndcg.MaybeBeforeRelevant | backend/devtools/reranker_quality_bench.py:184-219 | an instance with values: a maybe id before a relevant one scores (d0 + 2 d1) / (2 d0 + d1), and 1/2 at a cut of one |
| Ndcg.NothingToFind | backend/devtools/reranker_quality_bench.py:211-219 | without labels or with a cut at zero the score is 0 |
| Ndcg.GapBound | backend/devtools/reranker_quality_bench.py:207-208 | the rearrangement step: what a prefix lacks in gain costs at least that much at the last discount |
| Ndcg.PrefixBelowIdeal | backend/devtools/reranker_quality_bench.py:199-204 | no prefix of distinct ids gains more than the ideal prefix of its length |
| Ndcg.AtMostOneExactly | backend/devtools/reranker_quality_bench.py:211-219 | for every ranking, repeats included: nDCG is at most 1 under every positive non-rising discount if and only if no prefix of the gains sums to more than the ideal prefix of its length |
| Ndcg.RepeatedIdExceedsOne | backend/devtools/reranker_quality_bench.py:211-219 | an instance: a ranking that repeats a relevant id scores above 1 |
| Ndcg.ResolveLabels | backend/devtools/reranker_quality_bench.py:174-181 | the relevant ids are those that relevant labels mean, the maybe ids those that maybe labels mean and relevant ones do not; an error iff some label is neither a chunk id nor a text found in exactly one chunk of its file |
| Doubling.Filter | backend/src/dotmd/api/service.py:1256-1279 | active ids in order, inactive ones counted, and the first id without provenance as the error |
| Doubling.CollectActive | backend/src/dotmd/api/service.py:1212-1254 | stops in the first round that is not a doubling, returns that round's result, and the pool of the round before the last never exceeds the number of ids |
| Doubling.NoRoundIsWasted | backend/src/dotmd/api/service.py:1231-1254 | every round before the last found fewer active ids than asked for, filled its pool, twice that of the round before, and found more ids than it |
| Doubling.RoundsAreLogarithmic | backend/src/dotmd/api/service.py:1231-1254 | for r rounds the first pool doubled r - 2 times is at most the number of candidates |
| Doubling.FillsOrCompletesExactly | backend/src/dotmd/api/service.py:1231-1254 | without enrichment every search, whatever ids are active, ends filled or with every active candidate of every engine, if and only if no round that stalls leaves out an id of an engine; stalling is read off the rankings alone: every earlier round fills its pool and gains, this one fills its pool and gains nothing |
| Doubling.ExitMeaning | backend/src/dotmd/api/service.py:1231-1254 | the result is filled, holds every active candidate of every engine, misses provenance, or comes from a round that stalls |
| Doubling.NothingNew | backend/src/dotmd/api/service.py:1250-1251 | without enrichment a doubling that gained nothing in number found no new id |
| Doubling.SingleEngineNeverStalls | backend/src/dotmd/api/service.py:1231-1254 | with one engine no round stalls |
| Doubling.SingleEngineFillsOrCompletes | backend/src/dotmd/api/service.py:1231-1254 | so with one engine the result is filled or complete |
| Doubling.TwoEnginesMissAnActive | backend/src/dotmd/api/service.py:1250-1251 | for every request there are two engines for which the search stops in round two and misses an active candidate of both |
| Doubling.PoolSize | backend/src/dotmd/api/service.py:1203-1210 | the largest of the configured pool, five times top_k and top_k + 50; applying it again changes nothing |
| Blend.BlendRerank | backend/src/dotmd/api/service.py:796-837 | the fused list when the reranker returns nothing; else in descending order, ties in this order: the reranked items with blended scores, then the fused items it did not return, unchanged |
| Blend.BlendIsPermutation | backend/src/dotmd/api/service.py:822-837 | the result is a permutation of the fused ids iff the reranker returns distinct ids out of them |
| Blend.BlendKeepsIds | backend/src/dotmd/api/service.py:822-837 | whatever the reranker returns, its ids stay as often as it returned them and no other fused id is lost |
| Blend.BlendedScores | backend/src/dotmd/api/service.py:807-820 | every reranked score lies in [0, 1], ranges of zero included; the others keep their fusion score |
| Blend.ExtremesOfBlend | backend/src/dotmd/api/service.py:815-820 | best on both scores gives 1, worst on both 0, best for the reranker alone 0.6, for fusion alone 0.4 |
| Blend.BetterRanksAbove | backend/src/dotmd/api/service.py:815-837 | an item at least as good on both scores and better on one ranks strictly above |
| Blend.SortedDescends | backend/src/dotmd/api/service.py:836-837 | the result is in descending order of score |
| Blend.SortIsStable | backend/src/dotmd/api/service.py:836-837 | items of equal score keep their order |
| Blend.BoundsOf | backend/src/dotmd/api/service.py:804-812 | the bounds enclose every reranked item's two scores and are themselves such scores, ids without a fusion score apart; 0 and 1 when none has one |
| Blend.BlendIsLinear | backend/src/dotmd/api/service.py:814-820 | an item p of the way up the reranker's range and q up fusion's scores 0.6 p + 0.4 q; a range of zero and a missing fusion score count as nothing |

## Left out

- NerCache.Extract: does not state the order of the entities, nor which spelling of a name is kept for a key.
- NerAgreement.CachedAgreesWithUncached: says nothing of MENTIONS weights, which do not agree in general; MentionWeights gives the exact condition.
- IndexRuns.ReachableIndexIsFromScratch: says nothing of the refs of a path a crash has torn; IndexCommits.IndexedRefs and ReindexAfterCrashExactly say what becomes of them.
- IndexCommits.CommitMeaning: counts a path as torn when a crash may have left it wrong; it may be right all the same.
- IndexStore.Pipeline.IndexOne: the method does not die between commits; IndexCommits states the commits it is made of.
- DeltaRows.RelationMeaning: covers stores whose relations sit under their own identifiers, or batches that share no file.
- DeltaMeaning.SyncIsFixpoint: leaves out graph rows aimed at the embeddings table, on which `write_graph` raises.
- OverlapWindows.WindowCost: bounds the summed sentence costs, not the estimate of the joined text.
- ChunkTables.CleaningIsSafe: covers chunk, holder and filesystem provenance rows; full-text, vector and graph rows follow the same ids but are not modelled.
- Surreal mode of purge and cleanup, and the manifest construction from database rows and sources.
- The codec of record ids, timestamps and normalised columns inside payload preparation.
- The applied counts per phase and the skipped phases in the result of a sync, and the error text in its state.
- Progress timing, ETA text, and exceptions raised by a progress callback.
- The failure path of an extraction cache lookup, which falls back to running the model on every chunk.
- Rank fusion itself, federated quota merging, query expansion, hydration of results and the top-k cut after blending.
- A negative cut in `ndcg_at`, for which Python counts from the end.
- Writing the remote manifest before the local transaction of an application batch; the model is the local store.
- Purging an application source, feedback, statistics, acronyms and the knowledge-graph population.
- SurrealDB, SQLite, model servers, file system, HTTP, logging, threads and timeouts.
- Settings, OAuth, MCP, CLI and REST plumbing, source registries, the test double of the delta writer, and the other development tools: thin guards that would only add easy members.
