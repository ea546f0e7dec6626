# A verified model of the ingestion and answering core

This project models, in Dafny, the parts of the repository whose correctness does not show in any single function:

* **Ingestion protocol** (`IngestTables`, `TaskQueue`, `Publication`, `Catalogue`, `IngestRuns`): jobs, leases,
  documents, generations, vector rows, chunks and epochs as tables, and every API call, worker operation and reaper pass
  as one guarded atomic step. `IngestDatabase` has the same operations as programs over mutable tables, each proved to
  take exactly one such step. `Leases`, `Lineage`, `Visibility` and `Attempts` prove what holds over every run of any
  number of workers: fencing, one linear history per document, a visible set that is always one generation, and the
  attempt budget with its delays;
  `PublicationDecisions` says exactly when a publication succeeds, `ChunkIds` orders the ids of its chunks, and
  `RowEffects` says what each step writes, how long a lease lasts and which vector a row carries.
* **Answer path** (`CorpusEpochs`, `AnswerCache`, `RosterEvidence`, `EvidencePacking`, `Answers`, `AnswerDecisions`): every read of the
  database and of Redis happens at its own moment of one history; the theorems say when an answer, or a cached one, may be
  given while commits interleave, and what it shows of the passages that were read.
* **Embedding migration** (`ShadowTables`, `ShadowStore`, `Migration`, `MigrationEffects`): build, ready, activate and go
  back, guarded by fingerprints, interleaved with publications; and one undisturbed migration from end to end.
* **Admission gate** (`AdmissionScripts`, `RequestGate`, `AdmissionLedger`, `GateEffects`): the three scripts over five
  sorted sets with expiring keys refine a plain ledger of leases and grants; and their decisions in numbers.
* **Search** (`Access`, `HybridSearch`, `SearchRanking`): the SQL access condition against the access rule, and the fused
  ranking of the exact dense channel and the lexical channel.
* **Chunker** (`ChunkText`, `HardSplit`, `ProseUnits`, `ProsePacking`, `ProseEffects`, `SourceSpans`, `TextRuns`, `Headings`,
  `ChunkElements`, `ChunkTrace`, `ChunkBudgets`, `ChunkFailures`, `TableChunks`, `TableBudgets`, `TableFailures`,
  `TableEffects`, `DocumentTables`, `ChunkContents`): splitting, packing with overlap, source spans, tables and budgets for an arbitrary
  token counter. `ChunkContents.ElementStaysWhole` says that no part of an element is lost.
  `ChunkBudgets.ChunksExactlyWhen` says for a whole document exactly when chunking succeeds, and `DocumentTables` puts
  the table splitter in its place.
* **Texts and codecs** (`PythonText`, `TableText`, `SourceQuotes`, `Blocks`, `BlockContents`, `Decimals`, `EncryptedBackup`): the
  whitespace-normalised quotation lookup, the block splitter, the markdown table round trip, and the framing of encrypted
  backups over an ideal cipher.

Where the source loops and updates, the model has methods and classes proved equal to specification functions; the
theorems are lemmas about those functions. `Prelude` holds optional values, results and keyed insertion. Lemmas whose names
end in `Means`, `Writes` or `ExactlyWhen` say in columns and numbers what a definition decides or a step writes, so that no
theorem rests on the name of a definition alone; the shortest of them have no row below.

## Conventions

* Hashes are represented by what they are taken of, so equal hashes mean equal contents. Lease tokens, generation ids,
  new document ids, admission tokens, names of kept tables and backup prefixes are fresh by assumption (`Fresh`, `Allowed`,
  `Ideal`). Clocks are integers passed to the steps.
* The token counter is any function from texts to numbers. Regular expressions enter as functions that give sorted
  cut points or decide about a line; so does the choice of headers that name what a question asks for.
* `char` stands for one Python character. Whitespace and line separators are those of `str.isspace` and
  `str.splitlines`.

## Where the code does less than it seems to promise

* Chunking can fail for a positive target within the limit: without a heading, a target below the token count of a
  single character cannot be met, so targets of 1 and 2 fail on short texts (`ChunkFailures.SmallTargetRaises`).
  `ChunkFailures.NeverRaisesExactlyWhen` gives the exact condition; its forward direction also uses that longer texts do
  not count less than their suffixes.
* A section path that ends with its separator and is too long as a whole has an empty nearest heading, for which
  `_bounded_heading` takes the first of no pieces (`Headings.EmptyHeadingExactlyWhen`). Chunking fails with it exactly when
  it comes to an element under such a path (`ChunkFailures.EmptyHeadingRaisedExactlyWhen`, with the element of
  `ChunkFailures.HeadlessElementRaises`). The block splitter makes no such path (`ChunkFailures.BlocksHaveHeadings`); other
  loaders may.
* A table cell label that counts exactly `max_tokens - 4` passes the test for the wide form and is then refused by it, so
  the table fails (`TableChunks.WideTableGap` says exactly when) although the compact form may exist, as for the table of
  `TableFailures.GapTableFails`.
* The sums by which table rows are packed leave out the line feeds between them, so a chunk of several rows can exceed the
  limit, and the last split then refuses the table (`DocumentTables.TightTableRaises`). `TableBudgets.RowFormBound` says by
  how much, `TableBudgets.RowsFitExactlyWhen` exactly when it does not happen to a given table,
  `TableBudgets.RowFormFitsExactlyWhen` when it cannot happen to any, and `TableBudgets.RoomyRowsFit` what of the rows
  suffices.
* A row that two chunks of a table share is taken out of the later one before the budget is applied. If the earlier one
  does not fit, the row is lost although the later one had it (`EvidencePacking.StaffRowLost`);
  `EvidencePacking.LostExactlyWhen` says exactly when, `EvidencePacking.AllRowsReach` when no row is.
* A change of the corpus that is noticed before a review is not written to the trace, so a general answer may follow; after
  a change noticed at any other check none does (`Answers.ReviewChangeUnnoted`).
* Tombstoning vectors does not advance an epoch, so equal epochs do not rule out that rows have disappeared; they rule out
  that anything new has appeared (`CorpusEpochs.EqualEpochsNothingNew`, `CorpusEpochs.VisibleRowsGoSilently`). The answer
  path validates its sources separately.
* For an empty user id the SQL fragment adds no access condition for non-admins. `Access.PushdownExactlyWhen` says exactly
  for which callers fragment and rule agree.
* Without an old profile, the table kept by the first activation cannot be activated (`Migration.NoRollbackWithoutProfile`).

## Model

| member | source | states |
|---|---|---|
| IngestDatabase.Database.ClaimNext | app/ingest/adapters/queue/postgres.py:29-51 | claims the oldest due job nobody has locked, with the new token and generation; claims none only when none is due |
| IngestDatabase.Database.Enqueue | app/ingest/adapters/queue/postgres.py:19-27 | queues a job again and takes its token away; refused when the document has another active job |
| IngestDatabase.Database.SetStage | app/ingest/adapters/queue/postgres.py:53-62 | changes the stage under a live token, else reports a stale lease and changes nothing |
| IngestDatabase.Database.Renew | app/ingest/adapters/queue/postgres.py:123-133 | extends the expiry under a live token, else reports a stale lease and changes nothing |
| IngestDatabase.Database.Complete | app/ingest/adapters/queue/postgres.py:64-74 | ends the job under a live token, else reports a stale lease and changes nothing |
| IngestDatabase.Database.RetryOrDead | app/ingest/adapters/queue/postgres.py:76-98 | one more attempt: queued again with a delay, or dead at the limit; returns the new status |
| IngestDatabase.Database.ReapExpired | app/ingest/adapters/queue/postgres.py:100-121 | fails exactly the unlocked running jobs whose lease has expired, and returns how many |
| IngestDatabase.Database.DeleteByDocument | app/shared/adapters/pgvector/vector_store.py:219-235 | tombstones all vector rows of one document and counts those that were live |
| IngestRuns.QueueTouchesOnlyJobs | app/ingest/adapters/queue/postgres.py:19-133 | the queue and job creation write no table but the jobs table |
| IngestRuns.LeaseOrigin | app/ingest/adapters/queue/postgres.py:29-51 | a job that holds a lease after a step held the same lease before, or has just been claimed with it |
| Leases.LeaseInvAlways | app/ingest/adapters/queue/postgres.py:19-133 | in every state of every run: running exactly when there is a token, tokens and generation ids unique, one active job per document |
| Leases.TokenNamesOneJob | app/ingest/adapters/queue/postgres.py:53-98 | at any moment a token is valid for at most one job |
| Leases.FencedForever | app/ingest/adapters/queue/postgres.py:29-51 | a token once lost is never held again, over any interleaving |
| Leases.StaleWorkerChangesNothing | app/ingest/adapters/queue/postgres.py:53-133 | a worker whose job was reaped, retried, enqueued again, finished or removed changes no row with its token, now or later |
| Attempts.ClaimsAccounted | app/ingest/adapters/queue/postgres.py:76-121 | claims equal recorded attempts plus the one in progress or done, including reaped and superseded runs |
| Attempts.ClaimsBounded | app/ingest/adapters/queue/postgres.py:29-121 | a job that nobody enqueues by hand is claimed at most max_attempts times |
| Attempts.NoClaimBeforeDelay | app/ingest/adapters/queue/postgres.py:29-121 | after the k-th failure no claim starts before retry_delay_seconds(k) have passed |
| Attempts.DelaySchedule | app/ingest/ports/task_queue.py:18-25 | the delay is 2^k seconds, capped at 60 from the sixth failure on, and never goes down |
| IngestDatabase.Database.Publish | app/ingest/adapters/publication.py:27-175 | one transaction: either exactly the specified step, or no table changes and the reason is returned |
| IngestDatabase.Database.Admit | app/ingest/adapters/publication.py:28-69 | the profile, lease, version and parent checks, in order, with their errors |
| IngestDatabase.Database.Prepare | app/ingest/adapters/publication.py:70-147 | row by row, the new contents of the vector and chunk tables, or a key violation |
| IngestDatabase.Database.Commit | app/ingest/adapters/publication.py:148-175 | head, indexed version, epoch and job change together, if the lease still holds at the end |
| IngestDatabase.Validate | app/ingest/adapters/publication.py:30-42 | accepts exactly nonempty, aligned, identical, finite and correctly hashed chunks and points |
| IngestDatabase.InsertVectorRows | app/ingest/adapters/publication.py:90-120 | inserts one live row per chunk with the document's current permissions, or fails on a taken id |
| IngestDatabase.InsertChunkRows | app/ingest/adapters/publication.py:121-142 | inserts one chunk row per chunk, or fails on a taken id |
| Lineage.PublishEffect | app/ingest/adapters/publication.py:70-152 | a successful publication adds one generation whose parent is the head, and makes it the head at the current version |
| Lineage.LineageAlways | app/ingest/adapters/publication.py:66-89 | in every state of every run the generations of a document are one parent chain from one root to the active generation |
| Lineage.NoSharedParent | app/ingest/adapters/publication.py:66-69 | no two generations of a document share a parent, so there is one root |
| Lineage.VersionsNeverDecrease | app/ingest/adapters/publication.py:148-152 | content version and indexed version never decrease while the document exists |
| Lineage.IndexedVersionOfHead | app/ingest/adapters/publication.py:148-152 | the indexed version is the version of the head generation and at most the content version |
| Lineage.PublishedVersionIsCurrent | app/ingest/adapters/publication.py:61-65 | what is published describes the document's current content |
| Lineage.SupersededJobNeverPublishes | app/ingest/pipeline/runner.py:70-78 | a job pinned to a superseded version never publishes, however often it runs |
| Visibility.RunnerPointsCarryText | app/ingest/pipeline/runner.py:373-411 | the points the runner builds carry the text of their chunks |
| Visibility.PublishRows | app/ingest/adapters/publication.py:90-147 | the vector table after a publication: old rows, unversioned ones retired, and one new live row per chunk |
| Visibility.PublishChunks | app/ingest/adapters/publication.py:121-142 | the chunks table after a publication holds the new chunks and no older ones of the document |
| Visibility.VisibleAlways | app/shared/adapters/pgvector/profile.py:13-23 | the row invariant behind the view holds in every state of every run |
| Visibility.PublishedDocumentsShowOneGeneration | app/shared/adapters/pgvector/profile.py:13-23 | the view exposes of a published document exactly its head generation (ids, texts, current permissions, same as the chunks table), or nothing |
| Visibility.SearchableUntilWithdrawn | app/ingest/adapters/publication.py:143-152 | once published, a document stays searchable until tombstoned or deleted, whatever interleaves |
| Visibility.ChunkIdsDistinctAcrossGenerations | app/ingest/adapters/publication.py:90-120 | two generations never share a chunk id |
| Visibility.DeletionRemembered | app/shared/adapters/postgres/metadata_store.py:556-595 | a removal is recorded for ever |
| Visibility.RemovedDocumentStaysInvisible | app/api/ingest_routes.py:1101-1105 | after the document row is gone nothing of it is visible again, even if a publication came between tombstone and removal |
| Prelude.InsertAllContents | app/ingest/adapters/publication.py:90-142 | inserting rows one by one succeeds exactly when all keys are new and distinct, and adds exactly them |
| PublicationDecisions.AdmitsExactlyWhen | app/ingest/adapters/publication.py:28-69 | the checks pass exactly when the input is accepted under the active profile, the worker holds its job, and the document is as it was read |
| PublicationDecisions.PublishesExactlyWhen | app/ingest/adapters/publication.py:27-175 | in every reachable state a publication succeeds if and only if these checks pass, the lease still holds at the end, and no chunk id is taken; the generation id is never the obstacle |
| ChunkIds.PaddedIsFixed | app/shared/ids.py:39-50 | zero-padded rendering is the fixed number of last digits |
| ChunkIds.ChunkIdsSort | app/shared/ids.py:39-50 | the chunk ids of one document are distinct and sort in the order of their ordinals, for any number of chunks |
| ChunkIds.OwnersDoNotMeet | app/shared/ids.py:39-50 | owners with equally long ids never share a chunk id |
| ChunkIds.FinalizeChunks | app/shared/domain/models.py:213-239 | stamps ids and hashes in place on exactly the records that have not both |
| ChunkIds.FinalizedOnce | app/shared/domain/models.py:213-239 | stamping again changes nothing; the ids of new chunks sort by ordinal and the hashes are those of the texts |
| Decimals.ValueOfDecimal | app/shared/adapters/postgres/metadata_store.py:39-46 | decimal rendering can be read back |
| Decimals.PairInjective | app/shared/adapters/postgres/metadata_store.py:39-46 | an epoch string determines both of its revisions |
| CorpusEpochs.CommitAdvancesEpoch | app/ingest/adapters/publication.py:163-167 | a commit advances the revision of its scope by one, and nothing else does |
| CorpusEpochs.QuietStep | app/ingest/adapters/publication.py:163-167 | a step without a commit in scope shows a tenant nothing new, and changes nothing it sees unless vectors are tombstoned |
| CorpusEpochs.EqualEpochsNoCommit | app/shared/adapters/postgres/metadata_store.py:39-46 | equal epochs at two moments mean no commit in the tenant's or the global scope between them |
| CorpusEpochs.EqualEpochsNothingNew | app/retrieval/rag/query.py:961-987 | while the epoch stands still a tenant sees nothing new |
| CorpusEpochs.VisibleRowsGoSilently | app/shared/adapters/pgvector/vector_store.py:219-235 | in any reachable state every row a tenant sees can go while the epoch stands still: tombstoning is a step, hides it and commits nothing |
| CorpusEpochs.EqualEpochsSomethingGone | app/shared/adapters/pgvector/vector_store.py:219-235 | and such states exist: a run with equal epochs in which a visible row goes |
| CorpusEpochs.RowsImmutable | app/ingest/adapters/publication.py:90-147 | stored vector rows never change apart from being marked deleted |
| CorpusEpochs.VisibleTextImmutable | app/ingest/adapters/publication.py:90-147 | a chunk id visible at two moments carries the same text at both |
| AnswerCache.EntriesHaveOrigins | app/retrieval/adapters/cache/redis_stack.py:183-209 | every entry found in the cache shows the evidence gathered from passages that were read at earlier moments |
| AnswerCache.InvalidatedEntriesNeverMatch | app/retrieval/adapters/cache/redis_stack.py:142-220 | an entry whose counters were read before an invalidation never matches a lookup whose two counter reads both follow it |
| Answers.Lookup | app/retrieval/rag/query.py:971-987 | a hit is used if and only if it matches the counters read, its payload fits question, size, profile and epoch, and its sources are still valid |
| Answers.ServedHolds | app/retrieval/rag/query.py:973-986 | what a served entry shows rests on chunks that are published, permitted and read as when they were gathered, and nothing in scope committed between its epoch read and this one |
| Answers.Generate | app/retrieval/rag/query.py:548-787 | there is a reply if and only if every recheck passes, and it is the last one of the exchange; and which failures are written to the trace as a change |
| Answers.Retrieve | app/retrieval/rag/query.py:274-443 | the passages are what each search, at its own moment, or else the expansion could read for this caller, and the evidence is what is arranged and packed of them |
| Answers.Conclude | app/retrieval/rag/query.py:495-797 | evidence leads to an answer if and only if there is some, it is valid before the first call, every recheck passes, and the sources used are still valid |
| Answers.AnswerQuery | app/retrieval/rag/query.py:938-1037 | an answer is given as answered only if nothing in scope committed from the epoch read to the last check and what it shows rests on chunks that are still published, permitted and unchanged, from the cache only if nothing committed between the two epoch reads; and exactly when each is given, or a general one |
| Answers.EvidenceStaysValid | app/retrieval/rag/query.py:770-797 | evidence read while nothing in scope commits and nothing is tombstoned passes every recheck |
| Answers.AnsweredWhenUndisturbed | app/retrieval/rag/query.py:938-1037 | then an answer whose last reply names sources of the evidence is always given |
| Answers.NewEntry | app/retrieval/rag/query.py:847-854 | what is put into the cache records the epoch and the evidence it was built from |
| Answers.AnsweredHolds | app/retrieval/rag/query.py:961-987 | two passed rechecks make an answer over passages read in between a sound one |
| Answers.ValidatedCurrent | app/shared/adapters/pgvector/vector_store.py:256-273 | what was gathered earlier reads the same in the state in which its sources are found valid |
| Answers.ReviewChangeUnnoted | app/retrieval/rag/query.py:627-639 | a change noticed before a review withholds the answer, but leaves no trace that would withhold a general one |
| RosterEvidence.RosterHasHeader | app/retrieval/rag/context.py:28-36 | a roster has a rule with a line above it, so the second search for the rule never fails |
| RosterEvidence.TrimRosters | app/retrieval/rag/context.py:158-176 | the loop with its remembered rows leaves each roster exactly the rows that no earlier one with the same header has |
| RosterEvidence.TrimmingKeepsOrder | app/retrieval/rag/context.py:168-176 | a trimmed roster keeps its header and a subsequence of its rows |
| RosterEvidence.NoRowLost | app/retrieval/rag/context.py:168-176 | trimming loses no row: that roster or an earlier one with the same header shows it |
| RosterEvidence.NoRowTwice | app/retrieval/rag/context.py:168-176 | and it shows no row twice under one header |
| RosterEvidence.Arrange | app/retrieval/rag/context.py:150-176 | rosters first and trimmed, everything else after them as it was read |
| RosterEvidence.ArrangedOnce | app/retrieval/rag/context.py:157 | every passage is shown once |
| EvidencePacking.PackEvidence | app/retrieval/rag/grounding.py:113-182 | the loop packs exactly the specified positions |
| EvidencePacking.PackedExactly | app/retrieval/rag/grounding.py:164-181 | exactly when a passage is packed: it is not blank, none like it is packed before it, and what is packed before leaves room for it |
| EvidencePacking.EvidenceShows | app/retrieval/rag/context.py:150-197 | everything the model is given is a passage as it was read, or a roster with its header and some of its rows in order |
| EvidencePacking.EvidenceDistinct | app/retrieval/rag/context.py:190-197 | no passage is given twice |
| EvidencePacking.LostExactlyWhen | app/retrieval/rag/grounding.py:164-181 | a row of a packed roster is kept from the model exactly when an earlier roster with the same header shows it and is not packed |
| EvidencePacking.AllRowsReach | app/retrieval/rag/grounding.py:164-181 | when the budget holds all rosters, every row of every roster reaches the model |
| EvidencePacking.StaffRowLost | app/retrieval/rag/context.py:168-176 | a concrete table in two chunks of which the second is packed without a row that it was read with and that the first, which is not packed, has |
| Answers.PublishedRowsConsistent | app/shared/adapters/pgvector/profile.py:13-23 | the view gives the permission columns and the payload of a published document the same values, so SQL condition and access rule agree on them |
| ShadowStore.Database.AddBatch | app/shared/adapters/pgvector/migration.py:44-140 | writes one embedded batch: the build's own rows with new vectors and the new profile, or nothing |
| ShadowStore.Database.Activate | app/shared/adapters/pgvector/migration.py:143-230 | the checks in order, then table, migration rows, profile and epoch change together, or nothing does |
| Migration.BatchRows | app/shared/adapters/pgvector/migration.py:44-140 | a batch adds exactly its rows, each with its own vector |
| Migration.InvAlways | app/shared/adapters/pgvector/migration.py:44-230 | builds hold what they have copied and ready migrations their whole corpus, over all builds, publications and activations |
| Migration.ActiveVectorsHaveProfileDimension | app/ingest/adapters/publication.py:35-40 | every active vector has the dimension of the active profile, over every run |
| Migration.ActivatableExactlyWhenUnchanged | app/shared/adapters/pgvector/migration.py:148-177 | a migration can be activated if and only if it is ready and the corpus is the one it was built from |
| Migration.ActivationChangesNothingOrSwaps | app/shared/adapters/pgvector/migration.py:143-230 | an activation changes nothing, or swaps in the same rows except for embeddings and the profile in the payload |
| Migration.RollbackExactlyWhileUnchanged | app/shared/adapters/pgvector/migration.py:178-209 | the table kept by a switch can be activated if and only if the corpus is what it was right after the switch, and that restores it |
| Migration.ImmediateRollbackRestores | app/shared/adapters/pgvector/migration.py:178-230 | activating the returned previous table right away restores the original table and profile exactly |
| Migration.NoRollbackWithoutProfile | app/shared/adapters/pgvector/migration.py:193-203 | without an old profile the kept table cannot be activated |
| RequestGate.Gate.Acquire | app/shared/adapters/request_gate.py:12-32 | the script, command by command: prunes, checks five limits, and adds the token to all five sets or to none |
| RequestGate.Gate.Renew | app/shared/adapters/request_gate.py:33-45 | extends the token in the three active sets if all of them still hold it |
| RequestGate.Gate.Release | app/shared/adapters/request_gate.py:46-49 | removes the token from the three active sets |
| AdmissionLedger.CheckDecides | app/shared/adapters/request_gate.py:12-32 | checking changes nothing live, and passes exactly when every key is below its limit |
| AdmissionLedger.ExpiryRemovesOnlyStale | app/shared/adapters/request_gate.py:23-30 | the expiry of a key never removes an entry that pruning would have kept |
| AdmissionLedger.StepAgrees | app/shared/adapters/request_gate.py:12-49 | every script is one step of a plain ledger of leases and grants, with the same answer |
| AdmissionLedger.AlwaysConsistent | app/shared/adapters/request_gate.py:12-49 | store and ledger agree in every state of every run |
| AdmissionLedger.DecisionsAreTheLedgers | app/shared/adapters/request_gate.py:12-45 | acquisitions and renewals are answered exactly as the ledger answers them |
| AdmissionLedger.LiveNeverExceedsLimits | app/shared/adapters/request_gate.py:12-32 | live tokens never exceed the global, tenant and user limits, at any later moment |
| AdmissionLedger.AcceptedWithinRates | app/shared/adapters/request_gate.py:12-32 | accepted acquisitions in any 60 second window stay within the tenant and user rates |
| AdmissionLedger.RejectionChangesNothingLive | app/shared/adapters/request_gate.py:12-32 | a rejected acquisition leaves every live entry as it was |
| AdmissionLedger.GlobalTokensHaveOwners | app/shared/adapters/request_gate.py:12-49 | a live token of the global set is live for a tenant and one of its users |
| AdmissionLedger.UserTokensCountEverywhere | app/shared/adapters/request_gate.py:12-49 | a token live for a user is live until the same moment for its tenant and globally |
| AdmissionLedger.LiveTokensHaveOneOwner | app/shared/adapters/request_gate.py:12-49 | no token is live for two tenants or two users, so the unions are disjoint |
| Access.PushdownIsAccessRule | app/shared/adapters/pgvector/vector_store.py:67-91 | for a caller with a user id the SQL fragment admits exactly the rows the access rule admits |
| Access.PushdownExactlyWhen | app/retrieval/rag/access.py:23-64 | fragment and rule agree on all rows if and only if the caller is an admin, has a user id, or selects no document |
| HybridSearch.AddDense | app/shared/adapters/pgvector/vector_store.py:499-509 | the scores of the dense channel by reciprocal rank, in order of first appearance |
| HybridSearch.AddLexicalHit | app/shared/adapters/pgvector/vector_store.py:511-515 | one lexical hit joins the table or adds to the score it has |
| HybridSearch.SortDown | app/shared/adapters/pgvector/vector_store.py:517 | descending by score, equal scores in their original order |
| HybridSearch.Fuse | app/shared/adapters/pgvector/vector_store.py:499-528 | the first top_k of the reciprocal-rank-fused order of the two lists |
| HybridSearch.Search | app/shared/adapters/pgvector/vector_store.py:414-528 | a search returns what its specification says, given the rows the two queries return, or those of the dense one alone when the lexical one fails |
| HybridSearch.LexicalFailureKeepsDense | app/shared/adapters/pgvector/vector_store.py:453-469 | when the lexical query fails, a search with text gives the nearest rows in the order of their distance |
| HybridSearch.TopUnique | app/shared/adapters/pgvector/vector_store.py:347-412 | the first n rows in a total order are unique, so the database has no choice |
| HybridSearch.SearchDependsOnlyOnVisibleRows | app/shared/adapters/pgvector/vector_store.py:414-528 | changing, adding or removing rows the caller cannot see changes nothing in the result |
| HybridSearch.HitsAreVisible | app/shared/adapters/pgvector/vector_store.py:414-528 | hits are distinct, visible, permitted, and at most top_k |
| HybridSearch.MissedRowsRankBehind | app/shared/adapters/pgvector/vector_store.py:347-379 | a visible row that was not fetched ranks behind every row that was |
| HardSplit.FindLongest | app/ingest/pipeline/chunker.py:547-555 | the bisection loop returns what its recursive specification returns |
| HardSplit.Split | app/ingest/pipeline/chunker.py:538-566 | the loop yields exactly the specified pieces or the error, and its last check never fires |
| HardSplit.PiecesPartition | app/ingest/pipeline/chunker.py:538-566 | for any counter the pieces concatenate to the input, are nonempty and fit the budget |
| HardSplit.PiecesAreLong | app/ingest/pipeline/chunker.py:547-560 | for a prefix-monotone counter the bisection finds the longest fitting prefix, and a piece is longer than half of it |
| HardSplit.EveryPieceIsLong | app/ingest/pipeline/chunker.py:538-566 | so is every piece but the last, and the last is all that was left |
| HardSplit.SplitsEverythingExactlyWhen | app/ingest/pipeline/chunker.py:556-557 | the split succeeds on every text if and only if every single character fits |
| ProseUnits.AppendUnits | app/ingest/pipeline/chunker.py:286-299 | strips a stretch of text and appends it whole, or its pieces with their offsets |
| ProseUnits.BuildUnits | app/ingest/pipeline/chunker.py:301-312 | the loops over paragraphs and sentences yield exactly the specified units |
| ProseUnits.UnitsTileText | app/ingest/pipeline/chunker.py:284-312 | units are ordered, disjoint, within the limit, and leave out only whitespace |
| ProsePacking.Tail | app/ingest/pipeline/chunker.py:317-321 | the overlap is the longest run of whole trailing units all of whose suffixes are within overlap_tokens |
| ProsePacking.Displace | app/ingest/pipeline/chunker.py:323-324 | the overlap loses leading units until the next unit fits below max_tokens |
| ProsePacking.PackUnits | app/ingest/pipeline/chunker.py:314-336 | the packing loop and the final merge yield exactly the specified intervals |
| ProsePacking.ChunkProse | app/ingest/pipeline/chunker.py:277-336 | the whole of _prose_ranges yields exactly the specified intervals or the split's error |
| ProsePacking.ProseRangesHold | app/ingest/pipeline/chunker.py:277-336 | ends strictly increase, starts never decrease, every interval is within max_tokens, consecutive ones share at most overlap_tokens, and every non-whitespace character is covered |
| ProsePacking.ProseRangesGreedy | app/ingest/pipeline/chunker.py:314-316 | every interval but the last was closed because the unit after it would have taken it above target_tokens |
| SourceSpans.ClipSourceSpans | app/ingest/pipeline/chunker.py:711-733 | the loop clips every span, drops those outside, and keeps those without offsets as regions |
| SourceSpans.ClipSpanKeeps | app/ingest/pipeline/chunker.py:711-733 | a clipped span describes the same text, is the exact intersection, and leads to the same element characters |
| SourceSpans.ClipSpanTwice | app/ingest/pipeline/chunker.py:711-733 | clipping twice is clipping to the common interval |
| SourceSpans.FragmentsPartition | app/ingest/pipeline/chunker.py:256-265 | consecutive pieces of an interval partition every span in it, without gap or repetition |
| TextRuns.Flush | app/ingest/pipeline/chunker.py:90-147 | a run becomes one element: joined text, moved spans, no locators of its own |
| TextRuns.JoinTextElements | app/ingest/pipeline/chunker.py:80-179 | the loop yields exactly the maximal runs of compatible prose, joined |
| TextRuns.RunsPartition | app/ingest/pipeline/chunker.py:149-178 | the runs are the elements in their order, none lost or repeated |
| TextRuns.TextAtOffset | app/ingest/pipeline/chunker.py:97-128 | each element's text stands in the joined text at the offset the spans were moved by |
| TextRuns.JoinedSpansMapBack | app/ingest/pipeline/chunker.py:100-126 | every span of a joined element describes the joined text and leads back to the same characters of one element of the run |
| TextRuns.EveryElementKeepsSpans | app/ingest/pipeline/chunker.py:100-126 | every span of every element of the run is in the joined element, moved to where the element stands |
| Headings.EmptyHeadingExactlyWhen | app/ingest/pipeline/chunker.py:339-346 | the first of no pieces is asked for exactly when the section path is too long as a whole and ends with its separator |
| Headings.BodyOfPrefixed | app/ingest/pipeline/chunker.py:251-253 | taking the heading off a prefixed text gives the text back |
| ChunkElements.MakeRecord | app/ingest/pipeline/chunker.py:651-708 | a record's text, clipped spans and source range |
| ChunkElements.ElementParts | app/ingest/pipeline/chunker.py:218-229 | code is split hard, tables by the table splitter, everything else by prose intervals |
| ChunkElements.AddElement | app/ingest/pipeline/chunker.py:215-247 | the records of one element, in order, without dropped headings |
| ChunkElements.AddFragments | app/ingest/pipeline/chunker.py:255-271 | the final fragments of one record with re-clipped spans, or an error when a table would be split |
| ChunkElements.ChunkAll | app/ingest/pipeline/chunker.py:197-274 | chunk_elements as a whole computes exactly the specified chunks or the first error |
| ChunkTrace.PartsOfFit | app/ingest/pipeline/chunker.py:219-230 | the parts of an element are its text at their ranges |
| ChunkTrace.ClippedFrom | app/ingest/pipeline/chunker.py:661-666 | a clipped span describes the element's text inside the interval and is part of one of its spans |
| ChunkTrace.ChunksTrace | app/ingest/pipeline/chunker.py:197-274 | end to end: every finished chunk outside tables shows a stretch of the joined text of one run under its heading, and its spans lie in that stretch, describe it and lead back to the same characters of an original element |
| ChunkTrace.LastSplitPartitions | app/ingest/pipeline/chunker.py:255-266 | the last split partitions every span of a record among the chunks it makes |
| ChunkTrace.PieceIsInChunk | app/ingest/pipeline/chunker.py:262-265 | the piece of a span that falls to a fragment is among the spans of that chunk |
| ChunkBudgets.HeadingFits | app/ingest/pipeline/chunker.py:339-346 | the bounded heading takes at most a third of the limit |
| ChunkBudgets.FragmentFits | app/ingest/pipeline/chunker.py:254-260 | heading, blank line and a fragment within its budget stay within the limit |
| ChunkBudgets.LongTableStops | app/ingest/pipeline/chunker.py:254-266 | for any counter: a table record that is too long for one chunk stops the chunking, with the table-split error when its text can be cut at all |
| ChunkBudgets.ChunksExactlyWhen | app/ingest/pipeline/chunker.py:197-274 | exactly when chunking a document succeeds, tables included: no element has a path without a heading to take, every table's splitter succeeds, and each of its parts fits one chunk under the heading; all chunks are then within the limit |
| ChunkBudgets.NeverRaises | app/ingest/pipeline/chunker.py:197-274 | with characters that fit the target, or no text above the limit, chunking plain elements never fails and every chunk is within the limit |
| ChunkFailures.NeverRaisesExactlyWhen | app/ingest/pipeline/chunker.py:205-229 | exactly when: it never fails if and only if single characters fit the target or no text exceeds the limit |
| ChunkFailures.SmallTargetRaises | app/ingest/pipeline/chunker.py:297-299 | a target of 1 or 2 is positive and within the limit, and a five-letter text without heading fails |
| ChunkFailures.EmptyHeadingRaisedExactlyWhen | app/ingest/pipeline/chunker.py:214-217 | for any counter: chunking asks for the first of no pieces exactly when it comes to an element that is not left out and whose path has no heading to take |
| ChunkFailures.HeadingsExactlyWhen | app/ingest/pipeline/chunker.py:197-274 | outside tables nothing else goes wrong: chunking fails exactly when one of the elements has no heading to take |
| ChunkFailures.HeadlessElementRaises | app/ingest/pipeline/chunker.py:339-346 | a concrete element under such a path, for which chunking fails |
| ChunkFailures.BlocksHaveHeadings | app/ingest/pipeline/blocks.py:65-69 | the block splitter never makes such a path, at any limit and for any counter |
| ChunkBudgets.ChunksWithinLimit | app/ingest/pipeline/chunker.py:267-274 | whenever chunking returns, for any counter, ordinals count up from 0 and no text is above the limit |
| TableText.RowsToMarkdown | app/ingest/pipeline/tables.py:23-42 | the loop prints header, rule and padded rows |
| TableText.StripOfEscape | app/ingest/pipeline/tables.py:16-20 | stripping before or after escaping is the same |
| TableText.EscapedCell | app/ingest/pipeline/tables.py:16-20 | an escaped cell guards its pipes, and unescapes to the trimmed value with CR and LF as spaces |
| TableText.CellsOfLine | app/ingest/pipeline/chunker.py:349-350 | parsing a printed row gives back exactly its escaped cells |
| TableText.TableReadsBack | app/ingest/pipeline/tables.py:23-42 | reading a printed table line by line gives the rule and every row, all with as many cells as the table is wide |
| TableChunks.ChunkRows | app/ingest/pipeline/chunker.py:597-624 | the loop over the rows yields exactly the planned chunks |
| TableChunks.PlanConserves | app/ingest/pipeline/chunker.py:597-624 | without carried rows and with split pieces joined, the chunks give back the rows in order; only the last row of the chunk before is carried, and never alone |
| TableChunks.RowsConserved | app/ingest/pipeline/chunker.py:597-624 | the same for the whole table |
| TableChunks.PlanFits | app/ingest/pipeline/chunker.py:597-624 | the token sums by which rows are packed, carried rows included, never exceed max_tokens, and the pieces of a row fit what the header leaves of the target |
| TableChunks.EveryChunkHasHeader | app/ingest/pipeline/chunker.py:579-624 | every chunk of a table split by rows starts with the full header prefix |
| TableChunks.WideRecords | app/ingest/pipeline/chunker.py:372-393 | the nested loops yield the records of all cells in row order, or the first error |
| TableChunks.FitBudget | app/ingest/pipeline/chunker.py:425-431 | the budget search ends, with the first budget at which all records fit or the error |
| TableChunks.CompactRecords | app/ingest/pipeline/chunker.py:417-433 | the loop over the fields yields their records, or the first error |
| TableChunks.RecordsLossless | app/ingest/pipeline/chunker.py:372-433 | in both forms the pieces of every cell make up its value, or (empty), under its label and within the limit |
| TableChunks.WideTableLossless | app/ingest/pipeline/chunker.py:353-433 | the records are those of every cell once, in row order; the compact form adds the caption and the headers |
| TableChunks.WideGap | app/ingest/pipeline/chunker.py:362-387 | a label accepted by the choice of the wide form is refused by it exactly when it counts max_tokens - 4 |
| TableChunks.WideTableGap | app/ingest/pipeline/chunker.py:353-393 | a table given to the wide form is refused by it exactly when a label counts max_tokens - 4 and no cell before it fails |
| TableChunks.WideTableLabels | app/ingest/pipeline/chunker.py:362-387 | with a label that counts max_tokens - 4 the wide form fails, and without one it never finds a label too large |
| TableFailures.GapTableFails | app/ingest/pipeline/chunker.py:353-433 | a concrete table that is refused this way although its compact form exists |
| TableBudgets.TableTextsWithin | app/ingest/pipeline/chunker.py:569-624 | for any counter: a table that is kept whole or cut cell by cell gives chunks within the limit; one split by rows gives chunks of the row form |
| TableBudgets.RowFormBound | app/ingest/pipeline/chunker.py:586-624 | for a subadditive counter the row form a chunk exceeds the limit by no more than the line feeds before the rows it shows, and not at all with one row; pieces of a split row have a bound of their own |
| TableBudgets.RoomyRowsFit | app/ingest/pipeline/chunker.py:597-624 | a condition on the rows and the target under which every chunk of the row form is within the limit |
| TableBudgets.RowsFitExactlyWhen | app/ingest/pipeline/chunker.py:597-624 | where tokens add up, exactly when the chunks of one table split by rows are within the limit: no packed item exceeds it with its line feeds counted |
| TableBudgets.RowFormFitsExactlyWhen | app/ingest/pipeline/chunker.py:597-624 | where tokens add up, the chunks of the row form are within the limit for all tables if and only if a line feed counts nothing |
| TableBudgets.FreeLineFeedsFit | app/ingest/pipeline/chunker.py:569-624 | then no chunk of any table exceeds the limit |
| DocumentTables.TableWithinFits | app/ingest/pipeline/chunker.py:219-226 | a table whose parts are within the budget under its heading never stops the chunking |
| DocumentTables.DocumentsNeverRaise | app/ingest/pipeline/chunker.py:197-274 | documents with tables: chunking never fails when no path lacks a heading and every table is split within its budget |
| DocumentTables.TableStaysWhole | app/ingest/pipeline/chunker.py:226-271 | for any counter: the parts of a table are chunks as they are, in order and in the place of the table, each under the heading |
| DocumentTables.RowsSurvive | app/ingest/pipeline/chunker.py:569-624 | end to end, the chunks of a table split by rows are those of a plan that gives back all its rows |
| DocumentTables.TightTableRaises | app/ingest/pipeline/chunker.py:597-624 | a concrete document of one table with two rows for which chunking fails with the table-split error |
| TableChunks.ChunkTable | app/ingest/pipeline/chunker.py:569-624 | the whole splitter: which form is used when |
| TableChunks.PrintedTablesAreRectangular | app/ingest/pipeline/chunker.py:356-359 | the cardinality error is unreachable for tables printed by rows_to_markdown |
| SourceQuotes.Normalize | app/ingest/pipeline/chunker.py:742-759 | collapses whitespace and gives for every collapsed character where it came from |
| SourceQuotes.FindQuote | app/retrieval/rag/grounding.py:278-296 | computes the specified quotation |
| SourceQuotes.LocateFragment | app/ingest/pipeline/chunker.py:736-766 | computes the specified range |
| SourceQuotes.SliceCollapses | app/retrieval/rag/grounding.py:278-296 | the slice between two collapsed positions collapses to what is between them |
| SourceQuotes.QuoteIsOnlySlice | app/retrieval/rag/grounding.py:278-296 | a value is the one and only slice of the source that reads as the quotation up to whitespace |
| SourceQuotes.OnlySliceIsQuote | app/retrieval/rag/grounding.py:278-296 | and whenever there is only one such slice, it is the value |
| SourceQuotes.SourceRangeReads | app/ingest/pipeline/chunker.py:736-766 | the located slice is the fragment or reads as it up to whitespace; when none is located, none does |
| Blocks.StackExactly | app/ingest/pipeline/blocks.py:180-185 | the heading stack strictly deepens and holds exactly the headings below which all later ones are |
| Blocks.FindBlock | app/ingest/pipeline/blocks.py:94-160 | finds the code block or table that begins at a line, and its end |
| Blocks.SplitLinesIntoBlocks | app/ingest/pipeline/blocks.py:90-191 | the loop yields exactly the specified elements |
| Blocks.BlocksPartition | app/ingest/pipeline/blocks.py:50-192 | line ranges are ordered and disjoint and cover every line that is not blank |
| Blocks.DropRedundantHeadings | app/ingest/pipeline/blocks.py:200-215 | keeps exactly the elements that are not redundant, in order |
| Blocks.DroppedIsCaption | app/ingest/pipeline/blocks.py:200-215 | a dropped heading is the caption of the table right after it, which is kept; only in texts |
| Blocks.OthersAreKept | app/ingest/pipeline/blocks.py:200-215 | every other element is kept |
| Blocks.PathsEndInText | app/ingest/pipeline/blocks.py:65-69 | no section path ends with its separator |
| Blocks.SplitBlocks | app/ingest/pipeline/blocks.py:50-192 | splitting and dropping together |
| EncryptedBackup.Encrypt | scripts/encrypted_backup.py:44-84 | writes header, counted frames, end marker and sealed manifest; fails exactly when the block counter does not suffice |
| EncryptedBackup.Decrypt | scripts/encrypted_backup.py:87-138 | the reading loop computes the specified result or the first error |
| EncryptedBackup.BlocksPartition | scripts/encrypted_backup.py:61-68 | the blocks read are the source |
| EncryptedBackup.ManifestFits | scripts/encrypted_backup.py:69-77 | the sealed manifest of any source below the counter fits the size the reader accepts |
| EncryptedBackup.OpensOwnPart | scripts/encrypted_backup.py:64-72 | what opens under a backup's header is its own part with that number and of that kind |
| EncryptedBackup.OnlyTail | scripts/encrypted_backup.py:101-134 | after k blocks the reader accepts nothing but the rest of that backup |
| EncryptedBackup.AcceptsExactlyBackups | scripts/encrypted_backup.py:87-138 | decrypt accepts a byte string if and only if it is one of the backups made under the key, and gives back its content and manifest |
| EncryptedBackup.RoundTrip | scripts/encrypted_backup.py:44-138 | decrypting what encrypt wrote gives the source and the manifest encrypt returned |
| RowEffects.LeaseMeans | app/ingest/adapters/queue/postgres.py:53-62 | a lease is good for every worker operation before its end, for none from then on, and for no other token |
| RowEffects.ClaimLasts | app/ingest/adapters/queue/postgres.py:29-51 | a claim takes the oldest due job that is not locked; its lease holds for exactly lease_seconds from the claim; the new job row, column by column |
| RowEffects.RenewalLasts | app/ingest/adapters/queue/postgres.py:123-133 | after a renewal the lease holds exactly until lease_seconds after it, and no reaper pass before that moment changes the job |
| RowEffects.ReapedExactly | app/ingest/adapters/queue/postgres.py:100-121 | a reaper pass takes exactly the unlocked running jobs whose lease has ended |
| RowEffects.UpdatesExactlyWhen | app/ingest/adapters/queue/postgres.py:53-133 | the worker operations are accepted exactly from the holder of a lease that has not ended, and refused as stale otherwise |
| RowEffects.FailuresWrite | app/ingest/adapters/queue/postgres.py:76-121 | what a failure and a reaper pass write to every job: one attempt more, no lease, the delay in seconds, queued or dead |
| RowEffects.LeaseKept | app/ingest/adapters/queue/postgres.py:100-133 | over every run a job stays as it is until its lease ends, while its holder does nothing and nobody puts it back or removes its document, whatever all others do |
| RowEffects.PublicationStoresRows | app/ingest/adapters/publication.py:90-142 | every chunk is stored with the vector of its own point, live, in the new generation, with the document's permissions of that moment; every column of both tables |
| RowEffects.PublicationKeepsOthers | app/ingest/adapters/publication.py:70-142 | every other row stays, unversioned ones of the document marked deleted, older chunks of the document gone; and no other row is added |
| RowEffects.PublicationWritesHead | app/ingest/adapters/publication.py:77-175 | the generation, document, epoch and job rows after a publication, column by column |
| RowEffects.AcceptedMeans | app/ingest/adapters/publication.py:30-42 | what is asked of chunks and points, field by field: nonempty, aligned, own ids and tenant, correct hashes, finite vectors of the configured dimension |
| RowEffects.RowsCarryTheirVectors | app/ingest/adapters/publication.py:90-120 | over every run each row of a generation carries the finite vector, the text and the document of the very chunk it was published for |
| RowEffects.RowsHaveDimension | app/ingest/adapters/publication.py:35-40 | with one configured dimension every row of a generation has a finite vector of it, over every run |
| RowEffects.UpdateWrites | app/shared/adapters/postgres/metadata_store.py:734-850 | the refusals of a content update in order, and the document, job and epoch rows it writes |
| RowEffects.RemovalWrites | app/shared/adapters/postgres/metadata_store.py:556-595 | what the second half removes from each table, and what it records |
| CorpusEpochs.TenantViewMeans | app/shared/adapters/pgvector/profile.py:13-23 | exactly which rows a tenant sees, column by column, and what it sees of them |
| Answers.SeesMeans | app/shared/adapters/pgvector/vector_store.py:67-91 | exactly which row a caller sees, in columns: live, of the own tenant or global, permitted |
| Answers.ValidSourcesMean | app/shared/adapters/pgvector/vector_store.py:256-273 | sources are valid exactly when there are some, they are distinct, and each is a row the tenant sees and the caller may read |
| Answers.ServesExactlyWhen | app/retrieval/adapters/cache/redis_stack.py:142-182 | exactly which entry is served, by fields: stored for this tenant, user, model and the sum of both counters read, fitting the question, with sources still valid; so never one of another user |
| RosterEvidence.IsRosterMeans | app/retrieval/rag/context.py:28-36 | exactly which texts are rosters: a rule below a header line that names what is asked for and above at least two rows |
| HybridSearch.VisibleMeans | app/shared/adapters/pgvector/vector_store.py:347-412 | visible are exactly the live rows of the caller's tenant or of global documents that the caller may read |
| HybridSearch.HitsMayBeShown | app/shared/adapters/pgvector/vector_store.py:414-528 | every hit is live, of the caller's own tenant or global, and permitted, in columns |
| HybridSearch.FewRowsAreAllHits | app/shared/adapters/pgvector/vector_store.py:414-528 | when no more rows may be shown than were asked for, a search without text, or one whose lexical part fails, gives all of them |
| HybridSearch.SearchDependsOnlyOnRowsItMayShow | app/shared/adapters/pgvector/vector_store.py:414-528 | two tables that agree on the rows that may be shown, in columns, give the same hits in the same order |
| GateEffects.AcquisitionDecides | app/shared/adapters/request_gate.py:12-32 | let in exactly when the live tokens of the three active sets and the grants of the last minute in the two rates are all below their limits |
| GateEffects.AcquisitionWrites | app/shared/adapters/request_gate.py:12-32 | an admitted token counts for 120 seconds in the three active sets and for 60 in the two rates, the keys live as long, and nothing else that counts changes; a refused one changes nothing that counts |
| GateEffects.RenewalMeans | app/shared/adapters/request_gate.py:33-45 | a renewal is granted exactly while the token is live in all three sets, and then counts for 120 seconds from now |
| GateEffects.ReleaseMeans | app/shared/adapters/request_gate.py:46-49 | a release takes exactly its token out of the three active sets and leaves the rates |
| GateEffects.ScriptsLeaveNoEmptySets | app/shared/adapters/request_gate.py:12-49 | no script leaves an empty set behind, as Redis has none |
| MigrationEffects.Migrates | app/shared/adapters/pgvector/migration.py:44-230 | end to end: an undisturbed migration from start to switch gives every row its own new vector and the new profile, nothing else changed, keeps the old table, and advances the epoch once |
| MigrationEffects.PrintMeans | app/shared/adapters/pgvector/migration.py:20-30 | two tables have the same fingerprint exactly when they have the same rows but for their embeddings |
| MigrationEffects.BatchWrites | app/shared/adapters/pgvector/migration.py:44-140 | a batch is taken exactly when it names rows still to be embedded, each once, with vectors of the right dimension; and what it writes |
| MigrationEffects.ActivationWrites | app/shared/adapters/pgvector/migration.py:143-230 | the checks of the switch in order with their errors, and everything it writes |
| TextRuns.ContinuesMeans | app/ingest/pipeline/chunker.py:80-88 | exactly which neighbours are joined, by fields: prose of the same extractor, route reason, page, sheet, section and frame, and for PDF lines the geometric bound written out |
| TextRuns.RunAlike | app/ingest/pipeline/chunker.py:149-178 | all elements of a run are prose and agree in each of these fields, whatever their distance |
| TextRuns.RunsExactly | app/ingest/pipeline/chunker.py:149-178 | neighbours in a run may be joined, and where two runs meet the pair may not |
| ChunkTrace.ChunkOfOnePage | app/ingest/pipeline/chunker.py:197-274 | every chunk outside tables shows text of one page, one sheet and one section |
| HardSplit.PieceEnds | app/ingest/pipeline/chunker.py:547-560 | where a piece ends: behind the last space of the second half of the longest fitting prefix if there is one and the text up to it fits, else at the end of that prefix |
| HardSplit.PieceEndsAtSpace | app/ingest/pipeline/chunker.py:558-560 | for a prefix-monotone counter a piece ends with a space whenever that half has one, and is the longest prefix otherwise |
| SourceSpans.ClipSpanMeans | app/ingest/pipeline/chunker.py:711-733 | what becomes of a span, field by field: kept as a region, dropped, or cut with its place and text |
| Headings.NearestMeans | app/ingest/pipeline/chunker.py:339-346 | the nearest heading is what follows the last separator, or the whole path |
| Headings.BoundedHeadingMeans | app/ingest/pipeline/chunker.py:339-346 | the heading shown is the path if it takes at most a third of the limit, else the first piece of the nearest heading that does |
| ChunkContents.ElementStaysWhole | app/ingest/pipeline/chunker.py:197-274 | whatever the counter, when chunking succeeds the chunks of an element stand in its place and give back, cut but whole, every part of it that is not left out, each under the heading |
| ChunkContents.SectionsMean | app/ingest/pipeline/chunker.py:233-235 | the sections put together again give the path, and none holds the separator |
| EncryptedBackup.U32Means | scripts/encrypted_backup.py:63-66 | numbers are four bytes, the most significant first |
| EncryptedBackup.BlocksAreFull | scripts/encrypted_backup.py:61-68 | all blocks of a source are full but for the last, and none is empty |
| EncryptedBackup.BackupIsOfSource | scripts/encrypted_backup.py:44-84 | a backup is of its whole source, and its manifest carries its size and hash |
| EncryptedBackup.FileMeans | scripts/encrypted_backup.py:44-84 | the bytes of a backup: magic, prefix, each block sealed under its number with its length, the end marker and the sealed manifest |
| EncryptedBackup.IdealCipherExists | scripts/encrypted_backup.py:44-138 | for every source there is a cipher that meets what is assumed of it, with the backup of that source |
| TableEffects.RowsArePackedGreedily | app/ingest/pipeline/chunker.py:597-624 | exactly when a chunk is closed, its last row repeated, and a row cut: the next row would take it above the target; the row is not empty and fits the limit with the next; the row is too long beside the header |
| TableEffects.RenderedMeans | app/ingest/pipeline/chunker.py:600-624 | the texts of a chunk of rows or of a piece: the header lines, then it |
| TableEffects.WidePiecesMean | app/ingest/pipeline/chunker.py:378-393 | the wide form of a cell: when its label is refused, for which budget its value is cut, and when a record is too long |
| TableEffects.CompactCellMeans | app/ingest/pipeline/chunker.py:417-433 | the compact form takes the largest budget at which all records of a value fit, or names the error |
| TableEffects.WideCellsMean | app/ingest/pipeline/chunker.py:376-381 | the cell of row r and column c is at that place of the records, under the caption, both numbers counted from 1, the header of the column, and the first cell of the row |
| TableEffects.PlainFieldsMean | app/ingest/pipeline/chunker.py:407-416 | the fields of the compact form at their places: caption, headers, then every cell with its numbers |
| TableEffects.FormMeans | app/ingest/pipeline/chunker.py:569-586 | which form a table takes, from its lines and counts: as it is, cell by cell, or by rows |
| BlockContents.EveryElementIsRight | app/ingest/pipeline/blocks.py:50-192 | all elements from the lines alone: each is numbered, made of its lines, stands under exactly the headings above its end that no code block or table encloses, and begins and ends where it should |
| BlockContents.BlockMeans | app/ingest/pipeline/blocks.py:90-160 | which block begins at a line and where it ends, stated by the lines that stop it: code before tables, tables with pipes before those with tabs |
| BlockContents.CellsOfTabs | app/ingest/pipeline/blocks.py:164-165 | the cells of a tab-separated line joined by tabs are the line, and none of them holds a tab |
| TextRuns.JoinedMeans | app/ingest/pipeline/chunker.py:96-147 | the joined element field by field: the separator, the texts, what is taken from the first, and the identities and spans of all in order |
| TextRuns.MovedSpans | app/ingest/pipeline/chunker.py:100-126 | what becomes of each span of an element in the joined one, field by field, and of an element without spans |
| Answers.SeesExactly | app/shared/adapters/pgvector/vector_store.py:67-91 | for any row: the query looks at its columns and skips the permissions for a caller without a user id, the access rule looks at its payload |
| ProseEffects.IntervalsExactly | app/ingest/pipeline/chunker.py:277-336 | the whole of prose chunking, declared: the units are grouped in order, each group is closed by the unit that would take it above target_tokens, the next begins with as many of its last units as overlap_tokens and max_tokens allow, and the last two are merged exactly when the last is below min_tokens and both fit |
| ProseEffects.UnitsOfMean | app/ingest/pipeline/chunker.py:286-299 | the units of a stretch: none when it is blank, all of it without outer whitespace when that fits, else its pieces one behind the other |
| ProseEffects.ParagraphMeans | app/ingest/pipeline/chunker.py:301-312 | a paragraph within the target is one stretch, a longer one is cut behind its sentences |
| SearchRanking.ResultsAreRanked | app/shared/adapters/pgvector/vector_store.py:414-528 | every search result from the rows alone: how many rows each channel fetches and in which order, and the first top_k of both by the sum of 1/(60 + rank), equal ones in order of first appearance |
| AnswerDecisions.ReadMomentMeans | app/retrieval/rag/query.py:274-443 | a chunk is read by the first search that finds it and can read it, else by the expansion if that can, else not at all |
| AnswerDecisions.GatheredMeans | app/retrieval/rag/query.py:274-443 | what is gathered, and that without neighbours nothing counts as a roster |
| AnswerDecisions.AnswersExactlyWhen | app/retrieval/rag/query.py:495-797 | exactly when a question is answered from the evidence, by the single checks and replies: valid before the first call, checked again before a repetition, a review, a repair and at the end, and the last reply grounded in sources still valid |
| AnswerDecisions.NotedExactlyWhen | app/retrieval/rag/query.py:548-787 | exactly when a change is written to the trace: the first later check to fail is not the one before a review |
| ChunkIds.ChunkIdReads | app/shared/ids.py:39-50 | an id read back: the document's id, then the position counted from 1, in at least three digits and as many as the number of chunks has |
| TableText.PrintedMeans | app/ingest/pipeline/tables.py:23-42 | what is printed, line by line; nothing of a table without cells |
| TableText.PrintedCellsMean | app/ingest/pipeline/tables.py:23-42 | all lines are as wide as the widest row, short ones filled up with empty cells |
| TableText.WidthMeans | app/ingest/pipeline/tables.py:27-28 | the width of a table is that of its widest row |

## Left out

- SQL text, row locks and connection handling: every transaction is one atomic step, and a refused one changes nothing.
- Workspace tables and workspace profiles: only the default vector table is modelled.
- Uniqueness of file names and of content hashes when documents are created: the model allows more creations than the code.
- Columns that no guard reads (error texts, timestamps, titles, metadata, job events, version deltas).
- The renewal thread of `app/ingest/pipeline/lease.py`: renewals are steps that may happen or fail at any moment.
- A process that dies: its later steps just do not happen, and the reaper's steps cover it.
- The approximate index branch of the dense channel, and floating point in scores: ranks and scores are exact reals.
- Reranking, the choice and order of what is kept of the searches, and prompt construction: which passages are arranged and packed, and in which order, is arbitrary.
- The text of a general answer, and streaming: a general answer is any text, and the model says exactly when one may be given.
- The similarity threshold of the answer cache: which matching entry is nearest is arbitrary.
- Names of Redis keys: keys are values, so two principals never share a key by concatenation.
- Release of admission tokens by strangers: callers release their own tokens, as the admission code does.
- Locks and grants during an activation, and changes made to shadow tables by hand.
- Tokenizers and the regular expressions for sentences, list items, headings, fences and table rules.
- IngestDatabase.Database.DeleteByDocument: does not model the workspace vector tables, which the source tombstones and counts in the same way.
- Answers.Retrieve: does not model how sub-questions are found and ranked, so the lists of its searches and the order of what is kept are arbitrary.
- Answers.AnswerQuery: does not model the error for a question that leaves no budget for evidence, which then gets no evidence here.
- ChunkElements.MakeRecord: does not model the copied metadata (source element ids, line numbers, paragraph indexes, pages) that `_record` derives from the clipped spans.
- TextRuns.Flush: does not model the layout and line locators that joining removes, because nothing else reads them here.
- TableChunks.ChunkTable: takes the splitter for text that is no table as a parameter, because it only rejoins stripped paragraphs and sentences.
- Blocks.SplitBlocks: records line numbers always; with the flag off the source only omits them. The modality of prose and code enters as whether it is text.
- EncryptedBackup.Encrypt: the key file, the existence checks on the destination and the atomic publication of the file are not part of this model.
- Parsing of documents, the HTTP routes, the gateway and its clients, logging and metrics.
