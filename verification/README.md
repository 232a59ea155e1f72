# Verified model of Orva's storage, migration, collection and backup logic

Orva runs functions on one machine. Its state is a SQLite database and a data directory with each
function's code. This project models the parts of the backend where that state is hardest to keep right, and
proves what they promise: for every input, every interleaving of steps, or every reachable state.

- **The asynchronous writer** (`WriterProtocol` to `WriterTheorems`): producers, one consumer, the shutdown
  fence, function insertion and deletion, as interleaved steps; each atomic operation of the program
  (counter load, compare-and-swap, lease swap, channel send, transaction) is one step. `WriterCommit` is the
  commit pass as code that updates the database, `BulkInsert` the grouping of statements, `WriterRetry` the
  backoff and the retained batch. Over whole runs, `WriterPasses` counts the passes of a job, `WriterFates` says what
  becomes of it by the database's answers, `WriterProgress` that what fits is admitted and can be committed, and
  `WriterShutdown` that a shutdown can end.
- **The UUIDv7 migration** (`UuidRewrite`, `UuidMigration`, and `UuidPlan`, which holds the plan against the schema) and
  **its half on disk** (`DirRenames`, `DirProtocol`, `DirProgress`, `OrphanSweep`): a renaming applied one pair at a time in
  one transaction; directory renames that a crash may interrupt; and a collector that deletes directories of no function.
- **The key-value store** (`KvNumbers`, `KvStore`, `KvLaws`, `KvSwaps`): a table with expiry, increments,
  compare-and-swap, batches, sweeps and listings.
- **Paging** (`Paging`): cursors over a table that changes between requests, used for keys and, in `ActivityListing`,
  for the activity feed. `ExecutionListing` is the fast path of the execution list.
- **Collection of caches and versions** (`BuildCacheGc`, `VersionLifecycle`, `VersionRuns`).
- **Backup and restore** (`BackupArchive`; `BackupRestore`, which prepares the stage; `BackupInstall`, which replaces the
  live data; `BackupRoundTrip`).
- **The job table** (`JobKeys` for idempotency keys, `JobQueue`, `JobRuns`).

`Counting` and `Wrappers` hold weighted sums and result types. Where the program updates state in place the
model has classes, methods and loops, proved against specification functions; the protocols are step systems
whose steps use those same functions.

## Assumptions

- A transaction applies as a whole or not at all, and a reported commit error means it was not applied.
- The writer's timers, priorities and pressure tests are dropped: any enabled step may be next. Every run of the
  program is a run of the model, and the model has more.
- A multi-row INSERT does what inserting its rows one by one does (`BulkInsert.MultiRowInsert`). `BulkInsert.RecordIsMultiRow`
  shows that this can be met, by a database that lists the bound rows.
- New UUIDs are fresh: never in the database, on disk or in a caller's hands before.
- `DirProtocol` and `JobRuns` let every step happen that the program can make, and then ask which of them are harmless, by a
  condition a caller could check before the step (`Harmless`). `StepIsSafeIff` in both modules proves that a step keeps the
  invariant exactly if it is harmless. The promises are proved over runs that meet plain assumptions (`Assumed`): a
  tick of the collector takes less than the fifteen-minute grace period, the functions fit one page when they are listed
  or did not when they were counted, and no row is written that was deleted since it was read; workers report within
  their lease and running jobs are not retried. `AssumedRunsAreHarmless` shows that the assumptions suffice, and the next
  section what the other steps do.
- A deletion over HTTP purges the directory under the function's lock, and code is built under it; updates take no lock, nor
  do deletions and rollbacks over the tool interface.
- Versions are not pruned between a build and its activation; `VersionRuns.PruneBeforeActivation` says exactly
  what depends on it. Removing a directory is one step.
- Digests do not collide.
- A day is 86400 seconds; the collector steps back by calendar days of the local zone.
- A migrated database has the columns that the schema and its upgrades create, with ids older than the new ones.
- Locks, cancellations, I/O errors and clocks are parameters that may take any value.

## Where the program and its description differ

The model follows the code.

- Three columns that say which API key acted are not in the migration's plan: who attached a function to a channel, whose
  conversation it is, and who approved a tool call. They lose every key whose id is rewritten; all other references of the
  schema are in it (`UuidPlan.UnlistedLoseLegacyKeys`, `PlanCoversReferences`).
- `fmtIntStr` prints the smallest 64-bit integer as a lone minus sign, which `fmtInt` rejects: a counter that reaches it is
  stuck (`KvNumbers.ParsePrinted`, `KvLaws.IncrementsAddUp`).
- `KVGet` still returns a row at the instant it expires; listing, counting and sweeping do not
  (`KvLaws.GetAndListDisagreeAtExpiry`).
- The collector asks for 10000 functions, but a listing is cut to 1000, so with more functions no orphan sweep ever runs
  (`DirProtocol.SweepsRunIff`).
- `pruneFunction` takes no function lock. Redeploying old code is a cache hit that does not refresh its directory,
  and a prune before the activation leaves `current` dangling (`VersionRuns.RacingPruneLeavesDanglingLink`).
- The collector counts functions and lists them in two statements. An insertion in between, at exactly 1000 functions,
  leaves an older one out of a listing that looks complete, and its code may be removed
  (`DirProtocol.TruncatedListingLooksComplete`). A tick as long as the grace period can do the same
  (`SlowTickRemovesLiveCode`).
- Updates, and rollbacks over the tool interface, read a row and later write all of it without the function's lock, inserting
  it if it is gone. If the function was deleted in between, its row comes back: the deletion may then purge the code of a live row
  (`DirProtocol.PurgeTakesRewrittenCode`), or the collector remove it (`UpdateBehindTheListing`). The
  lock is there to keep a late write from inserting a deleted row, but these writes do not take it. If the function was
  deployed in between, the old version comes back into the row (`UpdateUndoesDeploy`).
- A worker that outlives its lease can put a job back to pending with no attempt left (`JobRuns.LateReportOverruns`) or
  into the hands of two workers (`LateReportDoublesWorkers`), and so can retrying a running job, which both interfaces
  allow although their description speaks of finished jobs (`RetryOfRunningDoublesWorkers`). `JobRuns.StepIsSafeIff`
  is the exact condition. After another worker has succeeded, a failure reported late makes the job run again
  (`LateFailureRerunsSuccess`).
- An idempotency key is taken until its job is deleted, by hand or by retention: the unique index knows no window. Once the
  window and a day have passed, a request with the key fails instead of enqueueing a job, and a window of less than a day
  replays for a whole day
  (`JobKeys.UndisturbedOutcome`, `WindowIsKeptIff`, `ExpiredKeyIsRefused`, `SecondJobIff`).
- Bulk jobs with the wrong number of arguments each can succeed as a group when their errors cancel
  (`BulkInsert.MisboundGroup`); `GroupIsFaithfulUnlessMisfitsCancel` is the exact condition.
- A rolled-back restore brings back the database only. Keys and function trees installed before the failure stay, the
  function whose move failed is gone because its live directory is removed first, and in a directory without a database
  the restored one is left (`BackupInstall.RolledBackLeaves`, `RollbackLosesFunction`, `BackupRoundTrip.RollbackIsPartial`).
  `RollbackIsCompleteIff` says exactly when nothing has changed.
- The scratch directory of a build gets its readiness marker before the last build stage, so a crash leaves a marked,
  incomplete one; it is never published (`VersionRuns.CrashLeavesMarkedScratch`, `VersionsStayComplete`).

## Model

| member | source | states |
|---|---|---|
| WriterTheorems.ExactlyOnce | backend/internal/database/async.go:527-546 | In every reachable state a published job is in exactly one of: queued, in a batch, committed, discarded, shed, lost; its statement took effect once if committed and never otherwise. |
| WriterTheorems.SlotsNeverBlock | backend/internal/database/async.go:193-246 | Returning a token never blocks, a lease handed back one token exactly if released, and a producer with a transferred lease always finds room in the critical channel. |
| WriterShutdown.TokensComeHome | backend/internal/database/async.go:209-225 | From every reachable state all tokens on their way back can arrive, and nothing else changes. |
| WriterInvariants.SlotsKept | backend/internal/database/async.go:180-246 | Every step keeps the sum of free tokens, tokens on their way, and unreleased leases at the pool's capacity. |
| WriterOwnership.OneHolderKept | backend/internal/database/async.go:209-225 | Every step keeps each writer-owned lease in the hands of exactly one producer, queued or batched job, or pending release. |
| WriterOwnership.SendHasRoom | backend/internal/database/async.go:308-350 | By counting leases, the critical channel cannot be full when a transferred job is sent. |
| WriterTheorems.BytesAccounted | backend/internal/database/async.go:78-91 | Each lane's byte counter is within its limit under any interleaving of loads and swaps, and equals reserved plus queued plus batched bytes. |
| WriterBytes.AccountedKept | backend/internal/database/async.go:515-579 | Send, cancel, partial retry, full commit and drain all keep the counter equal to what is held and owed. |
| WriterBytes.RetainedBatchNotExtended | backend/internal/database/async.go:535-550 | While a lane waits to retry, no step before the drain adds a job to its batch. |
| WriterTheorems.FenceStopsPublishing | backend/internal/database/async.go:1015-1021 | Once quit is closed no step publishes a job. |
| WriterTheorems.DrainedCompletely | backend/internal/database/async.go:583-624 | When the drain is done nothing is held, every counter is zero, and each published job was committed, discarded, shed or counted as lost. |
| WriterShutdown.ShutdownCanFinish | backend/internal/database/async.go:1012-1030 | From every reachable state of an open writer, wherever producers and consumer are, a shutdown can end, drained and without losing a job. |
| WriterShutdown.CanLeave | backend/internal/database/async.go:270-350 | Once the stop is requested, a producer in any phase can leave the read lock by acts of its own. |
| WriterTheorems.DeletedStaysDeleted | backend/internal/database/async.go:864-909 | After a deletion commits, on any run without a new insertion of the id, no row carrying it is added and none remains in a table with the column. |
| WriterTheorems.DeletionLeavesNothing | backend/internal/database/executions.go:812-825 | A deletion leaves no owned row and no child row of the function's executions. |
| WriterLedger.GuardedKept | backend/internal/database/async.go:709-723 | Every step keeps the live-id cache within the functions table and every job a running commit may write owned by a function that exists. |
| WriterLedger.InOnePlaceKept | backend/internal/database/async.go:709-814 | Every step keeps each job id counted in one place. |
| WriterTheorems.BatchesBounded | backend/internal/database/async.go:626-685 | Outside the drain no batch exceeds 200 jobs; batch and queue are in publish order. |
| WriterBatch.ThreePassesResolveEveryJob | backend/internal/database/async.go:915-986 | Whatever the database answers, no job survives three completed isolation passes; after fewer, every job left has used that many attempts. |
| WriterBatch.PassPartitions | backend/internal/database/async.go:915-986 | A pass splits the batch into resolved and retried jobs, losing and duplicating none, for every weight of jobs. |
| WriterPasses.AttemptsArePasses | backend/internal/database/async.go:915-986 | In every run of the protocol, filters and the drain included, a waiting job has used exactly as many attempts as isolation passes it was in, fewer than three. |
| WriterPasses.AtMostThreePasses | backend/internal/database/async.go:915-986 | In every run no job is in more than three isolation passes, and one that was in three is resolved. |
| WriterFates.ShedIff | backend/internal/database/async.go:949-957 | At every step of every run a job is shed exactly if an isolation pass met a permanent failure of its statement, or a transient one for the third time. |
| WriterFates.CommittedIff | backend/internal/database/async.go:915-986 | And counted as committed exactly if a pass accepted its statement or a transaction committed its whole batch. |
| WriterFates.TransientWaitsOn | backend/internal/database/async.go:949-957 | Before its third pass a job whose statement fails transiently is still waiting afterwards. |
| WriterFates.RowsWereSent | backend/internal/database/async.go:744-781 | In every run each row has the table, execution and function of a job that was sent. |
| WriterProgress.AdmittedIff | backend/internal/database/async.go:78-91 | In every reachable state a producer that loads its counter goes on exactly if the bytes held for the lane plus its own are within 64, 8 or 32 MiB. |
| WriterProgress.LeaseIsGranted | backend/internal/database/async.go:180-246 | While the writer is open and a token is free, a caller's acts give it a lease. |
| WriterProgress.NoLeaseAfterStop | backend/internal/database/async.go:227-246 | On any run from a requested stop on, no caller gets a lease. |
| WriterProgress.NoLeaseIsLeftBehind | backend/internal/database/async.go:308-350 | Whether it was sent or turned away, a critical write that is done leaves its lease transferred or released, never with its caller. |
| WriterProgress.FittingWriteIsPublished | backend/internal/database/async.go:270-350 | From every reachable open state a write that fits, with a free producer, room, and for a critical one a lease, has a run of its producer's acts after which it is last in its queue under the next id. |
| WriterProgress.EmptyLaneReceives | backend/internal/database/async.go:535-550 | In every reachable state of the loop a lane with an empty batch receives: only a retained batch stops a lane. |
| WriterProgress.WaitingCanLand | backend/internal/database/async.go:583-685 | From every reachable open state each waiting job whose function exists has a run that commits it and writes its row, wherever the consumer is. |
| WriterProgress.FittingWriteCanLand | backend/internal/database/async.go:709-814 | And so has every write that fits, from before it is published. |
| WriterCommit.Database.Commit | backend/internal/database/async.go:709-814 | Which transaction applies, for separate faults of the grouped and the isolated one; rows, retries and releases are those of the outcome, and a failed filter or transaction changes no row. |
| WriterCommit.Database.CommitIsolated | backend/internal/database/async.go:915-986 | The savepoint-per-job pass: rows of accepted jobs are added, the rest retried with one more attempt or shed; any transaction failure applies nothing. |
| WriterCommit.Database.FilterDeleted | backend/internal/database/async.go:864-909 | Splits a batch by whether each owner exists, learns only ids that do, and asks about each uncached owner once and about no other id. |
| WriterProgress.FilterLearns | backend/internal/database/async.go:864-909 | A filter makes the cache of live ids learn exactly the owners in the batch that exist, and forget none. |
| WriterCommit.Database.InsertFunction | backend/internal/database/functions.go:130-152 | The live-id cache gains the id exactly if the row was inserted. |
| WriterCommit.Database.DeleteFunction | backend/internal/database/functions.go:252-280 | All or nothing: row, cache entry and every child row go together. |
| WriterCommit.DeletionIsSurviving | backend/internal/database/functions.go:252-280 | The DELETE statements table by table remove exactly the rows doomed by a declarative condition. |
| WriterRetry.BackoffDoublesToCap | backend/internal/database/async.go:687-697 | After n failures the wait is 100 ms doubled n-1 times, capped at 5 s, and never shrinks. |
| WriterRetry.RetainRetryBatch | backend/internal/database/async.go:93-100 | The jobs to retry survive clearing the batch even when they are a slice of the same array. |
| BulkInsert.ExecuteStatements | backend/internal/database/async.go:744-781 | The calls cover the batch without gap or overlap up to the first that fails, and no group could have been wider; if every bulk job binds its own tuple, execution succeeds exactly when one-by-one execution does and leaves the same database. |
| BulkInsert.BulkGroupEnd | backend/internal/database/async.go:819-831 | A group is a maximal run of equal bulk statements, a single job or at most 850 binds. |
| BulkInsert.BulkInsertSQL | backend/internal/database/async.go:833-856 | Builds the multi-row text by repeating the trailing VALUES tuple, or nothing if there is none. |
| BulkInsert.BulkTextRepeats | backend/internal/database/async.go:833-856 | The multi-row text reads as everything before the last tuple and then the tuple, as often as there are rows, with one comma between. |
| BulkInsert.GroupedIff | backend/internal/database/async.go:833-856 | There is such a text exactly for statements that end in a tuple behind their last VALUES. |
| BulkInsert.BulkTextPlaceholders | backend/internal/database/async.go:833-856 | The multi-row text takes exactly rows times the arguments of one statement. |
| BulkInsert.GroupIsFaithfulIff | backend/internal/database/async.go:744-781 | For any group of equal statements: one call does what one-by-one execution does exactly if the total of arguments fits the text just when every job fits its own. |
| BulkInsert.GroupIsFaithfulUnlessMisfitsCancel | backend/internal/database/async.go:744-781 | With placeholders only in the tuple: exactly if every job fits its own statement, or the total does not fit the group. |
| BulkInsert.MisboundGroup | backend/internal/database/async.go:744-781 | On a literal one-column INSERT: no argument and two arguments fail one by one and insert two rows as a group. |
| BulkInsert.RecordIsMultiRow | backend/internal/database/async.go:744-781 | A database that records the rows of a statement whose argument count fits treats a multi-row text as its rows one by one. |
| UuidRewrite.SequentialIsSimultaneous | backend/internal/database/migrate_to_uuidv7.go:501-566 | One UPDATE per pair and column equals one simultaneous substitution. |
| UuidRewrite.SubstIsInjective | backend/internal/database/migrate_to_uuidv7.go:501-566 | On ids older than the migration the substitution is injective. |
| UuidRewrite.MigrationIsSubstitution | backend/internal/database/migrate_to_uuidv7.go:178-201 | In the whole plan each column undergoes exactly its own parent's substitution. |
| UuidRewrite.JoinsPreserved | backend/internal/database/migrate_to_uuidv7.go:157-247 | Every parent-child join holds after the migration exactly where it held before. |
| UuidRewrite.ParentsAreMigrated | backend/internal/database/migrate_to_uuidv7.go:178-201 | In a migrated parent column each non-empty text has become a UUID and every other value is as it was. |
| UuidRewrite.SecondRunIsIdentity | backend/internal/database/migrate_to_uuidv7.go:501-566 | Running the rewrite again changes nothing, marker or not. |
| UuidRewrite.UnlistedColumnLosesLegacyJoins | backend/internal/database/migrate_to_uuidv7.go:69-145 | A column the plan does not list keeps its join with a migrated parent exactly on ids that were not legacy. |
| UuidMigration.PlanHasOneOwner | backend/internal/database/migrate_to_uuidv7.go:69-145 | In the actual plan and schema no column is moved for two parents. |
| UuidMigration.FunctionsComeFirst | backend/internal/database/migrate_to_uuidv7.go:69-145 | Only the first entry rewrites function ids. |
| UuidPlan.PlanCoversIds | backend/internal/database/migrations.go:13-369 | The plan rewrites exactly the schema's columns of once-prefixed ids. |
| UuidPlan.PlanCoversReferences | backend/internal/database/migrate_to_uuidv7.go:69-145 | Each entry rewrites with its ids exactly the schema's columns that refer to them, but for three named ones. |
| UuidPlan.ReferencesKeepJoining | backend/internal/database/migrate_to_uuidv7.go:157-247 | In the actual plan and schema, for every database, each such reference joins after the migration exactly where it did before. |
| UuidPlan.UnlistedLoseLegacyKeys | backend/internal/database/migrate_to_uuidv7.go:69-145 | The three columns left out still join with their API key exactly if its id was not rewritten. |
| UuidPlan.NoOldIdIsLeft | backend/internal/database/migrate_to_uuidv7.go:501-566 | In every id column of the schema the migration replaces each non-empty text by a UUID and nothing else. |
| UuidMigration.ResolveChildRefs | backend/internal/database/migrate_to_uuidv7.go:357-372 | Exactly the declared and listed references, none twice, in order of first occurrence. |
| UuidMigration.RewriteOne | backend/internal/database/migrate_to_uuidv7.go:501-566 | Collects the pairs of a parent column with fresh ids and applies them to it and all its copies. |
| UuidMigration.RewriteAll | backend/internal/database/migrate_to_uuidv7.go:178-201 | The loop over the plan computes the migration and returns the pairs of function ids. |
| UuidMigration.MigrateToUUIDv7 | backend/internal/database/migrate_to_uuidv7.go:157-247 | One transaction: data, recorded renames and marker change together or not at all; a marked database is left alone. |
| DirRenames.Installation.ReconcileFunctionDirs | backend/internal/database/migrate_to_uuidv7.go:258-298 | Succeeds exactly if no needed rename fails; then all pairs are renamed and the record is cleared; else the record stays and a prefix of the renames is done. |
| DirRenames.Installation.RenamePending | backend/internal/database/migrate_to_uuidv7.go:273-292 | Handles the pairs in order up to the first whose needed rename fails. |
| DirRenames.ResumedPassFinishes | backend/internal/database/migrate_to_uuidv7.go:249-257 | A pass interrupted after any number of pairs and then repeated gives the result of one whole pass. |
| DirRenames.EveryPairMoves | backend/internal/database/migrate_to_uuidv7.go:273-292 | With the new names free, each entry ends under its new name and not under its old one. |
| DirRenames.RecordedPairsRename | backend/internal/database/migrate_to_uuidv7.go:178-201 | The pairs read from the table pair every legacy id, and nothing else, with a distinct new one. |
| DirProtocol.CodeSurvives | backend/internal/database/migrate_to_uuidv7.go:223-243 | In every run that meets the assumptions each function's code is on disk under its id or under the old name of the recorded pair that renames it. |
| DirProtocol.StepIsSafeIff | backend/internal/registry/registry.go:93-118 | From every reachable state any step, unlocked writes of stale rows, purges and removals included, keeps the invariant exactly if it is harmless. |
| DirProtocol.AssumedIsHarmless | backend/internal/builder/gc.go:300-354 | Where the assumptions were met so far, every step that meets them, and every purge, is harmless. |
| DirProtocol.ReconciledCodeIsInPlace | backend/cmd/orva/serve.go:96-107 | In those runs, while serving, all code is under the ids and no rename is outstanding. |
| DirProtocol.SweepRemovesOnlyOrphans | backend/internal/builder/gc.go:310-354 | In every reachable state, after any harmless steps, a directory that a tick within the grace period may remove belongs to no function, is fifteen minutes old and is not locked. |
| DirProtocol.NoSweepWhileNamesDisagree | backend/internal/builder/gc.go:145-156 | After any harmless steps: while some code is not under its id, neither serving nor sweeping is possible. |
| DirProtocol.ReconcileIsProtocolSteps | backend/internal/database/migrate_to_uuidv7.go:273-292 | The renaming loop is a run of the protocol's rename steps. |
| DirProgress.CanServeAgain | backend/cmd/orva/serve.go:96-107 | Wherever a migrated installation stopped, it can restart and serve with every row as it was and all code under its ids. |
| DirProgress.OrphanCanGo | backend/internal/builder/gc.go:300-354 | With one to a thousand functions a tick can remove any directory of no function once it is fifteen minutes old and unlocked, and nothing else changes. |
| DirProtocol.SweepsRunIff | backend/internal/database/functions.go:174-180 | A tick's sweeps run exactly for one to a thousand functions and no outstanding rename. |
| DirProtocol.SlowTickRemovesLiveCode | backend/internal/builder/gc.go:300-335 | A reachable state where a tick as long as the grace period may remove the code of a new function. |
| DirProtocol.TruncatedListingLooksComplete | backend/internal/database/functions.go:195-213 | At exactly 1000 functions an insertion between count and listing makes a truncated listing pass for a complete one, and an older function's code may be removed. |
| DirProtocol.UpdateBehindTheListing | backend/internal/server/handlers/functions.go:338-507 | A reachable state, without a build, in which an update writes back a function deleted meanwhile behind the listing, and its code may be removed. |
| DirProtocol.RecordCheckIsNeeded | backend/internal/builder/gc.go:145-156 | A reachable state where, without the record check, the sweep could remove the only copy of a function's code. |
| DirProtocol.PurgeTakesRewrittenCode | backend/internal/server/handlers/functions.go:546-573 | A reachable state, without a build and with the collector idle, in which the purge of a deletion removes the code of a row an update has written back. |
| DirProtocol.UpdateUndoesDeploy | backend/internal/database/functions.go:223-247 | A reachable state in which a stale update puts the previous version back into the row of a new deploy. |
| OrphanSweep.FunctionsRoot.SweepOrphanFunctionDirs | backend/internal/builder/gc.go:310-354 | Removes exactly the visited directories that are of no listed function, old enough, unlocked and removable, and counts them. |
| OrphanSweep.SweepIsProtocolSteps | backend/internal/builder/gc.go:310-354 | What the loop removes is a run of the protocol's removal steps. |
| KvNumbers.FmtInt | backend/internal/database/kv.go:692-721 | Accepts exactly an optional sign and digits, and returns the denoted number reduced to 64 bits. |
| KvNumbers.FmtIntStr | backend/internal/database/kv.go:723-744 | Prints every 64-bit integer within a 20-byte buffer. |
| KvNumbers.ParsePrinted | backend/internal/database/kv.go:692-744 | Printing then parsing is the identity on every 64-bit integer except the smallest, which fails. |
| KvStore.Store.Put | backend/internal/database/kv.go:74-111 | Succeeds exactly for valid arguments; then value, update time, creation time and expiry of the row are stated by case and no other row changes. |
| KvLaws.PutReadsBack | backend/internal/database/kv.go:74-145 | A value put is read back at every later time up to its expiry and at none after it, and every other key reads as before. |
| KvStore.Store.Get | backend/internal/database/kv.go:117-145 | Returns the row exactly if it is there and not past its expiry. |
| KvStore.Store.Incr | backend/internal/database/kv.go:357-431 | Atomically replaces a readable counter by the wrapped sum, treating absent or expired as zero, or fails and changes nothing. |
| KvStore.Store.Cas | backend/internal/database/kv.go:446-529 | Swaps exactly if the guard holds and otherwise reports the visible value. |
| KvSwaps.SwapsIff | backend/internal/database/kv.go:446-529 | A swap that expects absence succeeds exactly if a get at that instant finds nothing, one that expects a value exactly if it finds that. |
| KvSwaps.RefusalTells | backend/internal/database/kv.go:488-503 | A refused swap reports what a get finds and changes nothing. |
| KvSwaps.SwapReadsBack | backend/internal/database/kv.go:504-529 | After a swap a get finds the new value up to the expiry asked for or carried over, and every other key reads as before. |
| KvSwaps.IncrementReadsBack | backend/internal/database/kv.go:357-431 | And so for an increment, which starts from zero if a get finds nothing. |
| KvSwaps.QuotedNumberCounts | backend/internal/database/kv.go:389-405 | An increment reads a number in quotes like a bare one, and other text as it is. |
| KvSwaps.OneSwapWins | backend/internal/database/kv.go:446-529 | In any history, of several swaps that expect absence of a key at most one succeeds until a deletion or an expiry. |
| KvSwaps.DeletedIsMissing | backend/internal/database/kv.go:147-161 | A deleted key is missing at any time and every other key reads as before. |
| KvSwaps.CreationIsKept | backend/internal/database/kv.go:74-111 | No write changes when a row was created. |
| KvSwaps.PrefixNarrows | backend/internal/database/kv.go:268-342 | A prefix narrows a listing to the matching names, all of them keys of the function that asks. |
| KvStore.Store.SweepExpired | backend/internal/database/kv.go:238-247 | A row remains exactly if it has no expiry or one in the future, unchanged, and the number removed is that of the others. |
| KvStore.Store.ListWithCursor | backend/internal/database/kv.go:268-342 | Returns the first keys beyond the cursor and a next cursor exactly if there are more. |
| KvStore.Store.Batch | backend/internal/database/kv.go:560-672 | Equals the fold of the single operations in order at one time, and changes nothing when it returns an error. |
| KvStore.AllThroughStore | backend/internal/database/kv.go:74-161 | Running the operations one by one through get, put and delete is that same fold. |
| KvLaws.SweepIsInvisible | backend/internal/database/kv.go:238-247 | A sweep at t changes no reply of any later sequence of get, put, increment, swap, delete, list and count at clocks after t. |
| KvLaws.SweepNoticedOnlyAtItsInstant | backend/internal/database/kv.go:238-247 | At t itself a sweep is noticed by reading a row that expires at t. |
| KvLaws.GetAndListDisagreeAtExpiry | backend/internal/database/kv.go:117-145 | Get and list agree about a row at every instant but its expiry. |
| KvLaws.IncrementsAddUp | backend/internal/database/kv.go:357-431 | Increments of a counter all succeed exactly if no earlier sum wraps to the smallest integer, and then hold the wrapped total. |
| KvLaws.IncrementsOfStoredText | backend/internal/database/kv.go:385-405 | The same from any stored text that parses. |
| KvLaws.TotalIsSum | backend/internal/database/kv.go:357-431 | The total is the initial value plus the sum of the deltas, whatever the order. |
| KvLaws.FollowedIsCollected | backend/internal/database/kv.go:22-33 | Because keys are not empty, following the cursors is exclusive paging, on tables that change between requests too. |
| KvLaws.StaticListingIsComplete | backend/internal/database/kv.go:268-342 | On an unchanging table following the cursors ends and yields every live key once, in order. |
| Paging.NeverRepeats | backend/internal/database/kv.go:268-342 | However the table changes between requests, the collected rows are strictly ascending. |
| Paging.NeverInvents | backend/internal/database/kv.go:268-342 | Each collected row was in some snapshot. |
| Paging.NeverSkips | backend/internal/database/kv.go:268-342 | A row present throughout a completed listing is collected. |
| Paging.StaticPagesAreTheTable | backend/internal/database/kv.go:268-342 | On an unchanging table the pages end and concatenate to the sorted table. |
| Paging.ProbeDecides | backend/internal/database/kv.go:316-342 | Reading one row more than a page gives the page and whether more follow. |
| Paging.FirstInOrderIsTake | backend/internal/database/kv.go:268-342 | Any answer that lists the least rows of a set in order is the head of the sorted set. |
| ActivityListing.Conditions | backend/internal/database/activity.go:68-118 | The assembled conditions hold of a row exactly if the filter selects it and it is beyond the cursor. |
| ActivityListing.ListActivity | backend/internal/database/activity.go:68-163 | Returns the newest rows that pass each filter, stated one by one, and are behind the cursor, 200 by default and at most 1000; the next cursor is the last row exactly for a full page. |
| ActivityListing.AnswerIsFetch | backend/internal/database/activity.go:119-163 | A database that answers by the conditions, newest first and limited, returns exactly the specified page. |
| ActivityListing.FetchIsPage | backend/internal/database/activity.go:95-118 | With positive timestamps and ids the two cursor fields are an exact cursor in (ts, id) order. |
| ActivityListing.StaticFeedIsComplete | backend/internal/database/activity.go:53-163 | On an unchanging table, following the cursors yields every row the filter selects once, newest first. |
| ActivityListing.FeedNeverSkips | backend/internal/database/activity.go:53-163 | However the table changes, a selected row present throughout a completed listing is listed. |
| ActivityListing.TimeOnlyCursorSkipsTies | backend/internal/database/activity.go:95-118 | A cursor without its id loses exactly the rows of the same timestamp. |
| ActivityListing.UnstampedRowRestarts | backend/internal/database/activity.go:140-163 | The cursor taken from a page's last row filters nothing, so the listing restarts, exactly if that row's timestamp is not positive. |
| ExecutionListing.ListExecutions | backend/internal/database/executions.go:632-751 | Count, probe and query may see different tables: the page is that of the exact query on the table its own statement saw, and the total that of all selected rows counted. |
| ExecutionListing.ScanRecent | backend/internal/database/executions.go:691-750 | The probe's answer is final only if it is the exact first page; else the window held too few successes. |
| ExecutionListing.PagesTile | backend/internal/database/executions.go:632-751 | On an unchanging table the pages at successive offsets are together the rows that pass each filter, each once and in order, and all but the last are full. |
| ExecutionListing.PageSizes | backend/internal/database/executions.go:632-751 | Without a usable limit a page is one of 50, and never more than 1000. |
| BuildCacheGc.CacheRoot.SweepBuildCaches | backend/internal/builder/gc.go:198-279 | Told by functions, days and times: without a cap what an existing function used lately stays, uncancelled what is stale goes, and only idle, unlocked caches ever do; least recently used first; none needlessly; uncancelled, it ends within the cap or with nothing evictable; freed bytes are the difference. |
| BuildCacheGc.CacheRoot.EvictToCap | backend/internal/builder/gc.go:243-271 | The running total equals the bytes that remain, and the pass evicts what the specification says. |
| BuildCacheGc.CacheRoot.DropExpired | backend/internal/builder/gc.go:212-240 | The age pass removes exactly the expired caches that are not young and can be removed, up to a cancellation. |
| BuildCacheGc.OlderGoesFirst | backend/internal/builder/gc.go:212-240 | Uncancelled and without a cap: if the cache of an existing function goes for its age, so does every older one that is idle, unlocked and removable. |
| BuildCacheGc.CacheRoot.EvictIdleBuildCaches | backend/internal/builder/buildcache.go:295-311 | Removes exactly the caches past the grace period whose lock is free, and returns their bytes. |
| BuildCacheGc.OldestGoFirst | backend/internal/builder/gc.go:250-271 | No cache is evicted for size while an older evictable one stays. |
| BuildCacheGc.StayedThroughout | backend/internal/builder/gc.go:250-271 | An evictable cache stays only if the total was within the cap when it was met, and nothing after it goes. |
| BuildCacheGc.LastEvictionNeeded | backend/internal/builder/gc.go:250-271 | Without its last eviction the total would exceed the cap. |
| BuildCacheGc.SweepKeepsItsBounds | backend/internal/builder/gc.go:198-279 | All these bounds for the two passes together, for any order of equally old caches. |
| VersionLifecycle.VersionStore.Build | backend/internal/builder/builder.go:116-218 | A published version is a cache hit; otherwise success publishes a whole, marked version by rename, and a failure at any stage leaves no scratch directory. |
| VersionLifecycle.VersionStore.ActivateVersion | backend/internal/builder/activate.go:21-46 | Retargets `current` exactly for a 64-digit hash and a rename that works; else the link stays. |
| VersionLifecycle.IsHexHash | backend/internal/builder/activate.go:48-59 | Accepts exactly 64 lower-case hexadecimal characters. |
| VersionLifecycle.ScratchIsApart | backend/internal/builder/builder.go:164-165 | Scratch names are recognised as such and never pass for a version. |
| VersionLifecycle.VersionStore.PruneFunction | backend/internal/builder/gc.go:371-431 | Keeps what is no candidate, the newest `keep` ready versions, the active one and those whose removal fails, and removes the rest. |
| VersionLifecycle.PruneKeepsNewest | backend/internal/builder/gc.go:404-431 | What is left after pruning, and that no removed version is newer than one of the newest `keep`. |
| VersionLifecycle.PruneBound | backend/internal/builder/gc.go:404-431 | If every removal works, at most one version beyond the newest `keep` is left, the active one. |
| VersionRuns.VersionsStayComplete | backend/internal/builder/builder.go:161-209 | In every run, with crashes between any two build steps and unlocked rollbacks at any time, each hash-named directory is marked and whole, and `current` names one. |
| VersionRuns.BuildCanServe | backend/internal/builder/builder.go:116-218 | From every reachable state, whatever crashes left, a build can publish any version, or find it, and serve it, and leaves every other directory alone. |
| VersionRuns.RollbackCanServe | backend/internal/builder/activate.go:21-46 | And a rollback can serve any published version, changing no directory. |
| VersionRuns.FailedBuildLeavesNothing | backend/internal/builder/builder.go:161-209 | A failing build gives up the lock and its scratch directory and takes nothing else with it. |
| VersionRuns.CrashLeavesMarkedScratch | backend/internal/builder/builder.go:183-201 | A reachable state with a marked scratch directory that is not whole, and that no later step takes for a version. |
| VersionRuns.PruneBeforeActivation | backend/internal/builder/gc.go:371-431 | With a prune before the activation of a build or a rollback, the function serves a complete version exactly if that version is among the newest `keep`, active, or not removable. |
| VersionRuns.RacingPruneLeavesDanglingLink | backend/internal/builder/builder.go:147-157 | A reachable run in which redeploying old code and a racing prune leave `current` dangling. |
| BackupArchive.ArchivePlan.PlanArchive | backend/internal/backup/backup.go:214-305 | Plans database, keys and walked files, with a manifest of all their digests, or fails for an unreadable snapshot. |
| BackupArchive.ArchivePlan.Walk | backend/internal/backup/backup.go:258-304 | The walk with its skips adds the items of the specification and keeps list and manifest in step. |
| BackupArchive.WalkIs | backend/internal/backup/backup.go:258-304 | A file or directory is planned exactly if it is reached over no link and nothing skipped on the way. |
| BackupRoundTrip.PlannedIff | backend/internal/backup/backup.go:258-304 | The backup takes what is at a path exactly if its function is in the snapshot and no name on the path is hidden outside a version directory. |
| BackupRoundTrip.VersionContentIsPlanned | backend/internal/backup/backup.go:377-382 | Every regular file below a version directory of a live function is planned, dotfiles too. |
| BackupRoundTrip.OrphansAreNotPlanned | backend/internal/backup/backup.go:278-285 | Nothing of a function missing from the snapshot is planned. |
| BackupRestore.ExtractTarGz | backend/internal/backup/backup.go:722-774 | Extraction stops at the first unsafe or conflicting entry and skips what is neither file nor directory. |
| BackupRestore.ExtractedStaysInside | backend/internal/backup/backup.go:738-749 | Whatever paths an archive names, nothing is staged outside the staging directory. |
| BackupRestore.UnsafeIff | backend/internal/backup/backup.go:738-749 | An archive is refused as unsafe exactly if it names a path outside before anything else stops it. |
| BackupRestore.ExtractedIsTree | backend/internal/backup/backup.go:750-774 | Whatever the entries, what is staged lies in staged directories and nothing is both a file and a directory. |
| BackupRestore.FilesAreItems | backend/internal/backup/backup.go:750-774 | Only a path that a file entry names is a staged file. |
| BackupRestore.LastItemStays | backend/internal/backup/backup.go:750-774 | A path that file entries name is staged with the content of the last of them. |
| BackupRestore.ReadAndVerifyManifest | backend/internal/backup/backup.go:674-715 | Accepts exactly the stages the specification accepts, checking each listed file. |
| BackupRoundTrip.VerifiedIff | backend/internal/backup/backup.go:674-715 | A manifest is accepted exactly if it can be read, is of version 1 or older, and every listed file is staged with the content it was taken of. |
| BackupRoundTrip.ManifestIs | backend/internal/backup/backup.go:214-305 | The manifest of a backup lists exactly the files it took, each by what it held. |
| BackupRoundTrip.TamperingIsNoticed | backend/internal/backup/backup.go:674-715 | Whatever else happened to an archive, with its backup's manifest it is accepted exactly if every file the backup took is there unchanged. |
| BackupRestore.HealReadyMarkers | backend/internal/backup/backup.go:609-646 | Writes the marker in exactly the non-empty hash-named version directories that lack it, and fails exactly for a plain file `functions`, a failed read, or a failed write. |
| BackupRestore.HealedIs | backend/internal/backup/backup.go:609-646 | Healing adds those markers, each naming its directory, and touches nothing else. |
| BackupRestore.Prepare | backend/internal/backup/backup.go:458-500 | Extraction, verification, healing and validation fail exactly as specified and otherwise give the specified stage. |
| BackupInstall.DataDir.RestoreFrom | backend/internal/backup/backup.go:458-591 | Rejected exactly if the stage cannot be prepared or the live database cannot be moved aside, and then nothing live changes; otherwise outcome and live data are those of the specification. |
| BackupInstall.DataDir.InstallFunctions | backend/internal/backup/backup.go:550-580 | Each staged function in turn: the live one is removed, then the staged one moved in, up to the first move that fails. |
| BackupInstall.DataDir.RebuildCurrentSymlinks | backend/internal/backup/backup.go:808-839 | Links each function with a code hash, in any row order, up to the first that cannot be linked. |
| BackupInstall.LinksIff | backend/internal/backup/backup.go:808-839 | In whatever order, all links are made exactly if none is obstructed and none fails. |
| BackupInstall.InstalledIs | backend/internal/backup/backup.go:550-580 | After all moves, each function's paths and link are the staged ones or, if it was not shipped, the live ones. |
| BackupInstall.FailedMoveDestroys | backend/internal/backup/backup.go:565-573 | When a move fails, that function has neither its live nor its staged tree. |
| BackupInstall.EndsBackIff | backend/internal/backup/backup.go:526-591 | A restore is rolled back exactly if some step up to the functions fails, and the rollback fails exactly if there was a database that cannot be moved back. |
| BackupInstall.EndsForwardIff | backend/internal/backup/backup.go:582-591 | Otherwise the data stays in place, and the links are complete exactly if no row with code is obstructed by a plain file or by content in the place of its link, or fails. |
| BackupInstall.RestoredIs | backend/internal/backup/backup.go:458-591 | A restore over any live directory that succeeds: the live database set aside, the staged one and the shipped keys in place, each shipped function as staged, every other as it was, and exactly the links of rows with code and of those others. |
| BackupInstall.RolledBackLeaves | backend/internal/backup/backup.go:526-591 | Database, set-aside copy, both keys and functions tree after a rolled-back or failed rollback, for every failing step. |
| BackupInstall.RollbackIsCompleteIff | backend/internal/backup/backup.go:519-576 | When the stage would change something: a rollback leaves everything live unchanged exactly if there was a database or the database itself failed, and the failing step precedes the first shipped key and the functions. |
| BackupInstall.RollbackLosesFunction | backend/internal/backup/backup.go:565-576 | When the functions step fails, some shipped function has no tree after the rollback. |
| BackupInstall.UnshippedSurviveRollback | backend/internal/backup/backup.go:550-580 | Functions that the backup does not ship keep their files through any failed restore. |
| BackupRoundTrip.ArchivePasses | backend/internal/backup/backup.go:458-500 | An archive as written always passes extraction, verification, healing and validation. |
| BackupRoundTrip.RestoredTreeIs | backend/internal/backup/backup.go:458-591 | Restored into an empty directory the files are exactly the planned ones with their contents plus the missing markers, less what the links replace. |
| BackupRoundTrip.RestoredLinksAre | backend/internal/backup/backup.go:808-839 | `current` names the code hash of exactly the functions that have one. |
| BackupRoundTrip.StagedKeysAre | backend/internal/backup/backup.go:503-548 | The prepared stage of a backup holds the database and both keys as they were. |
| BackupRoundTrip.RestoreGivesBack | backend/internal/backup/backup.go:458-591 | A backup of a deployed installation restored into an empty directory, without I/O errors, succeeds and leaves its database, its keys, and the tree of the two rows above. |
| BackupRoundTrip.RollbackIsPartial | backend/internal/backup/backup.go:565-576 | Restoring any backup over any installation where one function cannot be moved: rolled back, and that function is gone. |
| JobQueue.JobTable.EnqueueJob | backend/internal/database/jobs.go:60-121 | Replays, inserts or fails as specified, with other callers between its statements; an inserted row has the caller's values or their defaults, and nothing else changes. |
| JobQueue.JobTable.GetJobByIdempotency | backend/internal/database/jobs.go:126-142 | Finds the row with the key created at the cutoff or later, or none. |
| JobKeys.UndisturbedOutcome | backend/internal/database/jobs.go:60-121 | A keyed request alone enqueues exactly if no row ever got the key; else it replays while the row is younger than the window or a day, and then fails. |
| JobKeys.WindowIsKeptIff | backend/internal/database/jobs.go:54-58 | The promise of deduplication within the window is kept exactly if the row that holds the key, if any, is within it. |
| JobKeys.ExpiredKeyIsRefused | backend/internal/database/migrations.go:748-756 | A key two days old with the default window: the request fails. |
| JobKeys.LoserReplaysWinner | backend/internal/database/jobs.go:109-118 | A request that finds no row and loses the race to insert one replays the winner's. |
| JobKeys.OneJobPerKey | backend/internal/database/migrations.go:748-756 | However any number of requests and deletions interleave, two requests with one key both enqueue a job only if the first job was deleted in between. |
| JobKeys.SecondJobIff | backend/internal/database/executions.go:860-892 | A request that gets to its INSERT enqueues another job exactly if the last job with its key was deleted in between. |
| JobKeys.ReplayNamesTheJob | backend/internal/database/jobs.go:73-92 | In any such history a replay of a key names the job enqueued for it, if neither of the two is ever deleted. |
| JobQueue.JobTable.ClaimDueJobs | backend/internal/database/jobs.go:264-308 | Claims the earliest due jobs, at most the limit and fewer only if there are no more, each with one more attempt. |
| JobQueue.JobTable.MarkJobFailure | backend/internal/database/jobs.go:321-347 | Fails the job for good or sends it back to pending after its backoff, by the reported numbers. |
| JobQueue.JobTable.RequeueStuck | backend/internal/database/jobs.go:383-408 | Rows past the lease go back to pending or fail, by their attempts, and no other row changes. |
| JobQueue.BackoffIsCappedDoubling | backend/internal/database/jobs.go:329-342 | The backoff is two to the attempts up to an hour, within 2 to 3600 seconds, and never shrinks. |
| JobRuns.AttemptsStayBounded | backend/internal/database/jobs.go:264-308 | In every run with timely reports and retries of jobs at rest only, a pending job has an attempt left and a running one has used between one and its maximum. |
| JobRuns.NoTwoWorkers | backend/internal/database/jobs.go:264-308 | In those runs no job is in the hands of two workers that still hold their leases. |
| JobRuns.RacingClaimsDisjoint | backend/internal/database/jobs.go:264-308 | From any table, two claims in a row take different jobs. |
| JobRuns.FailureOutcome | backend/internal/database/jobs.go:321-347 | A timely failure ends the job exactly at its last attempt; otherwise it is due 2 to 3600 seconds later. |
| JobRuns.NothingRunsEarly | backend/internal/database/jobs.go:264-308 | Whatever the step, a job starts to run only by a claim, out of pending, at its time or later, and it costs an attempt. |
| JobRuns.FailedJobWaits | backend/internal/database/jobs.go:321-347 | In every run as assumed a job whose attempt failed stays untouched until its backoff is over. |
| JobRuns.SuccessIsKept | backend/internal/database/jobs.go:310-319 | In every run as assumed a reported success stays, with its times and attempts and no error, until a retry or a deletion. |
| JobRuns.FinishedStays | backend/internal/database/jobs.go:264-408 | And so does every finished row. |
| JobRuns.WaitingCanSucceed | backend/internal/database/jobs.go:264-319 | From every state a waiting job has a run in which it is claimed at any time from its own on, and succeeds. |
| JobRuns.RequeueOutcome | backend/internal/database/jobs.go:383-408 | Recovery changes exactly the rows that run for more than 1800 seconds or from no known time, and never loses or omits an error text. |
| JobRuns.StepIsSafeIff | backend/internal/database/jobs.go:321-347 | From every reachable state any step, late reports and retries included, keeps the invariant exactly if no other worker holds a lease on the job and, for a failure report, it ends the job, the row has an attempt left, or the worker is in time. |
| JobRuns.TimelyIsHarmless | backend/internal/database/jobs.go:321-347 | Under the invariant, timely reports and retries of jobs that are not running meet that condition. |
| JobRuns.LateReportOverruns | backend/internal/database/jobs.go:383-408 | A reachable state in which a late report leaves a pending job without an attempt. |
| JobRuns.LateReportDoublesWorkers | backend/internal/database/jobs.go:321-347 | A reachable state from which a late report within the attempts puts a job in the hands of two timely workers. |
| JobRuns.LateFailureRerunsSuccess | backend/internal/database/jobs.go:321-347 | A reachable state in which a job that has succeeded goes back to pending by a late failure report. |
| JobRuns.RetryOfRunningDoublesWorkers | backend/internal/server/handlers/jobs.go:158-172 | A reachable state in which retrying a running job does. |

## Left out

- SQLite, WAL, connections, prepared statements and query planning: a table is a map or a list, a transaction a step.
- LIKE is an arbitrary predicate, so what a key prefix with wildcards matches is open; the documentation calls it a prefix.
- A direct write after the writer has stopped bypasses the queue; the ledger covers queued jobs only.
- Writer timing metrics, logs and rejected-call counters.
- `jobBytes`: a job's size is any natural number.
- `permanentWriteFailure`: which errors are permanent is the database's answer to a statement.
- The check for left-over soft references: the migration is proved for any answer it gives.
- Ids of other kinds in a column that is listed for one: the activity log's actor may be a webhook, which is not rewritten.
- Pruning of single versions is part of `VersionRuns`; in the directory protocol a function's versions go together.
- Partial removal of directories, mode bits, ownership and disk space.
- Memoised cache sizes: a cache's size is what the listing says.
- Installing dependencies, compiling and syntax checks are one build stage that may fail.
- tar, gzip and JSON encodings, and archive entries that put a directory in the place of a key file.
- Job payloads and trace fields; webhook deliveries, which copy the job table's rules.
- Row CRUD, trace summaries, HTTP handlers, the command line, the frontend and the AI provider calls.
