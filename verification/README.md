# Prestige storage protocols, modelled and proved in Dafny

Prestige writes streams of records into columnar files and keeps them in one of
two ways: as an Iceberg table reached through a catalog, or as plain Parquet
files under a key prefix in an object store. This project models the protocol
logic of both and proves what it guarantees, run by run.

**The Iceberg side** works on one shared model of the catalog. A table has
snapshots with their manifest lists, named refs and a last sequence number; a
commit checks its requirements and then applies its updates, atomically. Every
client is a number of steps on that table, each of which builds its request from
a table it loaded earlier; all other clients' requests may land in between.

| file | what it models |
|---|---|
| `Catalog.dfy`, `CatalogServer.dfy` | table metadata, liveness entry by entry, fast appends, atomic commits; the catalog as one client sees it, with arbitrary rivals between its calls |
| `Rewrite.dfy`, `Compactor.dfy`, `CompactionRuns.dfy` | the compactor: choosing files, the rewrite snapshot, commit with retries, and every interleaving of appends with any number of compactors |
| `CompactionData.dfy` | the rows: duplicate filter, per-partition buffers, sorted output files |
| `History.dfy`, `Scanner.dfy`, `IcebergPoller.dfy` | incremental scans over a history of appends and rewrites, and the poller's checkpoint and acknowledgements |
| `PolledRuns.dfy` | both together: appenders, compactors and a poller on one table |
| `Branch.dfy`, `BranchRows.dfy`, `WapTransaction.dfy` | audit branches, their files and rows, and the write-audit-publish transaction with crashes, restarts and requests that land late |
| `IcebergSink.dfy`, `CommitRecovery.dfy` | the buffering sink with its bounded commit pipeline, and its crash recovery from local manifests |
| `SchemaReconciliation.dfy` | schema evolution |

**The file side** models the bucket as a map from keys to bodies.

| file | what it models |
|---|---|
| `FileGroups.dfy`, `FilePlan.dfy`, `FileCompactor.dfy` | grouping source files into size-bounded outputs, the dry-run plan, and a whole run with uploads, markers and deletions that can fail |
| `FileKeys.dfy` | key printer, parser and order, and listing behind a printed key |
| `ParquetSink.dfy` | the rotating file sink and what the upload server does to its files |
| `FilePoller.dfy` | the file poller and the table of processed files |

Code that changes fields in place is a class with those fields or a method with
loops, proved against functions on values; what the protocol promises is then
proved about those functions. Outcomes of the outside world (clocks, failing
requests, which background task finishes) are arguments or constants that the
statements range over. Every lemma states `{:induction false}` so that each proof
rests on its body alone.

## What turned out false, and where exactly

* A rewrite makes live what it should if and only if no manifest mixes rewritten
  files with others (`Rewrite.RewriteLivePaths`). Unpartitioned runs never mix
  (`CompactionRuns.RewritesAreExact`); with partitions a mixed manifest survives
  with all its files and rows appear twice (`Rewrite.MixedManifestDuplicatesRows`).
* The crate's README calls the poller "compaction-aware" because scans skip
  rewritten data that was already consumed. The scan also skips rewrites of data
  that was not consumed yet; those rows are never delivered. Losses happen exactly
  by acknowledging a window in which a rewrite took a file with rows that was appended
  in the same window (`IcebergPoller.LossesComeFromUnreadRewrites`); a
  compaction of the whole table hides all of it (`IcebergPoller.FullRewriteHidesWindow`).
* Publishing a branch pins main's id but not its ancestry. It keeps every file of main
  exactly when the branch descends from main's snapshot and no compaction on the way
  took one (`Branch.PublishKeepsFilesExactly`). In rows, wherever compactions keep them,
  it takes off main exactly the appends that the branch does not descend from
  (`BranchRows.PublishAccount`, `BranchRows.PublishTakesNothingExactly`).
* The sink counts a refused commit as "already committed" and deletes the recovery
  manifest. Files are lost exactly that way (`CommitRecovery.LostExactlyToConflicts`).
  Recovery in turn can append again what is in the table. A file can be appended once
  more exactly when it is in a manifest or in a request still on its way
  (`CommitRecovery.AppendableExactly`).
* A comment promises that an explicit commit leaves the data durable; the code waits
  for the background commits but does not look at their outcome. When it returns, its
  files are in the table exactly if its request landed: certainly after "committed" or
  "already referenced", certainly not after a conflict, and either way after another
  error (`CommitRecovery.ReturnedIsDurableExactly`). Runs that return without the file
  in the table are `CommitRecovery.ReturnsBeforeItIsDurable` and
  `CommitRecovery.ConflictLosesData`.
* In the file compactor the batch that trips the size limit ends the reading of its
  file. Rows stay unread exactly when such a batch has rows behind it
  (`FileGroups.UnreadExactly`), and a run is complete exactly when it meets no such file
  (`FileGroups.CompleteExactly`); the file still counts as consolidated
  (`FileCompactor.BatchesBehindTheLimitAreLost`). The plan does read those batches, and
  counts output files differently (`FilePlan.PlannedAgainstWritten`,
  `FilePlan.PlanOvercounts`).
* Markers are listed as empty files and take part in naming an output. An output of an
  earlier run survives exactly when the last group of its time, if there is one, has the
  same body (`FileCompactor.OutputSurvivesExactly`). With only markers at that time it is
  replaced exactly when a marker is the last accepted file and other rows are held by
  then (`FileCompactor.SurvivesUnlessLast`); a late file suffices
  (`FileCompactor.LateFileReplacesOutput`).
* Deleting a source's marker although deleting the source failed makes the next run
  consolidate it again (`FileCompactor.TakenAgainExactly`).
* Listing behind a printed key misses exactly the files in the window whose keys sort
  before it (`FileKeys.PushdownIsExact`): those of its type with more digits, and types
  that go on with a comma (`FileKeys.UncutExactly`). It lists exactly the types whose
  name starts with the prefix (`FileKeys.ListedTypesExactly`).
* Two files that a sink opens in one millisecond share a name, and the second replaces
  the first where it finds it, in the target directory or in the bucket. Rows are missing
  exactly when a file that is committed, or written since and not rolled back, lost its
  last copy that way (`ParquetSink.RowsKeptExactly`). Closing a file under a name that
  only the target directory holds does it from any state
  (`ParquetSink.ReopenedNameLosesRows`), as does copying one over another
  (`ParquetSink.CopiedOverLosesRows`), and two commits in one millisecond are enough
  (`ParquetSink.TwoCommitsOneName`); a rollback spares a file that has been moved
  (`ParquetSink.RollbackSparesMovedFile`). If the clock shows every millisecond once
  nothing is lost (`ParquetSink.ParquetSink.Run`). A name queued before also makes the
  server fetch a file that is then rolled back (`ParquetSink.RolledBackRowsAreUploaded`).
  Recovery after a crash uploads staged files that were never committed
  (`ParquetSink.ParquetSink.RecoverFromCrash`).
* The file poller hands a file out twice exactly when it looks at it again with its cache
  entry expired and no record of it (`FilePoller.IssuedTwiceExactly`). A consumer that
  records late is one way (`FilePoller.ExpiredIsHandedOutAgain`). The other needs only
  late files within the offset: a cleanup removes a record
  (`FilePoller.CleanRemovesExactly`), and queueing a late file pulls the bound back behind
  it (`FilePoller.BoundFallsExactly`, `FilePoller.CleanedIsHandedOutAgain`). Cleaning skips
  100 records, so it keeps 101, not 100 as its comment says.
* A write that fails leaves a write-audit-publish transaction in its Complete phase,
  whose `publish` answers success (`WapTransaction.Transaction.Write`,
  `WapTransaction.Transaction.Publish`).
* A transaction's id is meant to make it idempotent. It does if every process starts
  after the requests of the earlier ones have landed or are lost
  (`WapTransaction.QuietRestartsAreSafe`). Otherwise the data is written twice exactly
  when a write loads a table that has the id, for which only `begin` looks, and is
  accepted (`WapTransaction.WrittenAtMostOnce`); `begin` answers Complete for data that
  was never on main exactly after a deletion or an older publish landed on the written
  branch (`WapTransaction.CompleteIsSound`); and it answers Publisher for a branch
  without the data exactly after a late creation (`WapTransaction.PublisherIsSound`).
  All three happen: a commit that lands while the next process deletes the branch as
  stale (`WapTransaction.LateCommitIsOrphaned`, `WapTransaction.LateCommitIsDoubled`),
  and a creation that lands after the publish, which lets the next publish take the data
  off main (`WapTransaction.LateCreateMovesMainBack`).
* A schema change is committed by name and the catalog numbers new columns itself, so the
  table does not get the schema that was reconciled. What it gets is up to date next time
  exactly when no identifiers are asked for and there are none, or they are asked for and
  none of their columns is dropped (`SchemaReconciliation.SettlesExactly`). In particular,
  asking for none on a table that has some is "evolved" every time and never takes effect.

## Model

| member | source | states |
|---|---|---|
| Catalog.AppendLive | prestige/src/iceberg/branch.rs:124-135 | a fast append makes live exactly its own files in front of everything that was live; manifests without live entries can be left behind without loss |
| Catalog.CommitOfAdvance | prestige/src/iceberg/compactor.rs:538-568 | a commit that pins a ref to the loaded snapshot conflicts exactly when the ref has moved, and otherwise adds the snapshot and moves the ref in one step |
| CatalogServer.GenerateUniqueSnapshotId | prestige/src/iceberg/compactor.rs:572-588 | the id found is not in use in the loaded table |
| CatalogServer.AdvanceKeepsWellFormed | prestige/src/iceberg/branch.rs:60-209 | requests built from any earlier table keep refs resolved and parents older than their children |
| Rewrite.QualifyingEntries | prestige/src/iceberg/compactor.rs:126-144 | the grouping loop takes exactly the live files of partitions with enough files, each once, and counts those partitions |
| Rewrite.SurvivingManifests | prestige/src/iceberg/compactor.rs:445-479 | the manifests carried forward are those with a live entry outside the compacted set, verbatim and in order |
| Rewrite.RewriteLivePaths | prestige/src/iceberg/compactor.rs:427-519 | after a rewrite the live paths are (parent live − compacted) ∪ new if and only if no manifest mixes compacted and other live paths |
| Rewrite.RewriteRows | prestige/src/iceberg/compactor.rs:427-519 | the exact row account of a rewrite: what is duplicated are the compacted rows of surviving manifests |
| Rewrite.MixedManifestDuplicatesRows | prestige/src/iceberg/compactor.rs:445-479 | a concrete table on which a compaction of one partition duplicates rows |
| CompactionRuns.RowsAreConserved | prestige/src/iceberg/compactor.rs:240-315 | in every interleaving of appends, compactions, retries and crashes on an unpartitioned table, main holds exactly the rows of the accepted appends |
| CompactionRuns.NoInputCompactedTwice | prestige/src/iceberg/compactor.rs:240-315 | two compactions that took a common file never both commit |
| CompactionRuns.RewritesAreExact | prestige/src/iceberg/compactor.rs:427-519 | in unpartitioned runs no manifest ever mixes, so every pending rewrite would make live exactly what it should |
| CompactionRuns.RetryExactlyWhenInputIsLive | prestige/src/iceberg/compactor.rs:259-285 | the entry count after a reload matches if and only if every input path is still live |
| CompactionRuns.CountFindsEveryPath | prestige/src/iceberg/compactor.rs:279-284 | the pigeonhole behind that check: with one live entry per live path, as many entries as paths means all paths |
| CompactionRuns.BoundedSubmissions | prestige/src/iceberg/compactor.rs:245-312 | a compaction is submitted at most four times |
| CompactionRuns.PlanExactly | prestige/src/iceberg/compactor.rs:126-156 | in every run a compaction starts if and only if some files, and at least the minimum, are live and rewriting them yields files; it then takes all live files |
| CompactionRuns.SubmissionExactly | prestige/src/iceberg/compactor.rs:294-312 | in every run a submission commits if and only if main is still what it was built on; otherwise the compaction reloads, and stops after the fourth |
| Compactor.IcebergCompactor.CommitRewrite | prestige/src/iceberg/compactor.rs:339-569 | one submission either lands as the rewrite of the chosen entries or changes nothing, and conflicts exactly when main has moved |
| Compactor.IcebergCompactor.CommitWithRetries | prestige/src/iceberg/compactor.rs:245-315 | the answer is decided by what the rivals do (see `Run.Answers` and the three rows below); success means the rewrite was applied to the main they left, failure that only their work is there |
| Compactor.IcebergCompactor.Execute | prestige/src/iceberg/compactor.rs:80-335 | there is nothing to do exactly when main has no snapshot or no partition with enough live files; nothing is written exactly when the rewrite of the chosen files yields none; otherwise exactly the qualifying files are rewritten with the answer that the rivals decide |
| Compactor.ConflictExactly | prestige/src/iceberg/compactor.rs:294-315 | a conflict is reported if and only if main had moved under all four submissions and every reload in between found all files |
| Compactor.MissedAtReload | prestige/src/iceberg/compactor.rs:247-285 | missing files are reported only at a reload after a conflict, when the live entries under the chosen paths number other than the paths |
| Compactor.QuietRivalsLetItLand | prestige/src/iceberg/compactor.rs:294-301 | if no rival moves main or uses up the sequence number before it, the first submission lands |
| CompactionData.DeduplicatingAccumulator.AddBatch | prestige/src/iceberg/compactor.rs:618-667 | batch by batch the output is the first occurrence of every key of all input, and kept plus eliminated rows are the input rows |
| CompactionData.FirstsMeaning | prestige/src/iceberg/compactor.rs:645-666 | a record is kept if and only if it is the first with its key |
| CompactionData.SortSorts | prestige/src/iceberg/compactor.rs:710-731 | a flushed buffer comes out ordered by the rank that the table's sort columns give its rows |
| CompactionData.StreamingCompactionWriter.FlushPartition | prestige/src/iceberg/compactor.rs:820-847 | a flush writes a sorted permutation of exactly that partition's buffer, once |
| CompactionData.StreamingCompactionWriter.Write | prestige/src/iceberg/compactor.rs:776-817 | every row goes into its own partition, in order; a partition's batch is buffered while the buffered bytes stay below the target and otherwise everything buffered goes into one file, so no smaller file is written and every buffer ends below the target |
| CompactionData.StreamingCompactionWriter.Close | prestige/src/iceberg/compactor.rs:851-857 | nothing stays buffered and the files hold, partition by partition, exactly what was taken in |
| CompactionData.Compact | prestige/src/iceberg/compactor.rs:190-233 | the new files hold exactly the kept rows, each in its own partition; rows read = rows kept + duplicates |
| History.LiveDistinct | prestige/src/iceberg/compactor.rs:112-124 | on a history of appends and rewrites every live path has one live entry, and every live file was added by some change |
| Scanner.ScanSnapshotRange | prestige/src/iceberg/scanner.rs:66-205 | each error exactly when its snapshot is missing; between any two snapshots of a history, the upper one given or main's, the live entries of exactly the paths that appends of the window added; the parent walk ends |
| Scanner.RangeScanIsExact | prestige/src/iceberg/scanner.rs:120-183 | a window returns precisely the paths added by its appends that are still live at its end |
| Scanner.NoCompactionOutput | prestige/src/iceberg/scanner.rs:158-165 | a window never returns a file that a compaction wrote |
| Scanner.WindowsCompose | prestige/src/iceberg/scanner.rs:80-205 | on append-only histories consecutive windows split a longer window into disjoint parts |
| IcebergPoller.IcebergPollerServer.PollOnce | prestige/src/iceberg/poller.rs:184-295 | one poll in every case: a stream is sent and outstanding exactly when the channel is settled, the table loaded, main ahead of the checkpoint, the checkpoint unset or still in the table, and the consumer took it in time; it then carries main's id. A consumer that is slow or gone leaves the poller as settled, and only one that is gone ends it |
| IcebergPoller.DeliveredThenAnswered | prestige/src/iceberg/poller.rs:184-295 | after a delivered stream the next poll moves the checkpoint to its snapshot if it was acknowledged, waits if it is unanswered, and sends it again if it was dropped |
| IcebergPoller.StreamsFollowOneAnother | prestige/src/iceberg/poller.rs:184-295 | in every run a stream is sent only once the one before it is settled; it starts where acknowledged and lost rows end and, with what a rewrite took away, reaches to the end of the history |
| IcebergPoller.AcknowledgedExactlyOnce | prestige/src/iceberg/poller.rs:184-295 | in every run acknowledged plus lost rows are exactly the rows appended up to the last acknowledged snapshot, so none is acknowledged twice |
| IcebergPoller.CheckpointIsConsumed | prestige/src/iceberg/poller.rs:184-220 | the checkpoint names the snapshot up to which all is accounted for and moves only to an acknowledged one |
| IcebergPoller.LossesComeFromUnreadRewrites | prestige/src/iceberg/scanner.rs:158-165 | a step loses rows if and only if it acknowledges a window in which a rewrite took a file with rows appended earlier in that window |
| IcebergPoller.GoneExactlyWhenTaken | prestige/src/iceberg/scanner.rs:158-165 | a file appended in a window is not live at its end if and only if a rewrite of the window took it |
| IcebergPoller.FullRewriteHidesWindow | prestige/src/iceberg/scanner.rs:158-165 | when a compaction of the whole table ends a window, its stream is empty and every row appended in the window is lost |
| IcebergPoller.ScanAccount | prestige/src/iceberg/scanner.rs:120-183 | appended before + delivered + rewritten away inside the window = appended by its end, as rows |
| PolledRuns.StepTracks | prestige/src/iceberg/compactor.rs:240-569 | every accepted append or rewrite of a run of appenders and compactors extends a linear, row-preserving history that the table retains and shows on main; every other step leaves it |
| PolledRuns.PolledRowsAreConserved | prestige/src/iceberg/poller.rs:184-295 | with appenders, compactors and a poller interleaved in any way: acknowledged, lost and not yet streamed rows together are the rows of main, which are the rows of the accepted appends |
| Branch.CommitOfPublish | prestige/src/iceberg/branch.rs:213-250 | publishing moves main and removes the branch in one step, or conflicts exactly when main has moved |
| Branch.CommitOfCreate | prestige/src/iceberg/branch.rs:25-56 | creating a branch conflicts exactly when the name exists and otherwise points it at the loaded main |
| Branch.CommitOfDelete | prestige/src/iceberg/branch.rs:253-268 | deleting removes the ref whether or not it is there |
| Branch.RunTables | prestige/src/iceberg/branch.rs:25-268 | in every run of stale clients refs name existing snapshots and no snapshot ever changes |
| Branch.AuditIsolation | prestige/src/iceberg/branch.rs:60-250 | a file committed to a branch is live on main only after a publish moved main to a branch snapshot that holds it |
| Branch.PublishKeepsMain | prestige/src/iceberg/branch.rs:239-247 | a publish keeps every live path of main when only appends lead from it to the branch, and only when main's snapshot is an ancestor of the branch's |
| Branch.PublishKeepsFilesExactly | prestige/src/iceberg/branch.rs:239-247 | in every run a publish keeps all live paths of main if and only if main's snapshot is an ancestor of the branch's and no snapshot in between took one of them |
| Branch.PublishLosesNothingExactlyWhenDescending | prestige/src/iceberg/branch.rs:239-247 | in runs without rewrites, if and only if main's snapshot is an ancestor of the branch's |
| BranchRows.PublishAccount | prestige/src/iceberg/branch.rs:239-247 | in every run whose rewrites keep the rows: main after a publish plus the appends that only the old main descends from is main before plus those that only the branch descends from |
| BranchRows.PublishTakesNothingExactly | prestige/src/iceberg/branch.rs:239-247 | a publish takes no row off main if and only if every append that main descends from and the branch does not is empty |
| BranchRows.RowsOfLine | prestige/src/iceberg/branch.rs:124-135 | a snapshot holds exactly the rows of the appends it descends from |
| Branch.PublishDropsLaterAppend | prestige/src/iceberg/branch.rs:239-247 | an append to main after the branch was made is lost by publishing it |
| WapTransaction.Transaction.Begin | prestige/src/iceberg/transaction.rs:108-160 | the phase reached from each detected state; success exactly when the name is valid and the branch is not there when its creation arrives; a fresh branch points at the loaded main, and otherwise nothing but the deletion of a stale branch was done to the table |
| WapTransaction.Transaction.Write | prestige/src/iceberg/transaction.rs:174-229 | success exactly when the name is valid, there are files, and no rival moved the branch or used up the sequence number; it puts exactly the files on the branch under the wap id; failure changes nothing and leaves the transaction Complete |
| WapTransaction.Transaction.Publish | prestige/src/iceberg/transaction.rs:235-253 | success exactly when the branch is there on loading and main does not move until the commit; it puts the branch's snapshot on main and removes the branch; a Complete transaction answers success without doing anything |
| WapTransaction.ClientFollowsReplies | prestige/src/iceberg/transaction.rs:108-253 | in every run each call succeeds exactly when the reply that the methods above give for these tables is a success and is heard, and the process goes on accordingly |
| WapTransaction.WrittenAtMostOnce | prestige/src/iceberg/transaction.rs:184-201 | over any crashes, restarts and late requests at most one snapshot carries the wap id if and only if no commit is accepted whose write loaded a table with the id |
| WapTransaction.CompleteIsSound | prestige/src/iceberg/transaction.rs:98-160 | whenever "id found, branch gone" holds such a snapshot has been on main, throughout a run, if and only if no deletion and no publish of an earlier state of the branch lands on the written branch before that |
| WapTransaction.PublisherIsSound | prestige/src/iceberg/transaction.rs:98-160 | whenever "id found, branch there" holds the branch names such a snapshot, throughout a run, if and only if no creation from a main without it lands on a table with the id |
| WapTransaction.QuietRestartsAreSafe | prestige/src/iceberg/transaction.rs:24-55 | if no process starts while a request of an earlier one is on its way, the data is written at most once and both answers of `begin` are true |
| WapTransaction.LateCommitIsOrphaned | prestige/src/iceberg/branch.rs:253-268 | for every table with a main: a run in which a commit lands before the deletion of its branch as stale, and `begin` answers Complete without the data ever on main |
| WapTransaction.LateCommitIsDoubled | prestige/src/iceberg/transaction.rs:125-139 | the same process going on: a run that writes the data twice |
| WapTransaction.LateCreateMovesMainBack | prestige/src/iceberg/branch.rs:25-56 | for every table with a main: a run in which a late creation makes a publish take published data off main |
| WapTransaction.OtherBranchesKeepOff | prestige/src/iceberg/branch.rs:25-268 | clients of other branches do nothing that the resumption relies on not happening |
| IcebergSink.CommitPipeline.EnsureCapacity | prestige/src/iceberg/sink.rs:906-916 | there is room for one more commit afterwards and at most one running commit was waited for |
| IcebergSink.IcebergSink.FlushBuffer | prestige/src/iceberg/sink.rs:595-618 | the buffer becomes one staged batch and the counters follow, or nothing changes |
| IcebergSink.IcebergSink.PrepareAndEnqueue | prestige/src/iceberg/sink.rs:680-781 | everything outstanding becomes one commit, or staged batches and counters are as just after the flush |
| IcebergSink.IcebergSink.WriteItems | prestige/src/iceberg/sink.rs:559-575 | rows are accepted in order even on failure and the loop ends; the buffer is staged exactly when it is full, and everything outstanding handed over exactly when the staged rows, bytes or the age of the first row reach their limits |
| IcebergSink.IcebergSink.Commit | prestige/src/iceberg/sink.rs:665-673 | with a buffer that serializes and a preparation that succeeds, a commit hands over everything outstanding and returns with no commit in flight; otherwise it fails and nothing is handed over |
| IcebergSink.IcebergSink.Rollback | prestige/src/iceberg/sink.rs:823-838 | exactly the outstanding rows are discarded, and the counters reset |
| IcebergSink.IcebergSink.Handle | prestige/src/iceberg/sink.rs:452-487 | what each message leaves outstanding, handed over or discarded, and what its sender is told |
| IcebergSink.IcebergSink.Run | prestige/src/iceberg/sink.rs:440-506 | over every sequence of messages each accepted row is, in arrival order, in exactly one commit, rollback, staged batch or the buffer |
| CommitRecovery.NothingRecordedIsLost | prestige/src/iceberg/manifest.rs:251-294 | in every run with crashes anywhere and no conflict answered, each recorded file is in the table or in a manifest on disk |
| CommitRecovery.LostExactlyToConflicts | prestige/src/iceberg/manifest.rs:220-246 | in all runs the lost files are exactly those whose manifest went after a conflict and that did not land otherwise |
| CommitRecovery.CompletedExactly | prestige/src/iceberg/sink.rs:923-975 | a completed task takes its manifest along if and only if there is one to remove, removing works, and the answer was "committed", "already referenced" or a conflict |
| CommitRecovery.ManifestGoesExactly | prestige/src/iceberg/sink.rs:923-975 | over runs: that is, for a recovery, or for a commit that wrote its manifest without an error |
| CommitRecovery.CleanDiskMeansAppended | prestige/src/iceberg/manifest.rs:251-294 | once no manifest is left on disk, as `SmoothRunsAppendOnce` shows of runs without errors, and no conflict was answered, everything recorded is in the table |
| CommitRecovery.ConflictLosesData | prestige/src/iceberg/sink.rs:1031-1035 | a crash-free run in which a conflict loses a recorded file |
| CommitRecovery.AppendsAreBoundedByRestarts | prestige/src/iceberg/sink.rs:509-557 | a file is appended at most once plus once per restart |
| CommitRecovery.OnceWithoutCrash | prestige/src/iceberg/sink.rs:1010-1038 | without a restart, a file whose task heard "committed" or "already referenced" is in the table exactly once |
| CommitRecovery.OnceForGoodExactly | prestige/src/iceberg/sink.rs:938-946 | a file whose commit was confirmed is in the table exactly once in every continuation, restarts included, if and only if its manifest went with the completed task |
| CommitRecovery.SmoothRunsAppendOnce | prestige/src/iceberg/sink.rs:923-1038 | in runs without crash, panic or error no manifest is left when the last task is done, and every file written is in the table exactly once |
| CommitRecovery.RecoveryAppendsAgain | prestige/src/iceberg/manifest.rs:268-286 | from any reachable state, a restart can append every file still in a manifest once more |
| CommitRecovery.AppendableExactly | prestige/src/iceberg/manifest.rs:251-294 | from any reachable state, some continuation appends a file once more if and only if it is in a manifest on disk or in a request neither landed nor refused |
| CommitRecovery.ReturnedIsDurableExactly | prestige/src/iceberg/sink.rs:665-673 | when an explicit commit returns its files are in the table, all or none, if and only if its request landed; heard answers decide it except for other errors and panics |
| CommitRecovery.HeardIsDurable | prestige/src/iceberg/sink.rs:923-975 | in every run the files of a commit that heard "committed" or "already referenced" are in the table from then on |
| CommitRecovery.ReturnsBeforeItIsDurable | prestige/src/iceberg/sink.rs:899-903 | a run in which an explicit commit has returned and its file is in the manifest only |
| SchemaReconciliation.ReconcileSchema | prestige/src/iceberg/schema.rs:227-311 | the loops compute the reconciliation, error cases included |
| SchemaReconciliation.EvolvedColumns | prestige/src/iceberg/schema.rs:251-266 | Arrow order, kept columns with id and type, new ones optional with distinct ids above the catalog's highest |
| SchemaReconciliation.ReportedNames | prestige/src/iceberg/schema.rs:263-273 | added and dropped are exactly the name differences |
| SchemaReconciliation.UpToDateExactly | prestige/src/iceberg/schema.rs:275-294 | "up to date" if and only if the column names agree and the identifiers resolve to the current ids |
| SchemaReconciliation.EvolvedIsAFixpoint | prestige/src/iceberg/schema.rs:227-311 | the proposed schema, were it the table's, would be up to date |
| SchemaReconciliation.CommittedColumns | prestige/src/iceberg/table.rs:302-350 | the catalog ends up with exactly the requested columns, kept ones unchanged, names and ids distinct, identifiers as before |
| SchemaReconciliation.CommittedIsAFixpointExactly | prestige/src/iceberg/table.rs:263-297 | after an accepted change the next reconciliation is up to date if and only if the identifiers asked for resolve to those the table carries |
| SchemaReconciliation.SettlesExactly | prestige/src/iceberg/table.rs:302-350 | that is, if and only if none are asked for and there are none, or they are asked for and no identifier column is dropped |
| SchemaReconciliation.ClearedIdentifiersNeverSettle | prestige/src/iceberg/table.rs:302-350 | for any schemas: clearing identifiers is accepted, changes nothing and comes back at every start |
| FileGroups.DeduplicatingAccumulator.AddBatch | prestige/src/file_compactor.rs:495-522 | the mask loop keeps exactly the unseen rows and counts the others |
| FileGroups.GroupsCoverAccepted | prestige/src/file_compactor.rs:995-1182 | outputs cover consecutive runs of the accepted files: none skipped, none twice |
| FileGroups.AcceptedExactly | prestige/src/file_compactor.rs:1037-1070 | a file takes part if and only if it is empty or has the schema of the first readable file |
| FileGroups.ReadThenUnread | prestige/src/file_compactor.rs:1075-1109 | a file contributes an initial part of its rows |
| FileGroups.OutputRows | prestige/src/file_compactor.rs:1075-1182 | the outputs are the rows read, in order, less those seen in any earlier file; kept plus duplicates are the rows read |
| FileGroups.OutputsHaveNoDuplicates | prestige/src/file_compactor.rs:495-522 | with deduplication all outputs together hold every row read exactly once |
| FileGroups.ReadOrLost | prestige/src/file_compactor.rs:1093-1105 | each row of an accepted file is read or left behind, once |
| FileGroups.UnreadExactly | prestige/src/file_compactor.rs:1075-1109 | rows of a file stay unread if and only if one of its batches lifts a non-empty accumulator over the limit and has rows behind it |
| FileGroups.LostExactly | prestige/src/file_compactor.rs:995-1182 | a run leaves rows behind if and only if some accepted file is cut that way when it is reached |
| FileGroups.CompleteExactly | prestige/src/file_compactor.rs:995-1182 | without deduplication the outputs hold all rows of the accepted files, in order, if and only if no file is cut |
| FileGroups.SingleBatchOutput | prestige/src/file_compactor.rs:995-1182 | with one batch per file the outputs are exactly the input rows in order, first occurrences only with deduplication on |
| FileGroups.OutputKeysIncrease | prestige/src/file_compactor.rs:729-737 | distinct source timestamps give strictly increasing output keys |
| FileGroups.OutputSize | prestige/src/file_compactor.rs:1093-1105 | without deduplication an output is at most the larger of limit and batch bound, plus one batch |
| FileGroups.OutputsAreFull | prestige/src/file_compactor.rs:1093-1182 | without deduplication every output is over the limit, though not before its last batch, except one closed at the end of the run, which holds what the limit had room for |
| FileGroups.OneOutputWhenAllFits | prestige/src/file_compactor.rs:1093-1182 | without deduplication, accepted files that fit the limit altogether go into one output, if they have rows |
| FilePlan.PlanCompaction | prestige/src/file_compactor.rs:1249-1418 | the planning loops compute the plan |
| FilePlan.PlanDividesBatches | prestige/src/file_compactor.rs:1339-1398 | without deduplication the announced outputs divide the batches of all accepted files, in order, into runs that stay within the limit unless one batch exceeds it, each closed only before a batch that would not fit |
| FilePlan.OnePlannedWhenAllFits | prestige/src/file_compactor.rs:1339-1398 | without deduplication, a plan over files that fit the limit altogether announces one output, if they have rows |
| FilePlan.PlanCountsExactly | prestige/src/file_compactor.rs:1339-1398 | the planned records are the rows of the accepted files, or their distinct rows with deduplication; the other rows are the planned duplicates and those after the last output |
| FilePlan.PlanIsUpperBound | prestige/src/file_compactor.rs:1261-1398 | with one batch per file and no deduplication the run writes no more files than planned and exactly the planned records |
| FilePlan.PlannedAgainstWritten | prestige/src/file_compactor.rs:1339-1371 | without deduplication the plan announces the records written plus those left unread |
| FilePlan.PlanOvercounts | prestige/src/file_compactor.rs:1339-1367 | two files on which the plan announces one output too many |
| FileCompactor.FinalizeAndUpload | prestige/src/file_compactor.rs:721-869 | marks and deletions happen only after an upload succeeded; a failed upload changes nothing |
| FileCompactor.Execute | prestige/src/file_compactor.rs:872-1202 | a run succeeds if and only if every file can be downloaded in its turn and no upload is refused three times in a row; it has then uploaded, marked and deleted for all groups of the fold over all files, and one that fails for an initial part of them and nothing else |
| FileCompactor.DownloadsExactly | prestige/src/file_compactor.rs:995-1030 | all files can be downloaded in their turn if and only if no download of one of them fails and each is still there after the deletions of the groups uploaded before it is read |
| FileCompactor.ReportedRows | prestige/src/file_compactor.rs:1127-1182 | the reported records are the rows kept of those read, the duplicates the others up to those after the last output; rows read and rows left behind are the rows of the accepted files |
| FileCompactor.FailuresAreLeft | prestige/src/file_compactor.rs:1127-1182 | the reported deletion failures are exactly the grouped originals still in the bucket, when originals are deleted |
| FileCompactor.DeletedRowsAreKept | prestige/src/file_compactor.rs:855-861 | with one batch per file, distinct timestamps and no deduplication: whenever a source was deleted, an output in the bucket holds exactly the rows of its group |
| FileCompactor.DeletedRowsAreOut | prestige/src/file_compactor.rs:855-861 | with one batch per file and distinct timestamps, duplicates removed or not: each row of a deleted source is in an output of the run that is in the bucket |
| FileCompactor.SecondRunWritesNothing | prestige/src/file_compactor.rs:923-968 | a second run over the same window writes nothing although marker objects are listed as files |
| FileCompactor.EveryFileIsProcessed | prestige/src/file_compactor.rs:955-968 | a finished run counts every uncompacted file of its listing as processed, skipped ones included |
| FileCompactor.SortIsStable | prestige/src/file_compactor.rs:923-924 | files of one timestamp are processed in the order of the listing |
| FileCompactor.LastProcessedExactly | prestige/src/file_compactor.rs:955-968 | the last timestamp reported is the latest of the files processed, or of those skipped if none was processed |
| FileCompactor.TakenAgainExactly | prestige/src/file_compactor.rs:637-665 | after a finished run the next one takes a source again if and only if it was in no group, or it was not removed and its marker was not written, was removed or is not found |
| FileCompactor.BatchesBehindTheLimitAreLost | prestige/src/file_compactor.rs:1093-1105 | when a file's second batch trips the limit, its later batches are in no output although the file is marked as consolidated |
| FileCompactor.OutputSurvivesExactly | prestige/src/file_compactor.rs:721-778 | for every bucket, listing and finished or stopped run, an earlier output keeps its body if and only if the last group of its time, if any, has the same |
| FileCompactor.NamedAfterLast | prestige/src/file_compactor.rs:729-737 | an output carries the time of the listed file that closes its group, markers included |
| FileCompactor.SurvivesUnlessLast | prestige/src/file_compactor.rs:995-1182 | with only empty files at its time, an earlier output survives a finished run if and only if no rows are held at the end, the last accepted file has another time, or the held rows are the same |
| FileCompactor.LateFileReplacesOutput | prestige/src/file_compactor.rs:729-737 | a bucket in which a late file replaces the output of an earlier run |
| FileKeys.FindIsLeftmost | prestige/src/file_meta.rs:32-43 | the search finds the leftmost match with both groups as long as possible, and nothing exactly when nothing matches |
| FileKeys.PlainRoundTrip | prestige/src/file_meta.rs:35-93 | parsing a printed key gives back prefix, timestamp and flag if and only if the prefix is over the pattern's characters |
| FileKeys.CompactedRoundTrip | prestige/src/file_meta.rs:133-144 | the same for compacted keys, in both directions |
| FileKeys.MarkersParseAsFiles | prestige/src/file_compactor.rs:601-614 | a marker's key parses as an uncompacted file of its source's time |
| FileKeys.PushdownIsExact | prestige/src/lib.rs:243-262 | for every bucket whose keys parse, listing behind the printed key equals filtering the whole listing if and only if no listed file in the window has a key that sorts before it |
| FileKeys.UncutExactly | prestige/src/lib.rs:243-262 | a file in the window is listed behind the printed key if and only if the digits of its timestamp sort behind, for the type asked for, or a longer type does not go on with a comma |
| FileKeys.EqualWidthPushdown | prestige/src/lib.rs:243-262 | for timestamps of equal decimal width it always is |
| FileKeys.LongerTimestampIsCut | prestige/src/lib.rs:251 | 1000 is listed before 999 |
| FileKeys.ListedTypesExactly | prestige/src/lib.rs:250 | a file of another type passes the listing if and only if the type's name starts with the prefix |
| ParquetSink.ParquetSink.MaybeCloseActiveSink | prestige/src/file_sink.rs:696-726 | the active file, buffer included, appears under its own name and is staged |
| ParquetSink.ParquetSink.Write | prestige/src/file_sink.rs:544-570 | the row goes into the active file; its buffer is written exactly when full, and the file closed, and in auto-commit mode committed with everything staged, exactly when its rows, bytes or age reach their limits; no file exceeds one batch beyond the row limit |
| ParquetSink.ParquetSink.Commit | prestige/src/file_sink.rs:729-744 | everything staged and the active file are queued, or nothing changes when the buffer can not be written; a refused upload still leaves nothing staged |
| ParquetSink.CommitQueuesWhatWasWritten | prestige/src/file_sink.rs:729-744 | the queued files hold, in order, exactly the rows since the last commit or rollback, if all of them are in the target directory |
| ParquetSink.ParquetSink.Rollback | prestige/src/file_sink.rs:747-764 | the staged files and the active one are deleted, with them a committed file of the same name, and nothing is queued |
| ParquetSink.ParquetSink.Serve | prestige/src/file_sink.rs:471-512 | what every request of a client, the timer or the upload server does to the open file, the staged and the queued ones |
| ParquetSink.ParquetSink.RecoverFromCrash | prestige/src/file_sink.rs:374-468 | every completed file is queued again, committed or not; in auto-commit mode incomplete ones are queued too and replace what has their name |
| ParquetSink.ParquetSink.Run | prestige/src/file_sink.rs:471-512 | over every sequence of requests, with the upload server at work in between, each row received is committed, rolled back or written since; all of them are in their files if and only if no file that counts lost its last copy, and always if the clock shows every millisecond once |
| ParquetSink.EveryRowIsEntered | prestige/src/file_sink.rs:729-764 | the rows found and received are, as a multiset, those sent, discarded and written since |
| ParquetSink.RowsKeptExactly | prestige/src/file_sink.rs:718-722 | after every history of sink and server, rows are where they belong if and only if no committed file, and none since the last commit or rollback, lost its last copy to a file of its name |
| ParquetSink.OwnNamesLoseNothing | prestige/src/file_sink.rs:663-667 | no file loses its last copy unless some file was opened under the name of one in the target directory or the bucket |
| ParquetSink.ReopenedNameLosesRows | prestige/src/file_sink.rs:663-722 | from any state, a file opened under the name of one that only the target directory holds makes rows disappear when it is closed |
| ParquetSink.CopiedOverLosesRows | prestige/src/file_upload.rs:104-190 | from any state, copying a file over another one that counts makes rows disappear |
| ParquetSink.RollbackSparesMovedFile | prestige/src/file_sink.rs:747-764 | rolling back a file of the name of one that is only in the bucket loses nothing |
| ParquetSink.RolledBackRowsAreUploaded | prestige/src/file_sink.rs:747-764 | rows of a file fetched under a name queued before are in the bucket although they are then rolled back |
| ParquetSink.TwoCommitsOneName | prestige/src/file_sink.rs:729-744 | two commits in one millisecond answer success, queue one name twice and leave only the second row |
| FilePoller.FilePollerServer.GetNextFile | prestige/src/file_poller.rs:291-319 | one turn of the loop, cancelled at any point, computes what the next rows state |
| FilePoller.EnqueueExactly | prestige/src/file_poller.rs:308-313 | for every listing, the files queued are, in order, exactly those looked at that neither cache nor table knows, and the last of them sets the latest timestamp |
| FilePoller.NextFileExactly | prestige/src/file_poller.rs:291-319 | a turn hands out a file if and only if the queue held one, or the listing was looked at to its end with an unknown file in it; it is the first of those queued, and an empty queue takes in exactly the unknown ones of the files looked at |
| FilePoller.QueuedIsHandedOut | prestige/src/file_poller.rs:291-319 | in every run, cancelled turns and cleanups included, after more than i further turns the file at place i of the queue has been handed out, in its place |
| FilePoller.IssuedTwiceExactly | prestige/src/file_poller.rs:268-319 | in every run, from any table, a file is handed out or queued twice if and only if some turn looks at a file handed out before whose cache entry is gone and which has no record |
| FilePoller.HandedOutOnce | prestige/src/file_poller.rs:321-424 | in every run in which the clock does not go back, files are recorded before their cache entry expires, and files turning up after a cleanup are at least the offset ahead of its bound, no file is handed out twice, nor one recorded before the start |
| FilePoller.HandedOutOnceInOrder | prestige/src/file_poller.rs:321-424 | the same from what goes in: no new file that is looked at is older than a file listed before some cleanup, and each is recorded before its cache entry expires |
| FilePoller.ExpiredIsHandedOutAgain | prestige/src/file_poller.rs:268-289 | for every table and any file in the window: a run that hands it out twice because its record comes too late |
| FilePoller.CleanedIsHandedOutAgain | prestige/src/file_poller.rs:321-362 | a run that hands a file out twice although all files are recorded in time and late by less than the offset |
| FilePoller.CleanRemovesExactly | prestige/src/file_poller.rs:558-606 | cleaning removes a record if and only if it is older than the bound and more than a hundred are younger |
| FilePoller.CleanKeeps | prestige/src/file_poller.rs:558-606 | cleaning removes only records older than the bound and keeps more than a hundred, or all |
| FilePoller.CleanIsSafeForItsBound | prestige/src/file_poller.rs:344-349 | no record that a listing from the same bound asks for is deleted |
| FilePoller.BoundFallsExactly | prestige/src/file_poller.rs:240-319 | for every listing, a turn moves the bound back if and only if it queues a file, the last one queued is older than the latest before, and that one set the bound |

## Left out

- Object store, HTTP, OAuth2, token refresh and multipart upload: a request succeeds or fails as one step.
- Arrow and Parquet encoding, compression and row groups: a batch is a sequence of rows with a size, a file a sequence of batches.
- Hashing: rows and keys are compared directly, so hash collisions are not part of the model.
- Delete files and snapshot expiry: nothing in the repository writes delete files, and scans assume that the snapshots of their window are retained.
- Snapshot timestamps, summaries and schema ids: `earliest_snapshot` and `snapshot_at_timestamp` are not part of this model.
- The catalog's own rules (a snapshot id is new, sequence numbers grow, a ref names an existing snapshot) follow the Apache Iceberg Table Spec, sections "Sequence Numbers" and "Commit Conflict Resolution and Retry"; the catalog's code is not in the repository.
- The splitting of one flushed buffer into several files by the Iceberg writer: a flush is one run of rows.
- The sink's audit-branch mode with several commits in flight on one branch, and publishing from the sink.
- The NDJSON text of local manifests and its literals: a manifest holds its files.
- Telemetry, builders, settings, the command line, macros and serde helpers: no protocol logic.
- Sort order and partition spec builders of the schema module: they only look names up.
- Top-level columns only: nested field ids and the schema builder's checks are an argument of the reconciliation.
- Key digits outside ASCII, which the pattern also accepts and number parsing then refuses.
- CompactionRuns.RowsAreConserved: speaks of compactions without deduplication on an unpartitioned table, because with partitions it is false.
- Branch.AuditIsolation: data file names are fresh, as the random part of each name makes them.
- IcebergPoller.AcknowledgedExactlyOnce: the history of main is linear and made of row-preserving appends and rewrites, as `PolledRuns.StepTracks` shows of appenders and compactors; publishing a branch in between is not part of it.
- CatalogServer.GenerateUniqueSnapshotId: searches upwards where the source draws random ids until one is free.
- CompactionData.SortSorts: an insertion sort by an abstract rank stands for the library's sort; the statements hold of any sorted permutation.
- IcebergSink.IcebergSink.Commit: says nothing of what became of the commits it waited for; that is `CommitRecovery.ReturnedIsDurableExactly`.
- WapTransaction.WrittenAtMostOnce: one process at a time per wap id, though its requests may outlive it; other clients keep off its branch.
- CommitRecovery.NothingRecordedIsLost: one sink per manifest directory. The code takes every manifest whose name starts with the sink's label and a dash, so a sink also recovers those of another one whose label goes on like that.
- IcebergSink.IcebergSink.WriteItems: asks for a batch size of at least one, because with zero the loop never ends.
- ParquetSink.ParquetSink.Write: failures of the local file system are not part of this model, and the length bound holds until a batch fails to serialize and for limits of at least one.
- The upload server: its retries and its failures; copying a file and removing it are two steps at any time. The bucket is empty at the start.
- ParquetSink.ParquetSink.RecoverFromCrash: incomplete files are known by name only, because they have no footer and their rows can not be read.
- FileCompactor.SecondRunWritesNothing: without deduplication and with one schema, because a file skipped for its schema is taken when it comes first.
- FileCompactor.Execute: does not report the bytes saved.
- FilePlan.PlanOvercounts: when plan and run write equally many files is not characterised beyond the bound.
- FilePoller.HandedOutOnce: the consumer's download errors count as handed out, as in the code, which skips such a file until its cache entry expires.
