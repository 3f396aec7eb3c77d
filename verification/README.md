# Verified model of the lakehouse compaction engine

A Dafny model of a compaction engine for a Delta Lake table: a daemon scans the
table's objects, selects partitions with many small files, takes an advisory
lock per partition, rewrites the partition and releases the lock; a streaming
job appends to the same table; a benchmark script labels runs as taken before
or after compaction. The model follows the Python source function by function
and proves what the project claims for it.

Check everything with `dafny verify dfyconfig.toml`.

## Files

| file | content |
|---|---|
| `Prelude.dfy`, `Configuration.dfy` | strings, time, settings, exceptions |
| `PartitionKeys.dfy` | partition ids, object keys, lock keys, the scanner's regular expression |
| `FileScanner.dfy` | the paginated scan |
| `PartitionSelection.dfy` | age guard, thresholds, selection |
| `TargetSizing.dfy` | the ceiling taken through a double-precision quotient |
| `SmallFiles.dfy` | partitions of small files are planned to fewer files |
| `Rewrite.dfy` | distributing and sorting the rows of a slice |
| `DeltaCompactor.dfy` | the versioned table and the rewrite of one partition, with every failure |
| `LockManager.dfy` | the lock store and the lock manager (module `Locks`) |
| `Interleaving.dfy` | any number of workers, one store call per step; exclusion |
| `RowConservation.dfy` | which rows the table holds after any interleaving |
| `RunMetrics.dfy`, `CompactionCycle.dfy`, `CompactionDaemon.dfy` | counters, the turns of a cycle, the whole cycle |
| `CycleLaws.dfy`, `DryRun.dfy` | the laws of the counters; the dry run |
| `AgeGuard.dfy` | many cycles under the age guard |
| `DataQuality.dfy`, `Streaming.dfy` | the two validators; ingestion with crashes and replay |
| `Benchmark.dfy` | labelling and comparing benchmark runs |

## Assumptions

- Delta's commit rule (`docs/ARCHITECTURE.md:350`): a commit replaces the slice
  of one partition in one step, and the last commit wins.
- `OptimizeAssumption`: OPTIMIZE regroups the rows of its slice and changes
  nothing else.
- How the engine spreads rows over the output files is arbitrary (`Placement`).
- Workers share one clock that never runs backwards, and an owner id is used by
  one worker only (`OwnerIsUnique`).
- In a cycle, other workers and the streaming job act between two turns: each
  turn finds whatever locks and table they have left. While a turn lasts they
  leave its locks and the table alone; what they can do then, store call by store
  call, is the subject of `Interleaving.dfy` and `RowConservation.dfy`.
- What the outside world does beyond that (object listings, clock readings,
  failing calls, Spark's outcomes) is a parameter; the results hold for all of
  its values.
- Objects in the store are never deleted by this program.

## Where the code and what is said about it differ

- Two compactors can both be granted a partition (`Interleaving.TwoGrants`),
  although `docs/ARCHITECTURE.md:353-357` has the second one skip it: the write
  in `acquire` is not conditional on what was read. Neither is the delete of a
  stale lock, which can hit another worker's fresh one (`RacedDelete`).
  `ExclusionExactly` says exactly which runs exclude, and `KeptExactly` in which
  the stored locks tell who holds what; runs whose lock writes and deletes find
  the lock as it was last read are among them (`LeaseExcludes`).
- "No data corruption" with two compactors (`docs/ARCHITECTURE.md:359`) holds
  with or without exclusion, as long as no append falls between a committing
  worker's read and its commit (`CompactionConservesRows`). `ConservesExactly`
  says exactly in which runs no row is ever missing. A commit whose worker found
  all rows there loses exactly the ones appended since (`CommitLosesItsWindow`),
  and such a run is always possible (`AppendInWindowIsLost`). The age guard makes
  it unlikely only.
- A store error inside `acquire` ends the whole run; `docs/ARCHITECTURE.md:378`
  also allows the partition to be skipped. A table check that fails other than
  by finding no table leaves without a summary, unlike
  `docs/ARCHITECTURE.md:377` (`OneSummary`).
- `ceil(total_bytes / target)` (`docs/ARCHITECTURE.md:331`) is the true ceiling
  below 2^53 bytes. One byte above, it can be one short (`EstimateFallsShort`);
  `EstimateExactIff` gives the condition for all sizes.
- One planned file for k small input files holds of every partition exactly for
  thresholds of at most 2^53 + 2 bytes (`SmallFilesBoundExactly`); that there are
  fewer files holds for all (`EligibleSmallPartitionShrinks`).
- The scanner's expression is searched for, not anchored, and its dot matches no
  newline: a file of the partition's directory with a newline in its name is not
  counted (`ParseExactly`), and one further down whose path spells a key again is
  counted where that key says (`NewlineNameParsesElsewhere`).
- The streaming job (`spark_streaming_job.py`) and the Python validator
  (`data_quality.py`) do not always agree: on `{}`, on fields of white space
  only, and on the amount NaN (`ValidatorsAgreeExactly`).

## Model

| member | source | states |
|---|---|---|
| RowConservation.RowsAreExact | src/compactor/delta_compactor.py:94-113 | After every interleaving of workers, appends and crashes, whatever the locks did, a partition holds its initial rows and the survivors, which are read off the events alone: a commit takes the partition back to what its worker last read |
| RowConservation.CompactionConservesRows | docs/ARCHITECTURE.md:347-359 | If no append to the partition falls between a committing worker's read and its commit, the partition holds its initial rows plus all appended ones, each as often as it was written |
| RowConservation.ConservesExactly | docs/ARCHITECTURE.md:347-359 | In every interleaving, whatever the locks did: the partition holds its initial rows and all appended ones throughout, if and only if every commit finds that no rows were appended since its worker's last read |
| RowConservation.CommitLosesItsWindow | docs/ARCHITECTURE.md:350 | After any run in which no row was missing when the committing worker read (as after quiet windows), the commit loses exactly the rows appended since that read, so none is missing if and only if there were none |
| RowConservation.AppendInWindowIsLost | src/compactor/delta_compactor.py:105-113 | From every initial state, whoever may take the lock has an undisturbed run in which its rewrite, however it spreads the rows, loses appended ones |
| Interleaving.KeptExactly | src/compactor/lock_manager.py:159-250 | Over every run, with any number of workers, timeouts, races and crashes: every young unreleased grant is the stored lock throughout, if and only if no write or delete that is carried out finds another worker's young unreleased lock in the store |
| Interleaving.ExclusionExactly | src/compactor/lock_manager.py:188-250 | Over every run: no two workers ever have young unreleased grants on a partition, if and only if no write makes a young grant where another worker has one |
| Interleaving.LeaseExcludes | src/compactor/lock_manager.py:188-250 | Every run whose lock writes and deletes are undisturbed, with no timeout below m, is among them: at most one worker has an unreleased grant on a partition younger than m, and that grant is the stored lock |
| Interleaving.AtomicUpdatesExclude | src/compactor/lock_manager.py:188-250 | The same for every run in which nothing comes between the read of a lock and the write or delete it decides, and so for every run with atomic acquire and release |
| Interleaving.RunKeepsLease | src/compactor/lock_manager.py:159-250 | The invariant behind it: what each worker knows at each step of acquire and release is kept by every step of every worker |
| Interleaving.TwoGrants | src/compactor/lock_manager.py:201-226 | Without a conditional write two workers are granted the same partition at the same instant |
| Interleaving.RacedDelete | src/compactor/lock_manager.py:166-186 | A stale-lock cleanup deletes another worker's fresh lock; the deleting worker's next write finds the store empty, just as it read it, and still breaks exclusion |
| Interleaving.WriteBreaksExclusionIff | src/compactor/lock_manager.py:201-226 | From every state that excludes, a step of any kind breaks exclusion exactly when it is a write that makes a young grant where another worker has one |
| Interleaving.StoreTellsDoubleGrants | src/compactor/lock_manager.py:201-226 | While every young grant is the stored lock, one look at the store before the write tells such a write: another worker's young unreleased lock is there |
| Interleaving.AcquireInOneGo | src/compactor/lock_manager.py:188-237 | Uninterrupted, the single store calls of acquire are undisturbed, grant unless another worker's lock is neither expired nor older than the timeout, and leave a lock taken now in the store |
| Interleaving.ReleaseInOneGo | src/compactor/lock_manager.py:239-250 | Uninterrupted, release ends the grant and removes the worker's own lock only |
| Interleaving.ExpiredLockIsTaken | src/compactor/lock_manager.py:159-164 | A lock past its expiry, or older than the reader's own timeout though not expired, or the worker's own, never keeps an idle worker from the partition, and is replaced by a fresh one |
| Interleaving.GrantExpires | src/compactor/lock_manager.py:159-226 | Over every run: a grant that is never released, whether its holder crashed or hangs, keeps no idle worker from the partition once the holder's timeout has passed since it was taken |
| Locks.LockManager.Acquire | src/compactor/lock_manager.py:188-237 | Denied exactly when the reads succeed and the stored lock is another owner's, before its expiry and not older than the timeout; granted exactly when it is not and no call fails; then the store holds a lock with the partition, the owner, acquired now, expiring a timeout later, and the run; the resulting store in every other case; other keys untouched; no other lock owned at any moment |
| Locks.LockManager.Release | src/compactor/lock_manager.py:239-250 | Removes the lock if and only if the store holds the caller's own, and the store does not refuse the delete |
| Locks.LockManager.CleanupStaleLock | src/compactor/lock_manager.py:166-186 | Reports true exactly on a stale lock and removes only that one |
| DeltaCompactor.OutcomeIs | src/compactor/delta_compactor.py:138-193 | Which outcome: with the setting off the rewrite's; with it on OPTIMIZE's if that commits and lists, the rewrite's if it raised an ordinary exception before or after its commit; the reported numbers before from the partition as scanned and after from the first partition with its id in the listing; which exception is raised and how it is wrapped |
| DeltaCompactor.VersionsTell | src/compactor/delta_compactor.py:138-193 | What it adds to the log: OPTIMIZE's files exactly if asked for and committed, then the clustered rewrite exactly if reached, with rows and committed; every version permutes the partition's rows and touches no other partition |
| DeltaCompactor.CompactPartition | src/compactor/delta_compactor.py:138-193 | On every path (OPTIMIZE, fallback before or after its commit, plain rewrite, any exception, interrupt) that outcome and those versions; a rewrite that commits, even if something is raised afterwards, leaves at most the planned number of files, each sorted and not empty |
| DeltaCompactor.CompactWithZorderInspiredClustering | src/compactor/delta_compactor.py:90-124 | The same for the rewrite alone: one commit at most, exactly when there are rows and the save goes through, and well clustered whenever there is one; no rows means EmptyPartitionError |
| DeltaCompactor.CompactWithDeltaOptimize | src/compactor/delta_compactor.py:69-87 | The same for OPTIMIZE alone, which may raise after its commit |
| DeltaCompactor.CountsInScan | src/compactor/delta_compactor.py:127-135 | The counts after a commit, taken from a scan, are the number and the bytes of all objects placed in the partition, live or obsolete; zero if there are none |
| DeltaCompactor.CompactionRaisesOnly | src/compactor/delta_compactor.py:138-193 | Which exceptions a compaction can end with, and that it is ValueError exactly for a non-empty partition with a non-positive target |
| Rewrite.RedistributePermutes | src/compactor/delta_compactor.py:110-113 | However rows are placed, repartition(n) and sorting within partitions permute them into at most n files, none empty, each sorted by user, account and event time |
| Rewrite.BucketIsAFile | src/compactor/delta_compactor.py:110-113 | Every bucket that gets any row becomes one file, with all of its rows and no others |
| Rewrite.SortedByColumns | src/compactor/delta_compactor.py:110 | Sorted means: by user, within a user by account, within an account by event time |
| CompactionDaemon.RunCompactionCycle | src/compactor/compaction_daemon.py:192-350 | Whatever raises and wherever, and whatever other workers do between the turns: at most one lock owned at any moment, none at the end except one left by a failing write, the Spark session stopped exactly when started, the summaries written and the way of leaving given by CycleEnding, and the table's log grown by the versions of each turn taken, in order |
| CompactionCycle.TurnIs | src/compactor/compaction_daemon.py:277-328 | Which turn it is, from the lock found, the clock and the failing calls: a conflict exactly when the reads succeed and another worker's lock is neither expired nor older than the timeout; taken up exactly when no such lock is there and no call of acquire fails; then as the compaction ends, stopping the cycle only for an interrupt |
| CompactionCycle.CountersAre | src/compactor/compaction_daemon.py:277-325 | What each kind of turn does to the counters and to nothing else |
| CompactionCycle.PublishedTells | src/compactor/compaction_daemon.py:277-328 | A turn without the lock publishes no version; with it the log grows by OPTIMIZE's files and the clustered rewrite, as far as each commits, and every version permutes the rows of the turn's partition in the version right before it and touches no other partition |
| CompactionCycle.AttemptPartition | src/compactor/compaction_daemon.py:277-328 | One turn is that turn, moves the counters so, publishes those versions and gives the lock back on every path; a denied lock leaves the lock store as it was |
| CompactionCycle.LedgerTells | src/compactor/compaction_daemon.py:277-328 | Every turn of a cycle is what the lock and the table that it finds, the clock and the failing calls make it (as in TurnIs) |
| CompactionCycle.AttemptPartitions | src/compactor/compaction_daemon.py:277-328 | All turns, each from the locks and the table that others have left by then, up to the first that raises out of the loop; counters, locks and the versions of the table, turn by turn |
| CompactionCycle.TurnLogTells | src/compactor/compaction_daemon.py:277-328 | The versions of a turn: the one it finds, then its own, as in PublishedTells |
| CompactionCycle.QuietTableKept | src/compactor/compaction_daemon.py:277-328 | When the version that each turn finds holds the rows of the version right before it, every new version holds the rows there were at the start |
| CycleLaws.CycleAccounting | src/compactor/compaction_daemon.py:244-330 | A cycle that ends without error: scanned = eligible + skipped, eligible = compacted + failed, one detail per compacted partition, conflicts among the failures, files and bytes before summed over the locked and after over the compacted partitions |
| CycleLaws.CycleExitCode | src/compactor/metrics.py:53-85 | Of every cycle that returns: 1 exactly on an error or when eligible work led to no compaction, 2 exactly when nothing was eligible, 0 exactly when something was compacted |
| CycleLaws.OneSummary | src/compactor/compaction_daemon.py:213-350 | One summary is written unless the table check raised or an interrupt came during the scan, the start of the session or a turn, and always by a cycle that returns |
| CycleLaws.HowItEnds | src/compactor/compaction_daemon.py:213-350 | The cycle is left with an exception exactly if the table check raised it, or the scan, the start of the session or a turn did and it is no compaction error; the summary carries the message of what was thrown |
| CycleLaws.ErrorTells | src/compactor/compaction_daemon.py:213-350 | The error in every summary: the table, the target, the session, what the scan raised, or a turn that stopped the cycle, and none exactly otherwise |
| CycleLaws.FailuresShow | src/compactor/compaction_daemon.py:213-342 | Without table, target or session, or after a compaction error in the cycle itself, the cycle returns with an error and exit code 1 |
| CycleLaws.OrphanExactly | src/compactor/compaction_daemon.py:290-328 | A lock is left behind exactly when an acquire that was attempted raised on a write the store had carried out |
| CycleLaws.WrittenStatus | src/compactor/metrics.py:53-64 | Of every cycle that writes a summary: status error exactly on an error, partial_success exactly on failures without an error, success exactly on neither |
| CompactionDaemon.PlanIsSound | src/compactor/compaction_daemon.py:228-289 | Planned partitions are distinct and never empty, so the branch for empty partitions is not reached |
| CompactionDaemon.PlanTells | src/compactor/compaction_daemon.py:228-246 | Without a target: planned are exactly the scanned partitions of which no file is younger than the guard at their clock reading and which have more small files, or more files, than the limits, in order of date and hour, and the others are counted as skipped; with one: the scanned partition with that id, or not found |
| CompactionDaemon.PlanPartitions | src/compactor/compaction_daemon.py:228-246 | Scan, targeting and selection give that plan, whatever the page boundaries and whatever the clock says when each partition is judged |
| DryRun.RunDryRun | src/compactor/compaction_daemon.py:113-189 | Changes nothing that is shared; its rows, details, totals and ways to fail, from the plan |
| DryRun.DryRunFollowsTurns | src/compactor/compaction_daemon.py:138-177 | For the same listing, clock and target the turns the cycle takes are the first rows of the dry run, in order, each with the file count the rewrite is given, and all of them unless a turn stops the cycle |
| DryRun.DryRunForetells | src/compactor/compaction_daemon.py:138-177 | When the cycle is granted every lock and ends without error, the two report the same partitions scanned, eligible and skipped and the same files and bytes before |
| DryRun.DryTotals | src/compactor/compaction_daemon.py:138-189 | The totals are those of the rows, bytes after equal bytes before, nothing is compacted or failed, and the exit code is 2 exactly when there is nothing to do and 0 otherwise |
| AgeGuard.CompactionsAreSpaced | src/compactor/file_scanner.py:62-72 | In every history of untargeted cycles of the daemon, each judging every partition at its own clock reading, and of arriving files: two compactions of a partition write at least the guard's length apart |
| AgeGuard.YoungFileGuards | src/compactor/partition_selection.py:50-88 | A partition with a file younger than the guard is scanned, found too recent and not taken up by an untargeted cycle |
| FileScanner.ScanPartitions | src/compactor/file_scanner.py:113-138 | Grouping page by page in a dictionary and sorting gives the one scan of the listing, independent of page boundaries |
| FileScanner.ScanUnique | src/compactor/file_scanner.py:113-138 | Strictly sorted, no partition empty, each holding exactly the objects placed in it in listing order: this determines the scan |
| FileScanner.ScanConserves | src/compactor/file_scanner.py:113-138 | File counts and bytes add up to the accepted objects |
| FileScanner.ScanMembership | src/compactor/file_scanner.py:119-137 | A file is in a partition exactly when it is listed, "_delta_log" is nowhere in its key, the key ends in ".parquet" and parses to that partition |
| FileScanner.DataFileIsScanned | src/compactor/file_scanner.py:113-138 | Every listed data file, under the key Delta gives it, is scanned into its partition and no other, whatever else is listed |
| FileScanner.ScanOrder | src/compactor/file_scanner.py:138 | Dates ascend, and hours within a date |
| FileScanner.ScanIdsDistinct | src/compactor/file_scanner.py:27-29 | Scanned partitions are not empty and have pairwise distinct ids |
| FileScanner.FindPartition | src/compactor/compaction_daemon.py:47-51 | The first partition with the id, if any |
| PartitionKeys.ParseExactly | src/compactor/file_scanner.py:75-84 | For every table prefix, slash-free date, hour and file name in the partition's directory: the key parses to its partition if and only if the name holds no newline, and to nothing otherwise |
| PartitionKeys.ParseUndoesPrint | src/compactor/file_scanner.py:75-84 | For every file name at all: without a newline it parses back; with one the search goes on inside the key and finds nothing unless the name says "/event_date=" again |
| PartitionKeys.MatchUndoesPrint | src/compactor/file_scanner.py:75-84 | Tried at the front of such a key, the expression fails exactly when the file name holds a newline |
| PartitionKeys.NewlineNameParsesElsewhere | src/compactor/file_scanner.py:75-84 | A name that spells a key of partition q after a newline puts the file in q, for every table prefix that does not itself say "/event_date=" |
| PartitionKeys.PartitionIdInjective | src/compactor/file_scanner.py:27-29 | Distinct partitions have distinct ids, for every date |
| PartitionKeys.LockPathInjective | src/compactor/lock_manager.py:70-71 | Distinct partitions have distinct lock keys under one base path |
| PartitionKeys.LockPathIs | src/compactor/lock_manager.py:70-71 | The key of a partition's lock, whether or not the base path ends in a slash |
| PartitionSelection.SelectPartitions | src/compactor/partition_selection.py:77-88 | The loop returns the eligible and the skipped, which add up to the input |
| PartitionSelection.SelectionSplits | src/compactor/partition_selection.py:77-88 | The two lists merge back to the input, each in input order |
| PartitionSelection.SkippedIn | src/compactor/partition_selection.py:50-88 | Skipped are exactly the partitions with a skip reason, with their evaluation |
| PartitionSelection.EligibleIn | src/compactor/partition_selection.py:77-88 | Eligible are exactly the partitions evaluated so |
| PartitionSelection.SkipReasonMeaning | src/compactor/partition_selection.py:50-74 | What each skip reason means; too recent exactly when some file is younger than the guard |
| PartitionSelection.EligibleMeaning | src/compactor/file_scanner.py:47-72 | Eligible exactly when there are files, none younger than the guard, and more than the limit of files below the threshold, or more than the limit of files |
| PartitionSelection.VerdictSettlesOnce | src/compactor/file_scanner.py:62-72 | With the files fixed the verdict changes at most once, away from too recent |
| TargetSizing.EstimateIsExactCeiling | src/compactor/target_sizing.py:8-15 | Below 2^53 bytes the ceiling through the rounded quotient is the integer ceiling, for every positive target |
| TargetSizing.EstimateIsTight | src/compactor/target_sizing.py:8-15 | The planned files hold the bytes at the target size and one fewer would not |
| TargetSizing.EstimateExactIff | src/compactor/target_sizing.py:8-15 | For all byte counts and positive targets, exactly when the estimate is the ceiling: below 2^52 planned files, if nothing or more than half a unit in the last place is left over beyond whole targets; up to 2^53, if the rest is rounded up; beyond, if the ceiling is a multiple of the unit in the last place |
| TargetSizing.EstimateFallsShort | src/compactor/target_sizing.py:15 | At 2^53 + 1 bytes and target 4 it is not the ceiling |
| SmallFiles.SmallFilesPlanFewer | src/compactor/target_sizing.py:8-15 | Small files of any total size and a target of k thresholds: for k of two or more, strictly fewer planned files from two input files on; with a threshold of at most 2^53 + 2 bytes, at most one planned file for k input files |
| SmallFiles.SmallFilesBoundExactly | src/compactor/target_sizing.py:8-15 | For every k, one planned file for k input files holds of all partitions and targets if and only if the threshold is at most 2^53 + 2 bytes |
| SmallFiles.EligibleSmallPartitionShrinks | src/compactor/file_scanner.py:39-59 | With the default ratio every selected all-small partition, of any size and for any threshold, is planned to strictly fewer files |
| DataQuality.ValidatorsAgreeExactly | src/streaming/spark_streaming_job.py:70-104 | The Spark column under three-valued logic gives the Python validator's verdict and reason exactly on the messages that do not diverge |
| DataQuality.ValidatorsAgreeOnPlainRecords | src/streaming/data_quality.py:91-107 | In particular on records with fields, without texts of white space only and without the amount NaN |
| DataQuality.RejectionReasonChain | src/streaming/spark_streaming_job.py:70-104 | The chain of WHEN clauses rejects with the first failing rule |
| Streaming.DeliveredToOneTable | src/streaming/spark_streaming_job.py:138-161 | Over every run with crashes between the writes and replay: a message of a completed batch is in the table its content decides at least once and at most once per attempt, and never in the other |
| Streaming.CountsAreAttempts | src/streaming/spark_streaming_job.py:144-151 | Exactly how often: once for every attempt that passed that table's write |
| Streaming.FiltersSplitBatch | src/streaming/spark_streaming_job.py:107-135 | The null and non-null filters split every batch completely |
| Streaming.MetricsCountBatches | src/streaming/spark_streaming_job.py:142-158 | In every metrics line valid counts the messages of the batch without a reason and bad the others |
| Streaming.LinesAreAttempts | src/streaming/spark_streaming_job.py:138-161 | One metrics line for every attempt at a non-empty batch that wrote both tables, none for an empty batch |
| Streaming.ReasonsRecorded | src/streaming/spark_streaming_job.py:121-135 | Whatever is quarantined, over every run, carries the reason the column gives it |
| Streaming.Ingestion.ProcessBatch | src/streaming/spark_streaming_job.py:138-161 | What one attempt leaves in the two tables and the metrics, by how far it gets |
| Benchmark.AutoBeforeNeverDecreases | src/benchmark/benchmark_queries.py:228-237 | In an automatically labelled history the file counts of "before" runs never decrease |
| Benchmark.AutoAfterIsBelow | src/benchmark/benchmark_queries.py:228-237 | Every "after" run lies strictly below some earlier "before" run |
| Benchmark.AutoAfterHasBaseline | src/benchmark/benchmark_queries.py:240-252 | An automatic "after" run is compared with the largest "before" run, which had more files |
| Benchmark.ComparisonFailsExactly | src/benchmark/benchmark_queries.py:240-252 | Exactly when the comparison takes the maximum of an empty list |
| Benchmark.PhaseTells | src/benchmark/benchmark_queries.py:228-237 | An explicit label stands; an automatic one is "after" exactly when some "before" run of the history had more files |
| Benchmark.ComparisonTells | src/benchmark/benchmark_queries.py:240-252 | Which pair is compared in every history: the largest "before" run, with the current "after" run or with the latest one |
| Benchmark.BenchmarkLog.Record | src/benchmark/benchmark_queries.py:416-421 | Labels by the history so far, appends, then compares; the comparison never takes the maximum of an empty list |

## Left out

- Interleaving.LeaseExcludes: undisturbed runs only, because exclusion fails in others (TwoGrants, RacedDelete); KeptExactly and ExclusionExactly are exact for all runs.
- TargetSizing.EstimateExactIff: the exponent range of binary64 (OverflowError beyond about 10^308 files) is not modelled.
- DeltaCompactor.CompactPartition: files and bytes after come from a listing of the store, in which obsolete files are still present, so nothing is claimed about how they compare with the numbers before; the bound on files is about the live files.
- PartitionKeys.ParseUndoesPrint: hours are read from ASCII digits; other Unicode digits and Python's limit on very long numbers are not modelled.
- DataQuality.ValidatorsAgreeExactly: field values are texts or missing, as in the Spark schema; numbers and booleans in the Python record are not modelled, and neither is how from_json treats malformed text, which is taken to be null.
- CompactionDaemon.RunCompactionCycle: what others do to a turn's lock or the table while that turn lasts; failures of the metrics writer, of spark.stop(), of the reads and deletes in release other than a delete the store refuses, and of the delete in acquire; an interrupt between the calls modelled.
- Rewrite.RedistributePermutes: Spark's order of rows that are equal in the three sort columns; any sorted order serves.
- Spark, Delta, boto3 and DuckDB themselves, beyond the assumptions above; Delta's transaction log and its conflict detection.
- Convergence (that a compacted partition becomes healthy): the code does not ensure it.
- JSON and ISO time encodings, host names and random ids, including the default expiry of a lock record that lacks one.
- Quoting in the replaceWhere text: the slice is the partition.
- Configuration parsing, logging, byte formatting, printed tables and reports; durations in the summaries.
- The producer, the signal handling and the sleep between cycles, benchmark queries and their timings.
