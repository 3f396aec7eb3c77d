// Rewriting one partition of a versioned table.
//
// Delta's commit is taken as an assumption: replacing a slice publishes, in one
// step, a snapshot that differs from its predecessor in that slice only.

module DeltaCompactor {
  import opened Prelude
  import opened PartitionKeys
  import opened FileScanner
  import opened TargetSizing
  import opened Rewrite
  import opened Configuration

  // The live files of each partition.
  type Snapshot = map<PartitionKey, seq<DataFile>>

  function Slice(s: Snapshot, p: PartitionKey): seq<DataFile> {
    if p in s then s[p] else []
  }

  function LiveRows(s: Snapshot, p: PartitionKey): seq<Row> {
    RowsOf(Slice(s, p))
  }

  class DeltaTable {
    // Every published version; readers stay pinned to one of them.
    var log: seq<Snapshot>

    predicate Valid()
      reads this
    {
      log != []
    }

    function Current(): Snapshot
      requires Valid()
      reads this
    {
      log[|log| - 1]
    }

    constructor (initial: Snapshot)
      ensures Valid() && log == [initial]
    {
      log := [initial];
    }

    method ReplaceWhere(p: PartitionKey, files: seq<DataFile>)
      requires Valid()
      modifies this
      ensures Valid() && log == old(log) + [old(Current())[p := files]]
    {
      log := log + [Current()[p := files]];
    }
  }

  // ---------- What the engine may do ----------

  // After a commit the compactor lists the store again; that can fail too.
  datatype Aftermath = Listed(parts: seq<PartitionStats>) | Fails(e: Exn)

  datatype OptimizeRun =
    | OptimizeFails(e: Exn)                                      // before its commit
    | OptimizeCommits(files: seq<DataFile>, after: Aftermath)

  datatype RewriteRun =
    | ReadFails(e: Exn)
    | SaveFails(e: Exn)                                          // before its commit
    | SaveCommits(placement: Placement, after: Aftermath)

  datatype SparkRun = SparkRun(optimize: OptimizeRun, rewrite: RewriteRun)

  // OPTIMIZE is assumed to regroup the rows of the slice and nothing else.
  ghost predicate OptimizeKeepsRows(run: OptimizeRun, rows: seq<Row>) {
    run.OptimizeCommits? ==> multiset(RowsOf(run.files)) == multiset(rows)
  }

  datatype Method = DeltaOptimize | ZorderInspired

  datatype PartitionMetrics = PartitionMetrics(
    partitionId: string,
    filesBefore: nat, filesAfter: nat,
    bytesBefore: nat, bytesAfter: nat,
    how: Method)

  datatype Outcome = Compacted(metrics: PartitionMetrics) | Raised(e: Exn)

  const BAD_TARGET: Exn := OrdinaryError("target_file_size_bytes must be positive")

  // ---------- Which outcome a run has ----------

  function CountIn(parts: seq<PartitionStats>, id: string): (nat, nat) {
    match FirstWithId(parts, id)
    case None => (0, 0)
    case Some(p) => (p.FileCount(), p.TotalBytes())
  }

  function AfterCommit(stats: PartitionStats, after: Aftermath, how: Method): Outcome {
    match after
    case Fails(e) => Raised(e)
    case Listed(parts) =>
      var (files, bytes) := CountIn(parts, stats.Id());
      Compacted(PartitionMetrics(stats.Id(), stats.FileCount(), files, stats.TotalBytes(), bytes, how))
  }

  function OptimizeOutcome(stats: PartitionStats, run: OptimizeRun): Outcome {
    match run
    case OptimizeFails(e) => Raised(e)
    case OptimizeCommits(_, after) => AfterCommit(stats, after, DeltaOptimize)
  }

  function RewriteOutcome(stats: PartitionStats, run: RewriteRun, noRows: bool): Outcome {
    if run.ReadFails? then Raised(run.e)
    else if noRows then Raised(EmptyPartitionError)
    else if run.SaveFails? then Raised(run.e)
    else AfterCommit(stats, run.after, ZorderInspired)
  }

  // OPTIMIZE succeeded, so no rewrite follows; otherwise any exception but an
  // interrupt falls back to the rewrite.
  predicate FallsBack(config: Config, stats: PartitionStats, run: SparkRun) {
    config.useDeltaOptimize ==>
      var o := OptimizeOutcome(stats, run.optimize); o.Raised? && o.e.IsException()
  }

  // The versions that a run publishes on top of the present one.
  function OptimizeVersions(stats: PartitionStats, run: OptimizeRun, now: Snapshot): seq<Snapshot> {
    if run.OptimizeCommits? then [now[stats.key := run.files]] else []
  }

  function RewriteVersions(config: Config, stats: PartitionStats, run: RewriteRun, now: Snapshot): seq<Snapshot>
    requires config.targetFileSizeBytes > 0
  {
    var rows := LiveRows(now, stats.key);
    if run.SaveCommits? && rows != [] then
      var n := EstimateOutputFileCount(stats.TotalBytes(), config.targetFileSizeBytes).value;
      [now[stats.key := Redistribute(rows, n, run.placement)]]
    else []
  }

  function Versions(config: Config, stats: PartitionStats, run: SparkRun, now: Snapshot): seq<Snapshot> {
    if stats.FileCount() == 0 || stats.TotalBytes() == 0 || config.targetFileSizeBytes <= 0 then []
    else
      var first := if config.useDeltaOptimize then OptimizeVersions(stats, run.optimize, now) else [];
      if FallsBack(config, stats, run) then
        first + RewriteVersions(config, stats, run.rewrite, if first == [] then now else first[0])
      else first
  }

  // What leaves the outer try statement.
  function Wrapped(r: Outcome): Outcome {
    if r.Compacted? || r.e.Interrupt? || r.e.EmptyPartitionError? then r else Raised(SparkCompactionError)
  }

  function CompactionOutcome(config: Config, stats: PartitionStats, run: SparkRun, noRows: bool): Outcome {
    if stats.FileCount() == 0 || stats.TotalBytes() == 0 then Raised(EmptyPartitionError)
    else if config.targetFileSizeBytes <= 0 then Raised(BAD_TARGET)
    else
      var r := if FallsBack(config, stats, run) then RewriteOutcome(stats, run.rewrite, noRows)
               else OptimizeOutcome(stats, run.optimize);
      Wrapped(r)
  }

  // ---------- Meaning is preserved ----------

  // From old to new the rows of p are permuted and no other partition's files
  // are touched.
  ghost predicate SameMeaning(old_: Snapshot, new_: Snapshot, p: PartitionKey) {
    && multiset(LiveRows(old_, p)) == multiset(LiveRows(new_, p))
    && forall q :: q != p ==> Slice(old_, q) == Slice(new_, q)
  }

  // Every earlier version is kept as it was, at most `commits` versions are
  // added, and each of them means what the table meant before.
  ghost predicate KeepsMeaning(before: seq<Snapshot>, after: seq<Snapshot>, p: PartitionKey, commits: nat) {
    && before != []
    && before <= after
    && |after| <= |before| + commits
    && forall v :: |before| <= v < |after| ==> SameMeaning(before[|before| - 1], after[v], p)
  }

  lemma KeepsMeaningTwice(a: seq<Snapshot>, b: seq<Snapshot>, c: seq<Snapshot>, p: PartitionKey, m: nat, n: nat)
    requires KeepsMeaning(a, b, p, m) && KeepsMeaning(b, c, p, n)
    ensures KeepsMeaning(a, c, p, m + n)
  {
    forall v | |a| <= v < |c| ensures SameMeaning(a[|a| - 1], c[v], p) {
      if v < |b| {
        assert c[v] == b[v];
      } else {
        assert SameMeaning(b[|b| - 1], c[v], p);
        assert |b| > |a| ==> SameMeaning(a[|a| - 1], b[|b| - 1], p);
      }
    }
  }

  lemma CommitKeepsMeaning(log: seq<Snapshot>, p: PartitionKey, files: seq<DataFile>)
    requires log != [] && multiset(RowsOf(files)) == multiset(LiveRows(log[|log| - 1], p))
    ensures KeepsMeaning(log, log + [log[|log| - 1][p := files]], p, 1)
  {
  }

  lemma SameEmptiness(a: seq<Row>, b: seq<Row>)
    requires multiset(a) == multiset(b)
    ensures a == [] <==> b == []
  {
    assert |multiset(a)| == |a| && |multiset(b)| == |b|;
  }

  // ---------- The compactor ----------

  // Counted in a scan of the store, these are the objects placed in the
  // partition and their bytes, live or not; none if no object is placed there.
  lemma CountsInScan(prefix: string, objects: seq<FileInfo>, stats: PartitionStats)
    ensures var files := FilesOf(prefix, objects, stats.key);
      CountIn(Scan(prefix, objects), stats.Id()) == (|files|, SumSizes(files))
  {
    ScanIsScan(prefix, objects);
    FindInScan(Scan(prefix, objects), stats.key);
    assert Lookup(Scan(prefix, objects), stats.key) == FilesOf(prefix, objects, stats.key);
  }

  method CountPartitionFiles(parts: seq<PartitionStats>, stats: PartitionStats) returns (files: nat, bytes: nat)
    ensures (files, bytes) == CountIn(parts, stats.Id())
  {
    var found := FindPartition(parts, stats.Id());
    match found
    case None => files, bytes := 0, 0;
    case Some(p) => files, bytes := p.FileCount(), p.TotalBytes();
  }

  method CompactWithDeltaOptimize(table: DeltaTable, stats: PartitionStats, run: OptimizeRun)
    returns (r: Outcome)
    requires table.Valid()
    requires OptimizeKeepsRows(run, LiveRows(table.Current(), stats.key))
    modifies table
    ensures table.Valid() && table.log == old(table.log) + OptimizeVersions(stats, run, old(table.Current()))
    ensures KeepsMeaning(old(table.log), table.log, stats.key, 1)
    ensures r == OptimizeOutcome(stats, run)
    ensures r.Compacted? ==> |table.log| == |old(table.log)| + 1
  {
    OptimizeVersionsTell(table.log, stats, run);
    if run.OptimizeFails? {
      return Raised(run.e);
    }
    table.ReplaceWhere(stats.key, run.files);
    if run.after.Fails? {
      return Raised(run.after.e);
    }
    var filesAfter, bytesAfter := CountPartitionFiles(run.after.parts, stats);
    r := Compacted(PartitionMetrics(
      stats.Id(), stats.FileCount(), filesAfter, stats.TotalBytes(), bytesAfter, DeltaOptimize));
  }

  lemma OptimizeVersionsTell(log: seq<Snapshot>, stats: PartitionStats, run: OptimizeRun)
    requires log != [] && OptimizeKeepsRows(run, LiveRows(log[|log| - 1], stats.key))
    ensures KeepsMeaning(log, log + OptimizeVersions(stats, run, log[|log| - 1]), stats.key, 1)
  {
    if run.OptimizeCommits? {
      CommitKeepsMeaning(log, stats.key, run.files);
    } else {
      assert log + [] == log;
    }
  }

  method CompactWithZorderInspiredClustering(
    table: DeltaTable, config: Config, stats: PartitionStats, run: RewriteRun)
    returns (r: Outcome)
    requires table.Valid()
    requires config.targetFileSizeBytes > 0
    modifies table
    ensures table.Valid() && table.log == old(table.log) + RewriteVersions(config, stats, run, old(table.Current()))
    ensures KeepsMeaning(old(table.log), table.log, stats.key, 1)
    ensures r == RewriteOutcome(stats, run, old(LiveRows(table.Current(), stats.key)) == [])
    ensures r.Compacted? ==> |table.log| == |old(table.log)| + 1
    ensures |table.log| > |old(table.log)| <==> run.SaveCommits? && old(LiveRows(table.Current(), stats.key)) != []
    ensures |table.log| > |old(table.log)| ==> WellClustered(table.Current(), config, stats)
  {
    RewriteVersionsTell(table.log, config, stats, run);
    var thrown := RewriteSlice(table, config, stats, run);
    if thrown.Some? {
      return Raised(thrown.value);
    }
    if run.after.Fails? {
      return Raised(run.after.e);
    }
    var filesAfter, bytesAfter := CountPartitionFiles(run.after.parts, stats);
    r := Compacted(PartitionMetrics(
      stats.Id(), stats.FileCount(), filesAfter, stats.TotalBytes(), bytesAfter, ZorderInspired));
  }

  // Up to the commit: read, repartition(n), sortWithinPartitions, overwrite with
  // replaceWhere.
  method RewriteSlice(table: DeltaTable, config: Config, stats: PartitionStats, run: RewriteRun)
    returns (thrown: Option<Exn>)
    requires table.Valid() && config.targetFileSizeBytes > 0
    modifies table
    ensures table.Valid() && table.log == old(table.log) + RewriteVersions(config, stats, run, old(table.Current()))
    ensures thrown == if run.ReadFails? then Some(run.e)
                      else if old(LiveRows(table.Current(), stats.key)) == [] then Some(EmptyPartitionError)
                      else if run.SaveFails? then Some(run.e) else None
  {
    var n := EstimateOutputFileCount(stats.TotalBytes(), config.targetFileSizeBytes).value;
    if run.ReadFails? {
      return Some(run.e);
    }
    var rows := LiveRows(table.Current(), stats.key);
    if rows == [] {
      return Some(EmptyPartitionError);
    }
    if run.SaveFails? {
      return Some(run.e);
    }
    table.ReplaceWhere(stats.key, Redistribute(rows, n, run.placement));
    return None;
  }

  lemma RewriteVersionsTell(log: seq<Snapshot>, config: Config, stats: PartitionStats, run: RewriteRun)
    requires log != [] && config.targetFileSizeBytes > 0
    ensures var versions := RewriteVersions(config, stats, run, log[|log| - 1]);
      && KeepsMeaning(log, log + versions, stats.key, 1)
      && |versions| == (if run.SaveCommits? && LiveRows(log[|log| - 1], stats.key) != [] then 1 else 0)
      && (versions != [] ==> WellClustered(versions[0], config, stats))
  {
    var rows := LiveRows(log[|log| - 1], stats.key);
    if run.SaveCommits? && rows != [] {
      var n := EstimateOutputFileCount(stats.TotalBytes(), config.targetFileSizeBytes).value;
      RedistributePermutes(rows, n, run.placement);
      CommitKeepsMeaning(log, stats.key, Redistribute(rows, n, run.placement));
    } else {
      assert log + [] == log;
    }
  }

  // No more live files than planned, none empty, each sorted by user, account
  // and event time.
  ghost predicate WellClustered(s: Snapshot, config: Config, stats: PartitionStats) {
    var planned := EstimateOutputFileCount(stats.TotalBytes(), config.targetFileSizeBytes);
    && planned.Some? && |Slice(s, stats.key)| <= planned.value
    && forall f :: f in Slice(s, stats.key) ==> f.rows != [] && SortedRows(f.rows)
  }

  // ---------- What a compaction does, case by case ----------

  // There is something to compact and a size to aim for.
  predicate Compactable(config: Config, stats: PartitionStats) {
    stats.files != [] && SumSizes(stats.files) > 0 && config.targetFileSizeBytes > 0
  }

  // OPTIMIZE is not asked for, or raised an ordinary exception, before its commit
  // or after it.
  predicate RewriteIsReached(config: Config, run: SparkRun) {
    config.useDeltaOptimize ==>
      match run.optimize
      case OptimizeFails(e) => e != Interrupt
      case OptimizeCommits(_, Fails(e)) => e != Interrupt
      case OptimizeCommits(_, Listed(_)) => false
  }

  // What a compaction adds to the log: OPTIMIZE's files if it is asked for and
  // commits, and then the rewrite's if it is reached, finds rows and commits.
  ghost predicate LogTells(
    config: Config, stats: PartitionStats, run: SparkRun, before: seq<Snapshot>, after: seq<Snapshot>)
  {
    && before != [] && before <= after
    && var now := before[|before| - 1];
       var optimized := Compactable(config, stats) && config.useDeltaOptimize && run.optimize.OptimizeCommits?;
       var rewritten := && Compactable(config, stats) && RewriteIsReached(config, run)
                        && run.rewrite.SaveCommits? && LiveRows(now, stats.key) != [];
       && |after| == |before| + (if optimized then 1 else 0) + (if rewritten then 1 else 0)
       && (optimized ==> after[|before|] == now[stats.key := run.optimize.files])
       && (rewritten ==> WellClustered(after[|after| - 1], config, stats))
  }

  // What is reported: the partition as scanned before, and as the listing after
  // the commit shows it, zero if it is not there.
  ghost predicate Reports(m: PartitionMetrics, stats: PartitionStats, parts: seq<PartitionStats>, how: Method) {
    && m.partitionId == stats.Id() && m.how == how
    && m.filesBefore == |stats.files| && m.bytesBefore == SumSizes(stats.files)
    && ((forall q :: q in parts ==> q.Id() != stats.Id()) ==> m.filesAfter == 0 && m.bytesAfter == 0)
    && ((exists q :: q in parts && q.Id() == stats.Id()) ==>
          exists i :: 0 <= i < |parts| && parts[i].Id() == stats.Id()
                      && (forall j :: 0 <= j < i ==> parts[j].Id() != stats.Id())
                      && m.filesAfter == |parts[i].files| && m.bytesAfter == SumSizes(parts[i].files))
  }

  // Ordinary exceptions leave wrapped, except for the one that says there were no
  // rows.
  ghost predicate RaisesFor(r: Outcome, e: Exn) {
    r == Raised(if e == Interrupt || e == EmptyPartitionError then e else SparkCompactionError)
  }

  ghost predicate RewriteTells(r: Outcome, stats: PartitionStats, run: RewriteRun, noRows: bool) {
    match run
    case ReadFails(e) => RaisesFor(r, e)
    case SaveFails(e) => if noRows then r == Raised(EmptyPartitionError) else RaisesFor(r, e)
    case SaveCommits(_, after) =>
      if noRows then r == Raised(EmptyPartitionError)
      else
        match after
        case Fails(e) => RaisesFor(r, e)
        case Listed(parts) => r.Compacted? && Reports(r.metrics, stats, parts, ZorderInspired)
  }

  // Which outcome a compaction has.
  ghost predicate OutcomeTells(r: Outcome, config: Config, stats: PartitionStats, run: SparkRun, noRows: bool) {
    if stats.files == [] || SumSizes(stats.files) == 0 then r == Raised(EmptyPartitionError)
    else if config.targetFileSizeBytes <= 0 then r == Raised(BAD_TARGET)
    else if RewriteIsReached(config, run) then RewriteTells(r, stats, run.rewrite, noRows)
    else
      match run.optimize
      case OptimizeCommits(_, Listed(parts)) => r.Compacted? && Reports(r.metrics, stats, parts, DeltaOptimize)
      case _ => r == Raised(Interrupt)
  }

  lemma CommitReports(stats: PartitionStats, parts: seq<PartitionStats>, how: Method)
    ensures var r := AfterCommit(stats, Listed(parts), how); r.Compacted? && Reports(r.metrics, stats, parts, how)
  {
    FirstIsFirst(parts, stats.Id());
    if FirstWithId(parts, stats.Id()).None? {
      assert forall q :: q in parts ==> exists i :: 0 <= i < |parts| && parts[i] == q;
    }
  }

  lemma RewriteIs(stats: PartitionStats, run: RewriteRun, noRows: bool)
    ensures RewriteTells(Wrapped(RewriteOutcome(stats, run, noRows)), stats, run, noRows)
  {
    if run.SaveCommits? && run.after.Listed? {
      CommitReports(stats, run.after.parts, ZorderInspired);
    }
  }

  lemma OutcomeIs(config: Config, stats: PartitionStats, run: SparkRun, noRows: bool)
    ensures OutcomeTells(CompactionOutcome(config, stats, run, noRows), config, stats, run, noRows)
  {
    RewriteIs(stats, run.rewrite, noRows);
    if run.optimize.OptimizeCommits? && run.optimize.after.Listed? {
      CommitReports(stats, run.optimize.after.parts, DeltaOptimize);
    }
  }

  // The versions a compaction publishes, whatever the engine does (commit, fail
  // before or after committing, fall back, be interrupted).
  lemma VersionsTell(log: seq<Snapshot>, config: Config, stats: PartitionStats, run: SparkRun)
    requires log != [] && OptimizeKeepsRows(run.optimize, LiveRows(log[|log| - 1], stats.key))
    ensures var after := log + Versions(config, stats, run, log[|log| - 1]);
      KeepsMeaning(log, after, stats.key, 2) && LogTells(config, stats, run, log, after)
  {
    if !Compactable(config, stats) {
      assert log + [] == log;
    } else if !config.useDeltaOptimize {
      RewriteOnly(log, config, stats, run);
    } else {
      OptimizeVersionsTell(log, stats, run.optimize);
      if FallsBack(config, stats, run) {
        FallbackTells(log, config, stats, run);
      }
    }
  }

  lemma RewriteOnly(log: seq<Snapshot>, config: Config, stats: PartitionStats, run: SparkRun)
    requires log != [] && Compactable(config, stats) && !config.useDeltaOptimize
    ensures var after := log + Versions(config, stats, run, log[|log| - 1]);
      KeepsMeaning(log, after, stats.key, 2) && LogTells(config, stats, run, log, after)
  {
    RewriteVersionsTell(log, config, stats, run.rewrite);
    assert Versions(config, stats, run, log[|log| - 1]) == RewriteVersions(config, stats, run.rewrite, log[|log| - 1]);
  }

  lemma FallbackTells(log: seq<Snapshot>, config: Config, stats: PartitionStats, run: SparkRun)
    requires log != [] && OptimizeKeepsRows(run.optimize, LiveRows(log[|log| - 1], stats.key))
    requires Compactable(config, stats) && config.useDeltaOptimize && FallsBack(config, stats, run)
    ensures var after := log + Versions(config, stats, run, log[|log| - 1]);
      KeepsMeaning(log, after, stats.key, 2) && LogTells(config, stats, run, log, after)
  {
    var now := log[|log| - 1];
    var first := OptimizeVersions(stats, run.optimize, now);
    var middle := log + first;
    var next := if first == [] then now else first[0];
    assert middle[|middle| - 1] == next;
    var second := RewriteVersions(config, stats, run.rewrite, next);
    OptimizeVersionsTell(log, stats, run.optimize);
    SameEmptiness(LiveRows(now, stats.key), LiveRows(next, stats.key));
    RewriteVersionsTell(middle, config, stats, run.rewrite);
    TwoStages(log, first, second, stats.key);
    assert Versions(config, stats, run, now) == first + second;
    FallbackLog(log, config, stats, run, first, second);
  }

  lemma FallbackLog(
    log: seq<Snapshot>, config: Config, stats: PartitionStats, run: SparkRun,
    first: seq<Snapshot>, second: seq<Snapshot>)
    requires log != [] && Compactable(config, stats) && config.useDeltaOptimize && FallsBack(config, stats, run)
    requires first == OptimizeVersions(stats, run.optimize, log[|log| - 1])
    requires |second| == if run.rewrite.SaveCommits? && LiveRows(log[|log| - 1], stats.key) != [] then 1 else 0
    requires second != [] ==> WellClustered(second[0], config, stats)
    ensures LogTells(config, stats, run, log, log + (first + second))
  {
    var after := log + (first + second);
    assert second != [] ==> after[|after| - 1] == second[0];
  }

  lemma TwoStages(log: seq<Snapshot>, first: seq<Snapshot>, second: seq<Snapshot>, p: PartitionKey)
    requires KeepsMeaning(log, log + first, p, 1) && KeepsMeaning(log + first, (log + first) + second, p, 1)
    ensures (log + first) + second == log + (first + second)
    ensures KeepsMeaning(log, log + (first + second), p, 2)
  {
    assert (log + first) + second == log + (first + second);
    KeepsMeaningTwice(log, log + first, (log + first) + second, p, 1, 1);
  }

  lemma SuccessTells(
    r: Outcome, config: Config, stats: PartitionStats, run: SparkRun, log: seq<Snapshot>, after: seq<Snapshot>)
    requires log != [] && LogTells(config, stats, run, log, after)
    requires OutcomeTells(r, config, stats, run, LiveRows(log[|log| - 1], stats.key) == [])
    ensures r.Compacted? ==> |after| > |log|
    ensures r.Compacted? && r.metrics.how.ZorderInspired? ==> WellClustered(after[|after| - 1], config, stats)
  {
  }

  lemma CompactionTells(
    r: Outcome, config: Config, stats: PartitionStats, run: SparkRun, log: seq<Snapshot>, after: seq<Snapshot>)
    requires log != [] && OptimizeKeepsRows(run.optimize, LiveRows(log[|log| - 1], stats.key))
    requires after == log + Versions(config, stats, run, log[|log| - 1])
    requires r == CompactionOutcome(config, stats, run, LiveRows(log[|log| - 1], stats.key) == [])
    ensures KeepsMeaning(log, after, stats.key, 2) && LogTells(config, stats, run, log, after)
    ensures OutcomeTells(r, config, stats, run, LiveRows(log[|log| - 1], stats.key) == [])
    ensures r.Compacted? ==> |after| > |log|
    ensures r.Compacted? && r.metrics.how.ZorderInspired? ==> WellClustered(after[|after| - 1], config, stats)
  {
    VersionsTell(log, config, stats, run);
    OutcomeIs(config, stats, run, LiveRows(log[|log| - 1], stats.key) == []);
    SuccessTells(r, config, stats, run, log, after);
  }

  // Whatever happens, the table means what it meant.
  method CompactPartition(table: DeltaTable, config: Config, stats: PartitionStats, run: SparkRun)
    returns (r: Outcome)
    requires table.Valid()
    requires OptimizeKeepsRows(run.optimize, LiveRows(table.Current(), stats.key))
    modifies table
    ensures table.Valid() && table.log == old(table.log) + Versions(config, stats, run, old(table.Current()))
    ensures r == CompactionOutcome(config, stats, run, old(LiveRows(table.Current(), stats.key)) == [])
    ensures KeepsMeaning(old(table.log), table.log, stats.key, 2)
    ensures LogTells(config, stats, run, old(table.log), table.log)
    ensures r.Compacted? ==> |table.log| > |old(table.log)|
    ensures r.Compacted? && r.metrics.how.ZorderInspired? ==> WellClustered(table.Current(), config, stats)
    ensures OutcomeTells(r, config, stats, run, old(LiveRows(table.Current(), stats.key)) == [])
  {
    ghost var log := table.log;
    r := ValidateAndCompact(table, config, stats, run);
    CompactionTells(r, config, stats, run, log, table.log);
  }

  method ValidateAndCompact(table: DeltaTable, config: Config, stats: PartitionStats, run: SparkRun)
    returns (r: Outcome)
    requires table.Valid()
    requires OptimizeKeepsRows(run.optimize, LiveRows(table.Current(), stats.key))
    modifies table
    ensures table.Valid() && table.log == old(table.log) + Versions(config, stats, run, old(table.Current()))
    ensures r == CompactionOutcome(config, stats, run, old(LiveRows(table.Current(), stats.key)) == [])
  {
    if stats.FileCount() == 0 || stats.TotalBytes() == 0 {
      return Raised(EmptyPartitionError);
    }
    if EstimateOutputFileCount(stats.TotalBytes(), config.targetFileSizeBytes).None? {
      return Raised(BAD_TARGET);
    }
    r := OptimizeOrRewrite(table, config, stats, run);
    if r.Raised? && !r.e.Interrupt? && !r.e.EmptyPartitionError? {
      r := Raised(SparkCompactionError);
    }
  }

  // The body of the outer try statement.
  method OptimizeOrRewrite(table: DeltaTable, config: Config, stats: PartitionStats, run: SparkRun)
    returns (r: Outcome)
    requires table.Valid() && Compactable(config, stats)
    requires OptimizeKeepsRows(run.optimize, LiveRows(table.Current(), stats.key))
    modifies table
    ensures table.Valid() && table.log == old(table.log) + Versions(config, stats, run, old(table.Current()))
    ensures r == if FallsBack(config, stats, run)
                 then RewriteOutcome(stats, run.rewrite, old(LiveRows(table.Current(), stats.key)) == [])
                 else OptimizeOutcome(stats, run.optimize)
  {
    VersionsInStages(config, stats, run, table.Current());
    if config.useDeltaOptimize {
      r := OptimizeFirst(table, config, stats, run);
    } else {
      r := CompactWithZorderInspiredClustering(table, config, stats, run.rewrite);
    }
  }

  // The inner try statement.
  method OptimizeFirst(table: DeltaTable, config: Config, stats: PartitionStats, run: SparkRun)
    returns (r: Outcome)
    requires table.Valid() && Compactable(config, stats) && config.useDeltaOptimize
    requires OptimizeKeepsRows(run.optimize, LiveRows(table.Current(), stats.key))
    modifies table
    ensures table.Valid() && table.log == old(table.log) + Versions(config, stats, run, old(table.Current()))
    ensures r == if FallsBack(config, stats, run)
                 then RewriteOutcome(stats, run.rewrite, old(LiveRows(table.Current(), stats.key)) == [])
                 else OptimizeOutcome(stats, run.optimize)
  {
    VersionsInStages(config, stats, run, table.Current());
    ghost var log, now := table.log, table.Current();
    r := CompactWithDeltaOptimize(table, stats, run.optimize);
    if r.Raised? && r.e.IsException() {
      SameEmptiness(LiveRows(now, stats.key), LiveRows(table.Current(), stats.key));
      ghost var next := table.Current();
      r := CompactWithZorderInspiredClustering(table, config, stats, run.rewrite);
      Joined(log, OptimizeVersions(stats, run.optimize, now), RewriteVersions(config, stats, run.rewrite, next));
    }
  }

  lemma VersionsInStages(config: Config, stats: PartitionStats, run: SparkRun, now: Snapshot)
    requires Compactable(config, stats)
    ensures !config.useDeltaOptimize ==>
              Versions(config, stats, run, now) == RewriteVersions(config, stats, run.rewrite, now)
    ensures config.useDeltaOptimize && !FallsBack(config, stats, run) ==>
              Versions(config, stats, run, now) == OptimizeVersions(stats, run.optimize, now)
    ensures config.useDeltaOptimize && FallsBack(config, stats, run) ==>
              var first := OptimizeVersions(stats, run.optimize, now);
              Versions(config, stats, run, now)
              == first + RewriteVersions(config, stats, run.rewrite, if first == [] then now else first[0])
  {
  }

  lemma Joined(log: seq<Snapshot>, first: seq<Snapshot>, second: seq<Snapshot>)
    ensures (log + first) + second == log + (first + second)
  {
  }

  // A partition whose compaction fails fails with one of four exceptions, and
  // with ValueError exactly when there are bytes but no positive target.
  lemma CompactionRaisesOnly(config: Config, stats: PartitionStats, run: SparkRun, noRows: bool)
    requires CompactionOutcome(config, stats, run, noRows).Raised?
    ensures var e := CompactionOutcome(config, stats, run, noRows).e;
      && (e.EmptyPartitionError? || e.SparkCompactionError? || e.Interrupt? || e == BAD_TARGET)
      && (e == BAD_TARGET <==> stats.TotalBytes() > 0 && stats.FileCount() > 0 && config.targetFileSizeBytes <= 0)
  {
  }
}
