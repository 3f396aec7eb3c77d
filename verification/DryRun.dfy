// The dry run: the cycle's plan with estimates instead of rewrites. It has no
// modifies clause, so it leaves the lock store, the table and the metrics file
// as they are.

module DryRun {
  import opened Prelude
  import opened PartitionKeys
  import opened FileScanner
  import opened PartitionSelection
  import opened TargetSizing
  import opened Configuration
  import opened DeltaCompactor
  import opened RunMetrics
  import opened CompactionCycle
  import opened CompactionDaemon
  import opened CycleLaws

  function RowFor(s: PartitionStats, est: nat): Estimate {
    Estimate(s.Id(), s.FileCount(), est, s.TotalBytes())
  }

  // The table printed for a plan; None if some estimate raises ValueError.
  function RowsFor(config: Config, parts: seq<PartitionStats>): Option<seq<Estimate>> {
    if parts == [] then Some([])
    else
      var n := |parts| - 1;
      var rows, est := RowsFor(config, parts[..n]),
                       EstimateOutputFileCount(parts[n].TotalBytes(), config.targetFileSizeBytes);
      if rows.None? || est.None? then None else Some(rows.value + [RowFor(parts[n], est.value)])
  }

  function SumEstimates(rows: seq<Estimate>): nat {
    if rows == [] then 0 else SumEstimates(rows[..|rows| - 1]) + rows[|rows| - 1].filesAfterEst
  }

  // The counters after estimating some of the plan.
  function DryCounts(plan: Plan, parts: seq<PartitionStats>, rows: seq<Estimate>): Summary
    requires plan.Planned?
  {
    BeforeTurns(plan).(
      status := Status.DryRun,
      filesBefore := CountFiles(parts), bytesBefore := CountBytes(parts),
      filesAfter := SumEstimates(rows), bytesAfter := CountBytes(parts), estimates := rows)
  }

  function DrySummary(plan: Plan, rows: seq<Estimate>): Summary
    requires plan.Planned?
  {
    DryCounts(plan, plan.eligible, rows)
  }

  method RunDryRun(config: Config, target: Option<string>, check: TableCheck, listing: ListingRun, clock: Clock)
    returns (exit: Exit, m: Summary, rows: seq<Estimate>)
    ensures check.CheckRaises? ==> exit == RaisedOut(check.e)
    ensures check.TableMissing? ==> exit == Returned && m.HasError() && m.ExitCode() == 1
    ensures check.TableExists? && listing.ListingRaises? ==> exit == RaisedOut(listing.e)
    ensures check.TableExists? && listing.Pages? ==>
      var plan := MakePlan(config, Flatten(listing.pages), clock, target);
      if plan.NotFound? then exit == Returned && m.HasError() && m.ExitCode() == 1
      else
        var planned := RowsFor(config, plan.eligible);
        if planned.None? then exit == RaisedOut(BAD_TARGET)
        else exit == Returned && rows == planned.value && m == DrySummary(plan, rows)
  {
    var metrics := new CompactionRunMetrics();
    metrics.status := Status.DryRun;
    rows, m := [], metrics.View();
    if check.CheckRaises? {
      return RaisedOut(check.e), m, rows;
    }
    if check.TableMissing? {
      metrics.error := Some(TableNotFoundError.Message());
      metrics.status := Error;
      metrics.MarkComplete();
      return Returned, metrics.View(), rows;
    }
    if listing.ListingRaises? {
      return RaisedOut(listing.e), m, rows;
    }
    var plan := PlanPartitions(config, listing.pages, clock, target);
    metrics.scanned := plan.scanned;
    if plan.NotFound? {
      metrics.error := Some(NOT_FOUND);
      metrics.status := Error;
      metrics.MarkComplete();
      return Returned, metrics.View(), rows;
    }
    metrics.eligible := |plan.eligible|;
    metrics.skipped := plan.skipped;
    exit, rows := EstimatePlan(config, plan, metrics);
    metrics.MarkComplete();
    m := metrics.View();
  }

  method EstimatePlan(config: Config, plan: Plan, metrics: CompactionRunMetrics) returns (exit: Exit, rows: seq<Estimate>)
    requires plan.Planned? && metrics.View() == BeforeTurns(plan).(status := Status.DryRun)
    modifies metrics
    ensures match RowsFor(config, plan.eligible)
            case None => exit == RaisedOut(BAD_TARGET)
            case Some(planned) => exit == Returned && rows == planned && metrics.View() == DrySummary(plan, rows)
  {
    rows := [];
    var eligible := plan.eligible;
    for i := 0 to |eligible|
      invariant RowsFor(config, eligible[..i]) == Some(rows)
      invariant metrics.View() == DryCounts(plan, eligible[..i], rows)
    {
      var stats := eligible[i];
      var est := EstimateOutputFileCount(stats.TotalBytes(), config.targetFileSizeBytes);
      RowsForStep(config, eligible, i);
      if est.None? {
        RowsForFails(config, eligible, i + 1);
        return RaisedOut(BAD_TARGET), rows;
      }
      DryCountsStep(config, plan, eligible, i, rows, est.value);
      RecordEstimate(metrics, stats, est.value);
      rows := rows + [RowFor(stats, est.value)];
    }
    assert eligible[..|eligible|] == eligible;
    exit := Returned;
  }

  function AfterEstimate(m: Summary, s: PartitionStats, est: nat): Summary {
    m.(filesBefore := m.filesBefore + s.FileCount(), bytesBefore := m.bytesBefore + s.TotalBytes(),
       filesAfter := m.filesAfter + est, bytesAfter := m.bytesAfter + s.TotalBytes(),
       estimates := m.estimates + [RowFor(s, est)])
  }

  method RecordEstimate(metrics: CompactionRunMetrics, stats: PartitionStats, est: nat)
    modifies metrics
    ensures metrics.View() == AfterEstimate(old(metrics.View()), stats, est)
  {
    metrics.filesBefore := metrics.filesBefore + stats.FileCount();
    metrics.filesAfter := metrics.filesAfter + est;
    metrics.bytesBefore := metrics.bytesBefore + stats.TotalBytes();
    metrics.bytesAfter := metrics.bytesAfter + stats.TotalBytes();
    metrics.estimates := metrics.estimates + [RowFor(stats, est)];
  }

  lemma DryCountsStep(config: Config, plan: Plan, parts: seq<PartitionStats>, i: nat, rows: seq<Estimate>, est: nat)
    requires plan.Planned? && i < |parts|
    ensures DryCounts(plan, parts[..i + 1], rows + [RowFor(parts[i], est)])
         == AfterEstimate(DryCounts(plan, parts[..i], rows), parts[i], est)
  {
    assert parts[..i + 1] == parts[..i] + [parts[i]];
    CountsSnoc(parts[..i], parts[i]);
    SumEstimatesSnoc(rows, RowFor(parts[i], est));
    SameCounts(plan, parts[..i], parts[i], parts[..i + 1], rows, est);
  }

  lemma SameCounts(
    plan: Plan, front: seq<PartitionStats>, s: PartitionStats, parts: seq<PartitionStats>, rows: seq<Estimate>, est: nat)
    requires plan.Planned?
    requires CountFiles(parts) == CountFiles(front) + s.FileCount() && CountBytes(parts) == CountBytes(front) + s.TotalBytes()
    requires SumEstimates(rows + [RowFor(s, est)]) == SumEstimates(rows) + est
    ensures DryCounts(plan, parts, rows + [RowFor(s, est)]) == AfterEstimate(DryCounts(plan, front, rows), s, est)
  {
  }

  lemma SumEstimatesSnoc(rows: seq<Estimate>, r: Estimate)
    ensures SumEstimates(rows + [r]) == SumEstimates(rows) + r.filesAfterEst
  {
    assert (rows + [r])[..|rows|] == rows;
  }

  lemma RowsForStep(config: Config, parts: seq<PartitionStats>, i: nat)
    requires i < |parts| && RowsFor(config, parts[..i]).Some?
    ensures RowsFor(config, parts[..i + 1])
         == match EstimateOutputFileCount(parts[i].TotalBytes(), config.targetFileSizeBytes)
            case None => None
            case Some(est) => Some(RowsFor(config, parts[..i]).value + [RowFor(parts[i], est)])
  {
    assert parts[..i + 1][..i] == parts[..i];
  }

  lemma {:induction false} RowsForFails(config: Config, parts: seq<PartitionStats>, i: nat)
    requires i <= |parts| && RowsFor(config, parts[..i]).None?
    ensures RowsFor(config, parts).None?
  {
    if i == |parts| {
      assert parts[..i] == parts;
    } else {
      assert parts[..|parts| - 1][..i] == parts[..i];
      RowsForFails(config, parts[..|parts| - 1], i);
    }
  }

  // ---------- The dry run foretells the cycle ----------

  // If every lock is granted, the locked partitions are all of them.
  lemma {:induction false} AllLocked(ledger: seq<Entry>, parts: seq<PartitionStats>)
    requires |ledger| == |parts|
    requires forall k :: 0 <= k < |ledger| ==> ledger[k].stats == parts[k] && ledger[k].turn.Locked()
    ensures LockedOf(ledger) == parts
  {
    if ledger != [] {
      var n := |ledger| - 1;
      AllLocked(ledger[..n], parts[..n]);
      LastApart(parts);
    }
  }

  // For the same listing, clock and target, the rows of a dry run are the
  // cycle's turns in order, each with the file count the rewrite is given: the
  // turns it takes are the first ones, and all of them unless one stops it.
  lemma DryRunFollowsTurns(env: Env, run: CycleRun, target: Option<string>)
    requires run.check.TableExists? && run.listing.Pages? && run.session.Starts?
    requires MakePlan(env.config, Flatten(run.listing.pages), run.clock, target).Planned?
    ensures var plan := MakePlan(env.config, Flatten(run.listing.pages), run.clock, target);
      var ledger := LedgerOf(env, Turns(env, run, target));
      var rows := RowsFor(env.config, plan.eligible);
      && |ledger| <= |plan.eligible| && (StopOf(ledger).None? ==> |ledger| == |plan.eligible|)
      && (rows.Some? ==> |rows.value| == |plan.eligible| && SameOrder(env.config, PartitionsOf(ledger), rows.value[..|ledger|]))
  {
    var eligible := MakePlan(env.config, Flatten(run.listing.pages), run.clock, target).eligible;
    LedgerFollows(env, eligible, 0);
    if RowsFor(env.config, eligible).Some? {
      RowsInOrder(env.config, eligible);
      PrefixInOrder(env.config, AllEntries(env, eligible), LedgerOf(env, eligible), eligible,
                    RowsFor(env.config, eligible).value);
    }
  }

  function PartitionsOf(ledger: seq<Entry>): seq<PartitionStats> {
    seq(|ledger|, k requires 0 <= k < |ledger| => ledger[k].stats)
  }

  lemma PrefixInOrder(
    config: Config, all: seq<Entry>, ledger: seq<Entry>, parts: seq<PartitionStats>, rows: seq<Estimate>)
    requires Follows(all, 0, ledger) && |all| == |parts| && forall k :: 0 <= k < |all| ==> all[k].stats == parts[k]
    requires SameOrder(config, parts, rows)
    ensures SameOrder(config, PartitionsOf(ledger), rows[..|ledger|])
  {
    forall k | 0 <= k < |ledger| ensures PartitionsOf(ledger)[k] == parts[k] {
      assert ledger[k] == all[0 + k];
    }
  }

  // And when the cycle is granted every lock and ends without an error, it
  // reports the dry run's partitions, files before and bytes before.
  lemma DryRunForetells(env: Env, run: CycleRun, target: Option<string>, rows: seq<Estimate>)
    requires CycleEnding(env, run, target).exit.Returned?
    requires CycleEnding(env, run, target).summary.Some? && !CycleEnding(env, run, target).summary.value.HasError()
    requires forall e :: e in LedgerOf(env, Turns(env, run, target)) ==> e.turn.Locked()
    ensures run.check.TableExists? && run.listing.Pages?
    ensures MakePlan(env.config, Flatten(run.listing.pages), run.clock, target).Planned?
    ensures var dry := DrySummary(MakePlan(env.config, Flatten(run.listing.pages), run.clock, target), rows);
      var m := CycleEnding(env, run, target).summary.value;
      && m.scanned == dry.scanned && m.eligible == dry.eligible && m.skipped == dry.skipped
      && m.filesBefore == dry.filesBefore && m.bytesBefore == dry.bytesBefore == dry.bytesAfter
  {
    CycleAccounting(env, run, target);
    ErrorFreeEnding(env, run, target);
    var plan := MakePlan(env.config, Flatten(run.listing.pages), run.clock, target);
    LedgerLocked(env, plan.eligible);
    ScannedIsKept(BeforeTurns(plan), LedgerOf(env, plan.eligible));
  }

  lemma LedgerLocked(env: Env, parts: seq<PartitionStats>)
    requires StopOf(LedgerOf(env, parts)).None?
    requires forall e :: e in LedgerOf(env, parts) ==> e.turn.Locked()
    ensures LockedOf(LedgerOf(env, parts)) == parts
  {
    LedgerFollows(env, parts, 0);
    var ledger := LedgerOf(env, parts);
    forall k | 0 <= k < |ledger| ensures ledger[k].stats == parts[k] && ledger[k].turn.Locked() {
      assert ledger[k] == AllEntries(env, parts)[0 + k];
      assert ledger[k] in ledger;
    }
    AllLocked(ledger, parts);
  }

  lemma {:induction false} ScannedIsKept(m: Summary, ledger: seq<Entry>)
    ensures Tally(m, ledger).scanned == m.scanned
  {
    if ledger != [] {
      ScannedIsKept(m, ledger[..|ledger| - 1]);
    }
  }

  ghost predicate SameOrder(config: Config, parts: seq<PartitionStats>, rows: seq<Estimate>) {
    && |rows| == |parts|
    && forall i :: 0 <= i < |parts| ==>
      && rows[i].partitionId == PartitionId(parts[i].key)
      && rows[i].filesBefore == |parts[i].files| && rows[i].bytesBefore == SumSizes(parts[i].files)
      && Some(rows[i].filesAfterEst) == EstimateOutputFileCount(parts[i].TotalBytes(), config.targetFileSizeBytes)
  }

  lemma {:induction false} RowsInOrder(config: Config, parts: seq<PartitionStats>)
    requires RowsFor(config, parts).Some?
    ensures SameOrder(config, parts, RowsFor(config, parts).value)
  {
    if parts != [] {
      RowsInOrder(config, parts[..|parts| - 1]);
    }
  }

  // The totals of a dry run are those of its rows; nothing is compacted, nothing
  // fails, and the exit code says whether there is something to do.
  lemma DryTotals(config: Config, plan: Plan)
    requires plan.Planned? && RowsFor(config, plan.eligible).Some?
    ensures var rows := RowsFor(config, plan.eligible).value;
      var m := DrySummary(plan, rows);
      && m.estimates == rows && m.details == [] && m.failed == [] && m.compacted == m.lockConflicts == 0
      && m.scanned == plan.scanned && m.skipped == plan.skipped && m.eligible == |rows|
      && m.filesBefore == SumBefore(rows) && m.filesAfter == SumEstimates(rows)
      && m.bytesBefore == m.bytesAfter == SumBytes(rows)
      && m.status.DryRun? && m.error.None? && m.ExitCode() == if rows == [] then 2 else 0
  {
    RowsTotal(config, plan.eligible);
    RowsInOrder(config, plan.eligible);
  }

  function SumBefore(rows: seq<Estimate>): nat {
    if rows == [] then 0 else SumBefore(rows[..|rows| - 1]) + rows[|rows| - 1].filesBefore
  }

  function SumBytes(rows: seq<Estimate>): nat {
    if rows == [] then 0 else SumBytes(rows[..|rows| - 1]) + rows[|rows| - 1].bytesBefore
  }

  lemma {:induction false} RowsTotal(config: Config, parts: seq<PartitionStats>)
    requires RowsFor(config, parts).Some?
    ensures var rows := RowsFor(config, parts).value;
      |rows| == |parts| && CountFiles(parts) == SumBefore(rows) && CountBytes(parts) == SumBytes(rows)
  {
    if parts != [] {
      var n := |parts| - 1;
      var rows := RowsFor(config, parts).value;
      RowsTotal(config, parts[..n]);
      CountsSnoc(parts[..n], parts[n]);
      assert parts == parts[..n] + [parts[n]];
      assert rows[..|rows| - 1] == RowsFor(config, parts[..n]).value;
    }
  }
}
