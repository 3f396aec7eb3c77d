// The counters of one compaction run and the exit code they lead to.

module RunMetrics {
  import opened Prelude
  import opened DeltaCompactor

  datatype Status = Running | DryRun | Success | PartialSuccess | Error

  // A planned partition's line in a dry run.
  datatype Estimate = Estimate(partitionId: string, filesBefore: nat, filesAfterEst: nat, bytesBefore: nat)

  // One line of the metrics file. `failed` keeps the partition ids. The details
  // of a dry run have a shape of their own and are kept in `estimates`.
  datatype Summary = Summary(
    scanned: nat, eligible: int, skipped: nat, compacted: nat, lockConflicts: nat,
    filesBefore: nat, filesAfter: nat, bytesBefore: nat, bytesAfter: nat,
    failed: seq<string>, details: seq<PartitionMetrics>, estimates: seq<Estimate>,
    status: Status, error: Option<string>)
  {
    // `if self.error:` is false for an empty message.
    predicate HasError() {
      error.Some? && error.value != ""
    }

    function Complete(): Summary {
      if status == DryRun then this
      else this.(status := if HasError() then Error else if failed != [] then PartialSuccess else Success)
    }

    function ExitCode(): nat {
      if HasError() then EXIT_FAILURE
      else if status == Error then EXIT_FAILURE
      else if eligible == 0 && compacted == 0 then EXIT_NO_ELIGIBLE
      else if failed != [] && compacted == 0 then EXIT_FAILURE
      else EXIT_SUCCESS
    }
  }

  const EXIT_SUCCESS: nat := 0
  const EXIT_FAILURE: nat := 1
  const EXIT_NO_ELIGIBLE: nat := 2

  const FRESH: Summary := Summary(0, 0, 0, 0, 0, 0, 0, 0, 0, [], [], [], Running, None)

  class CompactionRunMetrics {
    var scanned: nat
    var eligible: int
    var skipped: nat
    var compacted: nat
    var lockConflicts: nat
    var filesBefore: nat
    var filesAfter: nat
    var bytesBefore: nat
    var bytesAfter: nat
    var failed: seq<string>
    var details: seq<PartitionMetrics>
    var estimates: seq<Estimate>
    var status: Status
    var error: Option<string>

    function View(): Summary
      reads this
    {
      Summary(scanned, eligible, skipped, compacted, lockConflicts,
              filesBefore, filesAfter, bytesBefore, bytesAfter, failed, details, estimates, status, error)
    }

    constructor ()
      ensures View() == FRESH
    {
      scanned, eligible, skipped, compacted, lockConflicts := 0, 0, 0, 0, 0;
      filesBefore, filesAfter, bytesBefore, bytesAfter := 0, 0, 0, 0;
      failed, details, estimates, status, error := [], [], [], Running, None;
    }

    method MarkComplete()
      modifies this`status
      ensures View() == old(View()).Complete()
    {
      if status == DryRun {
        return;
      }
      if error.Some? && error.value != "" {
        status := Error;
      } else if failed != [] {
        status := PartialSuccess;
      } else {
        status := Success;
      }
    }
  }

  class MetricsWriter {
    var summaries: seq<Summary>

    constructor ()
      ensures summaries == []
    {
      summaries := [];
    }

    method WriteRunSummary(metrics: CompactionRunMetrics)
      modifies this
      ensures summaries == old(summaries) + [metrics.View()]
    {
      summaries := summaries + [metrics.View()];
    }
  }

  // What the counters of a run without an error satisfy (the cycle proves it):
  // every partition that was eligible was compacted or is listed as failed.
  predicate Accounted(m: Summary) {
    m.eligible == m.compacted + |m.failed|
  }

  // On such counters the exit code is 1 exactly when there is an error or
  // eligible work of which nothing was compacted, 2 exactly when nothing was
  // eligible, and 0 exactly when something was compacted.
  lemma ExitCodeMeaning(m: Summary)
    requires m.status == Error <==> m.HasError()
    requires !m.HasError() ==> Accounted(m)
    ensures m.ExitCode() == 1 <==> m.HasError() || (m.eligible > 0 && m.compacted == 0)
    ensures m.ExitCode() == 2 <==> !m.HasError() && m.eligible == 0
    ensures m.ExitCode() == 0 <==> !m.HasError() && m.compacted > 0
  {
  }
}
