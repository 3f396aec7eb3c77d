// Laws of the counters, proved of every ending a cycle can have.

module CycleLaws {
  import opened Prelude
  import opened FileScanner
  import opened Configuration
  import opened DeltaCompactor
  import opened RunMetrics
  import opened CompactionCycle
  import opened CompactionDaemon

  // ---------- The turns, sorted by how they went ----------

  function DetailsOf(ledger: seq<Entry>): seq<PartitionMetrics> {
    if ledger == [] then []
    else
      var n := |ledger| - 1;
      DetailsOf(ledger[..n]) + if ledger[n].turn.Done? then [ledger[n].turn.metrics] else []
  }

  function FailedOf(ledger: seq<Entry>): seq<string> {
    if ledger == [] then []
    else
      var n := |ledger| - 1;
      FailedOf(ledger[..n])
      + if ledger[n].turn.Conflict? || ledger[n].turn.Failing? then [ledger[n].stats.Id()] else []
  }

  function ConflictsOf(ledger: seq<Entry>): seq<PartitionStats> {
    if ledger == [] then []
    else
      var n := |ledger| - 1;
      ConflictsOf(ledger[..n]) + if ledger[n].turn.Conflict? then [ledger[n].stats] else []
  }

  function LockedOf(ledger: seq<Entry>): seq<PartitionStats> {
    if ledger == [] then []
    else
      var n := |ledger| - 1;
      LockedOf(ledger[..n]) + if ledger[n].turn.Locked() then [ledger[n].stats] else []
  }

  function SumFilesAfter(details: seq<PartitionMetrics>): nat {
    if details == [] then 0 else SumFilesAfter(details[..|details| - 1]) + details[|details| - 1].filesAfter
  }

  function SumBytesAfter(details: seq<PartitionMetrics>): nat {
    if details == [] then 0 else SumBytesAfter(details[..|details| - 1]) + details[|details| - 1].bytesAfter
  }

  lemma {:induction false} CountsSnoc(parts: seq<PartitionStats>, s: PartitionStats)
    ensures CountFiles(parts + [s]) == CountFiles(parts) + s.FileCount()
    ensures CountBytes(parts + [s]) == CountBytes(parts) + s.TotalBytes()
  {
    if parts == [] {
      assert parts + [s] == [s] && [s][1..] == [];
    } else {
      assert (parts + [s])[1..] == parts[1..] + [s];
      CountsSnoc(parts[1..], s);
    }
  }

  lemma SumsSnoc(details: seq<PartitionMetrics>, d: PartitionMetrics)
    ensures SumFilesAfter(details + [d]) == SumFilesAfter(details) + d.filesAfter
    ensures SumBytesAfter(details + [d]) == SumBytesAfter(details) + d.bytesAfter
  {
    assert (details + [d])[..|details|] == details;
  }

  // What the counters hold after turns with the given outcomes, starting from
  // counters that only know the plan.
  ghost predicate CountsAre(
    start: Summary, m: Summary, details: seq<PartitionMetrics>, failed: seq<string>, conflicts: nat,
    locked: seq<PartitionStats>)
  {
    && (m.scanned, m.eligible, m.skipped, m.status, m.error)
         == (start.scanned, start.eligible, start.skipped, start.status, start.error)
    && m.details == details && m.compacted == |details|
    && m.failed == failed && m.lockConflicts == conflicts
    && m.filesBefore == CountFiles(locked) && m.bytesBefore == CountBytes(locked)
    && m.filesAfter == SumFilesAfter(details) && m.bytesAfter == SumBytesAfter(details)
  }

  ghost predicate CountsTell(start: Summary, ledger: seq<Entry>, m: Summary) {
    CountsAre(start, m, DetailsOf(ledger), FailedOf(ledger), |ConflictsOf(ledger)|, LockedOf(ledger))
  }

  lemma CountsStep(
    start: Summary, m: Summary, details: seq<PartitionMetrics>, failed: seq<string>, conflicts: nat,
    locked: seq<PartitionStats>, s: PartitionStats, turn: Turn)
    requires CountsAre(start, m, details, failed, conflicts, locked) && !turn.Emptied?
    ensures CountsAre(start, AfterTurn(m, s, turn),
                      details + (if turn.Done? then [turn.metrics] else []),
                      failed + (if turn.Conflict? || turn.Failing? then [s.Id()] else []),
                      conflicts + (if turn.Conflict? then 1 else 0),
                      locked + (if turn.Locked() then [s] else []))
  {
    CountsSnoc(locked, s);
    assert details + [] == details && failed + [] == failed && locked + [] == locked;
    if turn.Done? {
      SumsSnoc(details, turn.metrics);
    }
  }

  lemma {:induction false} TallyCounts(start: Summary, ledger: seq<Entry>)
    requires CountsTell(start, [], start)
    requires forall e :: e in ledger ==> !e.turn.Emptied?
    ensures CountsTell(start, ledger, Tally(start, ledger))
  {
    if ledger != [] {
      var front, e := ledger[..|ledger| - 1], ledger[|ledger| - 1];
      TallyCounts(start, front);
      CountsStep(start, Tally(start, front), DetailsOf(front), FailedOf(front), |ConflictsOf(front)|, LockedOf(front),
                 e.stats, e.turn);
    }
  }

  // Turns that do not stop the cycle either compact or fail, and every conflict
  // is a failure.
  lemma {:induction false} TurnsAddUp(ledger: seq<Entry>)
    requires forall e :: e in ledger ==> !e.turn.Emptied? && !e.turn.Stops()
    ensures |ledger| == |DetailsOf(ledger)| + |FailedOf(ledger)|
    ensures |ConflictsOf(ledger)| <= |FailedOf(ledger)|
  {
    if ledger != [] {
      var e := ledger[|ledger| - 1];
      TurnsAddUp(ledger[..|ledger| - 1]);
      assert e in ledger;
    }
  }

  // Every partition with the turn it would have.
  function AllEntries(env: Env, parts: seq<PartitionStats>): seq<Entry> {
    seq(|parts|, k requires 0 <= k < |parts| => Entry(parts[k], TurnOf(env, parts[k])))
  }

  // The ledger follows the partitions, only its last turn may stop the cycle,
  // and without such a stop it covers them all.
  ghost predicate Follows(all: seq<Entry>, i: nat, ledger: seq<Entry>)
    requires i <= |all|
  {
    && |ledger| <= |all| - i
    && (forall k :: 0 <= k < |ledger| ==> ledger[k] == all[i + k])
    && (forall k :: 0 <= k < |ledger| - 1 ==> !ledger[k].turn.Stops())
    && (StopOf(ledger).None? ==> |ledger| == |all| - i)
  }

  lemma {:induction false} LedgerFollows(env: Env, parts: seq<PartitionStats>, i: nat)
    requires i <= |parts|
    ensures Follows(AllEntries(env, parts), i, LedgerFrom(env, parts, i))
    decreases |parts| - i
  {
    if i < |parts| {
      LedgerFollows(env, parts, i + 1);
      FollowsFirst(AllEntries(env, parts), i, LedgerFrom(env, parts, i + 1));
    }
  }

  lemma FollowsFirst(all: seq<Entry>, i: nat, rest: seq<Entry>)
    requires i < |all| && Follows(all, i + 1, rest)
    ensures Follows(all, i, if all[i].turn.Stops() then [all[i]] else [all[i]] + rest)
  {
    if !all[i].turn.Stops() {
      FollowsShifted(all, i, rest);
      StopsLast(all[i], rest);
    }
  }

  lemma FollowsShifted(all: seq<Entry>, i: nat, rest: seq<Entry>)
    requires i < |all| && |rest| <= |all| - i - 1
    requires forall k :: 0 <= k < |rest| ==> rest[k] == all[i + 1 + k]
    ensures forall k :: 0 <= k < |[all[i]] + rest| ==> ([all[i]] + rest)[k] == all[i + k]
  {
    forall k | 0 < k < |rest| + 1 ensures ([all[i]] + rest)[k] == all[i + k] {
      assert rest[k - 1] == all[i + 1 + (k - 1)];
    }
  }

  lemma StopsLast(e: Entry, rest: seq<Entry>)
    requires !e.turn.Stops()
    ensures StopOf([e] + rest) == StopOf(rest)
    ensures (forall k :: 0 <= k < |rest| - 1 ==> !rest[k].turn.Stops()) ==>
              forall k :: 0 <= k < |[e] + rest| - 1 ==> !([e] + rest)[k].turn.Stops()
  {
    forall k | 0 < k < |[e] + rest| ensures ([e] + rest)[k] == rest[k - 1] {}
  }

  lemma NonEmptyTurn(env: Env, s: PartitionStats)
    requires s.files != []
    ensures !TurnOf(env, s).Emptied?
  {
  }

  lemma FollowsPlainly(env: Env, parts: seq<PartitionStats>, e: Entry)
    requires NoneEmpty(parts) && e in LedgerOf(env, parts)
    ensures !e.turn.Emptied?
    ensures StopOf(LedgerOf(env, parts)).None? ==> !e.turn.Stops()
  {
    LedgerFollows(env, parts, 0);
    var ledger := LedgerOf(env, parts);
    var k :| 0 <= k < |ledger| && ledger[k] == e;
    NonEmptyTurn(env, parts[0 + k]);
  }

  // ---------- Every cycle ----------

  predicate Throws(turn: Turn, x: Exn) {
    (turn.Aborted? && turn.e == x) || (turn.Interrupted? && x == Interrupt)
  }

  // An exception leaves the body of the cycle's try statement: from the scan, an
  // interrupt of the session's start, or some partition's turn.
  ghost predicate Thrown(env: Env, run: CycleRun, target: Option<string>, x: Exn) {
    run.check.TableExists? &&
    match run.listing
    case ListingRaises(e) => x == e
    case Pages(pages) =>
      ThrownLater(env, MakePlan(env.config, Flatten(pages), run.clock, target), run.session, x)
  }

  ghost predicate ThrownLater(env: Env, plan: Plan, start: SessionStart, x: Exn) {
    && plan.Planned? && plan.eligible != []
    && match start
       case Fails => false
       case InterruptedStart => x == Interrupt
       case Starts => exists e :: e in LedgerOf(env, plan.eligible) && Throws(e.turn, x)
  }

  predicate IsCompactionError(x: Exn) {
    x == TableNotFoundError || x == EmptyPartitionError || x == SparkCompactionError
  }

  // One summary is written, unless the table check raised or the cycle was
  // interrupted; and a cycle that returns has written one.
  lemma OneSummary(env: Env, run: CycleRun, target: Option<string>)
    ensures var ending := CycleEnding(env, run, target);
      && (ending.summary.None? <==> run.check.CheckRaises? || Thrown(env, run, target, Interrupt))
      && (ending.exit.Returned? ==> ending.summary.Some?)
  {
    if run.check.TableExists? && run.listing.Pages? {
      EndsAfterListing(env, MakePlan(env.config, Flatten(run.listing.pages), run.clock, target), run.session, Interrupt);
    }
  }

  // How the cycle is left: with an exception exactly if the table check raised it,
  // or it was thrown later and is none of the compaction errors, which only end up
  // in the summary.
  lemma HowItEnds(env: Env, run: CycleRun, target: Option<string>, x: Exn)
    ensures var ending := CycleEnding(env, run, target);
      && (ending.exit == RaisedOut(x) <==>
            (run.check == CheckRaises(x) || (Thrown(env, run, target, x) && !IsCompactionError(x))))
      && (Thrown(env, run, target, x) && x != Interrupt ==>
            ending.summary.Some? && ending.summary.value.error == Some(x.Message()))
  {
    if run.check.TableExists? && run.listing.Pages? {
      EndsAfterListing(env, MakePlan(env.config, Flatten(run.listing.pages), run.clock, target), run.session, x);
    }
  }

  lemma EndsAfterListing(env: Env, plan: Plan, start: SessionStart, x: Exn)
    ensures var ending := AfterListing(env, plan, start);
      && (ending.exit == RaisedOut(x) <==> ThrownLater(env, plan, start, x) && !IsCompactionError(x))
      && (ThrownLater(env, plan, start, x) && x != Interrupt ==>
            ending.summary.Some? && ending.summary.value.error == Some(x.Message()))
      && (ThrownLater(env, plan, start, x) && x == Interrupt ==> ending.summary.None?)
      && (ending.summary.None? ==> ThrownLater(env, plan, start, Interrupt))
      && (ending.exit.Returned? ==> ending.summary.Some?)
  {
    if plan.Planned? {
      StopsAre(env, plan.eligible, x);
      StopsAre(env, plan.eligible, Interrupt);
    }
  }

  lemma StopsAre(env: Env, parts: seq<PartitionStats>, x: Exn)
    ensures StopOf(LedgerOf(env, parts)) == Some(x) <==> exists e :: e in LedgerOf(env, parts) && Throws(e.turn, x)
  {
    LedgerFollows(env, parts, 0);
    StopIsThrown(AllEntries(env, parts), LedgerOf(env, parts), x);
  }

  lemma StopIsThrown(all: seq<Entry>, ledger: seq<Entry>, x: Exn)
    requires Follows(all, 0, ledger)
    ensures StopOf(ledger) == Some(x) <==> exists e :: e in ledger && Throws(e.turn, x)
  {
    if e :| e in ledger && Throws(e.turn, x) {
      var k :| 0 <= k < |ledger| && ledger[k] == e;
      assert k == |ledger| - 1;
    }
  }

  // What the summary says went wrong: nothing, unless the table or the target was
  // not found, the session did not start, or an exception was thrown.
  lemma ErrorTells(env: Env, run: CycleRun, target: Option<string>)
    requires CycleEnding(env, run, target).summary.Some?
    ensures var error := CycleEnding(env, run, target).summary.value.error;
      match run.check
      case CheckRaises(_) => false
      case TableMissing => error == Some(TableNotFoundError.Message())
      case TableExists =>
        match run.listing
        case ListingRaises(e) => error == Some(e.Message())
        case Pages(pages) =>
          PlanErrorIs(error, env, MakePlan(env.config, Flatten(pages), run.clock, target), run.session)
  {
    if run.check.TableExists? && run.listing.Pages? {
      var plan := MakePlan(env.config, Flatten(run.listing.pages), run.clock, target);
      if plan.Planned? {
        PlanErrorTells(env, plan, run.session);
      }
    }
  }

  ghost predicate PlanErrorIs(error: Option<string>, env: Env, plan: Plan, start: SessionStart) {
    if plan.NotFound? then error == Some(NOT_FOUND)
    else if plan.eligible != [] && start.Fails? then error == Some(SparkCompactionError.Message())
    else (error.None? <==> forall e :: e in LedgerOf(env, plan.eligible) ==> !e.turn.Stops())
  }

  lemma PlanErrorTells(env: Env, plan: Plan, start: SessionStart)
    requires AfterListing(env, plan, start).summary.Some? && plan.Planned?
    ensures PlanErrorIs(AfterListing(env, plan, start).summary.value.error, env, plan, start)
  {
    var ledger := LedgerOf(env, plan.eligible);
    LedgerFollows(env, plan.eligible, 0);
    StatusIsKept(BeforeTurns(plan), ledger);
    if StopOf(ledger).Some? {
      assert ledger[|ledger| - 1] in ledger;
    } else {
      NoneStops(AllEntries(env, plan.eligible), ledger);
    }
  }

  lemma NoneStops(all: seq<Entry>, ledger: seq<Entry>)
    requires Follows(all, 0, ledger) && StopOf(ledger).None?
    ensures forall e :: e in ledger ==> !e.turn.Stops()
  {
    forall e | e in ledger ensures !e.turn.Stops() {
      var k :| 0 <= k < |ledger| && ledger[k] == e;
    }
  }

  // The turns end with a lock left behind exactly when some acquire() raised on
  // a write that the store had carried out.
  lemma OrphanExactly(env: Env, parts: seq<PartitionStats>, key: string)
    ensures key in Orphan(env.config, LedgerOf(env, parts))
       <==> exists e :: e in LedgerOf(env, parts) && e.turn.LeavesOrphan() && key == LockKey(env.config, e.stats)
  {
    LedgerFollows(env, parts, 0);
    OrphanIsLast(env.config, AllEntries(env, parts), LedgerOf(env, parts), key);
  }

  lemma OrphanIsLast(config: Config, all: seq<Entry>, ledger: seq<Entry>, key: string)
    requires Follows(all, 0, ledger)
    ensures key in Orphan(config, ledger)
       <==> exists e :: e in ledger && e.turn.LeavesOrphan() && key == LockKey(config, e.stats)
  {
    if e :| e in ledger && e.turn.LeavesOrphan() && key == LockKey(config, e.stats) {
      var k :| 0 <= k < |ledger| && ledger[k] == e;
      assert k == |ledger| - 1;
    }
  }

  // A cycle without an error has taken every planned turn.
  lemma ErrorFreeEnding(env: Env, run: CycleRun, target: Option<string>)
    requires CycleEnding(env, run, target).exit.Returned?
    requires CycleEnding(env, run, target).summary.Some? && !CycleEnding(env, run, target).summary.value.HasError()
    ensures run.check.TableExists? && run.listing.Pages?
    ensures var plan := MakePlan(env.config, Flatten(run.listing.pages), run.clock, target);
      && plan.Planned? && Turns(env, run, target) == plan.eligible
      && StopOf(LedgerOf(env, plan.eligible)).None?
      && CycleEnding(env, run, target).summary.value == Tally(BeforeTurns(plan), LedgerOf(env, plan.eligible)).Complete()
  {
    var plan := MakePlan(env.config, Flatten(run.listing.pages), run.clock, target);
    ErrorFreePlan(env, plan, run.session);
  }

  lemma ErrorFreePlan(env: Env, plan: Plan, start: SessionStart)
    requires AfterListing(env, plan, start).exit.Returned?
    requires AfterListing(env, plan, start).summary.Some?
    requires !AfterListing(env, plan, start).summary.value.HasError()
    ensures plan.Planned? && (start.Starts? || plan.eligible == [])
    ensures StopOf(LedgerOf(env, plan.eligible)).None?
    ensures AfterListing(env, plan, start).summary.value
         == Tally(BeforeTurns(plan), LedgerOf(env, plan.eligible)).Complete()
  {
  }

  // A cycle that returns without an error has accounted for everything: what was
  // scanned was eligible or skipped, what was eligible was compacted or failed,
  // the file counts before sum over the locked partitions and those after over
  // the compacted ones.
  lemma CycleAccounting(env: Env, run: CycleRun, target: Option<string>)
    requires CycleEnding(env, run, target).exit.Returned?
    requires CycleEnding(env, run, target).summary.Some? && !CycleEnding(env, run, target).summary.value.HasError()
    ensures run.check.TableExists? && run.listing.Pages?
    ensures var plan := MakePlan(env.config, Flatten(run.listing.pages), run.clock, target);
      && plan.Planned? && CycleEnding(env, run, target).summary.value.skipped == plan.skipped
      && CycleEnding(env, run, target).summary.value.scanned == plan.scanned
    ensures var m := CycleEnding(env, run, target).summary.value;
      var ledger := LedgerOf(env, Turns(env, run, target));
      && (!IsTargeted(target) ==> m.scanned == m.eligible + m.skipped)
      && m.eligible == |Turns(env, run, target)| == |ledger| == m.compacted + |m.failed|
      && m.compacted == |m.details| && m.lockConflicts == |ConflictsOf(ledger)| <= |m.failed|
      && m.details == DetailsOf(ledger) && m.failed == FailedOf(ledger)
      && m.filesBefore == CountFiles(LockedOf(ledger)) && m.bytesBefore == CountBytes(LockedOf(ledger))
      && m.filesAfter == SumFilesAfter(m.details) && m.bytesAfter == SumBytesAfter(m.details)
  {
    ErrorFreeEnding(env, run, target);
    var plan := MakePlan(env.config, Flatten(run.listing.pages), run.clock, target);
    var ledger := LedgerOf(env, plan.eligible);
    PlanIsSound(env.config, Flatten(run.listing.pages), run.clock, target);
    LedgerFollows(env, plan.eligible, 0);
    forall e | e in ledger ensures !e.turn.Emptied? && !e.turn.Stops() {
      FollowsPlainly(env, plan.eligible, e);
    }
    TurnsAddUp(ledger);
    TallyCounts(BeforeTurns(plan), ledger);
  }

  // The status that mark_complete() settles on: what a summary's error and
  // failures say, after every cycle.
  ghost predicate StatusTells(m: Summary) {
    && (m.status == Error <==> m.HasError())
    && (m.status == PartialSuccess <==> !m.HasError() && m.failed != [])
    && (m.status == Success <==> !m.HasError() && m.failed == [])
  }

  // A summary that is written tells the outcome, however the cycle ends.
  lemma WrittenStatus(env: Env, run: CycleRun, target: Option<string>)
    requires CycleEnding(env, run, target).summary.Some?
    ensures StatusTells(CycleEnding(env, run, target).summary.value)
  {
    if run.check.TableExists? && run.listing.Pages? {
      ListingStatus(env, MakePlan(env.config, Flatten(run.listing.pages), run.clock, target), run.session);
    }
  }

  lemma ListingStatus(env: Env, plan: Plan, start: SessionStart)
    requires AfterListing(env, plan, start).summary.Some?
    ensures StatusTells(AfterListing(env, plan, start).summary.value)
  {
    if plan.Planned? {
      StatusIsKept(BeforeTurns(plan), LedgerOf(env, plan.eligible));
    }
  }

  lemma {:induction false} StatusIsKept(m: Summary, ledger: seq<Entry>)
    ensures Tally(m, ledger).status == m.status && Tally(m, ledger).error == m.error
  {
    if ledger != [] {
      StatusIsKept(m, ledger[..|ledger| - 1]);
    }
  }

  // Failures show: without a table, without the target, without a session, or after
  // a compaction error in the cycle itself, the cycle returns an error.
  lemma FailuresShow(env: Env, run: CycleRun, target: Option<string>, x: Exn)
    requires || run.check.TableMissing?
             || (run.check.TableExists? && run.listing.Pages? &&
                 var plan := MakePlan(env.config, Flatten(run.listing.pages), run.clock, target);
                 plan.NotFound? || (plan.eligible != [] && run.session.Fails?))
             || (Thrown(env, run, target, x) && IsCompactionError(x))
    ensures var ending := CycleEnding(env, run, target);
      ending.exit.Returned? && ending.summary.Some? && ending.summary.value.HasError() && ending.summary.value.ExitCode() == 1
  {
    if Thrown(env, run, target, x) && IsCompactionError(x) {
      HowItEnds(env, run, target, x);
      ReturnsIfCaught(env, run, target, x);
    }
  }

  lemma ReturnsIfCaught(env: Env, run: CycleRun, target: Option<string>, x: Exn)
    requires Thrown(env, run, target, x) && IsCompactionError(x)
    ensures CycleEnding(env, run, target).exit.Returned?
  {
    if run.listing.Pages? {
      StopsAre(env, MakePlan(env.config, Flatten(run.listing.pages), run.clock, target).eligible, x);
    }
  }

  // The exit code of a cycle that returns.
  lemma CycleExitCode(env: Env, run: CycleRun, target: Option<string>)
    requires CycleEnding(env, run, target).exit.Returned?
    ensures CycleEnding(env, run, target).summary.Some?
    ensures var m := CycleEnding(env, run, target).summary.value;
      && (m.ExitCode() == 1 <==> m.HasError() || (m.eligible > 0 && m.compacted == 0))
      && (m.ExitCode() == 2 <==> !m.HasError() && m.eligible == 0)
      && (m.ExitCode() == 0 <==> !m.HasError() && m.compacted > 0)
  {
    OneSummary(env, run, target);
    WrittenStatus(env, run, target);
    var m := CycleEnding(env, run, target).summary.value;
    if !m.HasError() {
      CycleAccounting(env, run, target);
    }
    ExitCodeMeaning(m);
  }
}
