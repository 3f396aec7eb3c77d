// A whole compaction cycle, from the table check to the summary.

module CompactionDaemon {
  import opened Prelude
  import opened PartitionKeys
  import opened FileScanner
  import opened PartitionSelection
  import opened Configuration
  import opened DeltaCompactor
  import opened Locks
  import opened RunMetrics
  import opened CompactionCycle

  // ---------- The plan is sound ----------

  lemma {:induction false} EligibleSorted(parts: seq<PartitionStats>, policy: Policy, clock: Clock)
    requires SortedByKey(parts)
    ensures SortedByKey(Eligible(parts, policy, clock))
  {
    if parts != [] {
      var n := |parts| - 1;
      EligibleSorted(parts[..n], policy, clock);
      var front := Eligible(parts[..n], policy, clock);
      forall i | 0 <= i < |front| ensures KeyLt(front[i].key, parts[n].key) {
        EligibleIn(parts[..n], policy, clock, front[i]);
        var j :| 0 <= j < n && parts[..n][j] == front[i];
      }
    }
  }

  lemma SortedAreDistinct(parts: seq<PartitionStats>)
    requires SortedByKey(parts)
    ensures DistinctKeys(parts)
  {
    forall i, j | 0 <= i < j < |parts| ensures parts[i].key != parts[j].key {
      KeyOrder(parts[i].key, parts[j].key);
    }
  }

  lemma {:induction false} SelectionCounts(parts: seq<PartitionStats>, policy: Policy, clock: Clock)
    ensures |Eligible(parts, policy, clock)| + |Skipped(parts, policy, clock)| == |parts|
  {
    if parts != [] {
      SelectionCounts(parts[..|parts| - 1], policy, clock);
    }
  }

  lemma {:induction false} FoundIn(parts: seq<PartitionStats>, id: string)
    requires FirstWithId(parts, id).Some?
    ensures FirstWithId(parts, id).value in parts && FirstWithId(parts, id).value.Id() == id
  {
    if parts[0].Id() != id {
      FoundIn(parts[1..], id);
    }
  }

  // Planned partitions are pairwise distinct and never empty, so the cycle's
  // branch for empty partitions is not taken; and without a target nothing that
  // was scanned goes missing.
  lemma PlanIsSound(config: Config, objects: seq<FileInfo>, clock: Clock, target: Option<string>)
    ensures var plan := MakePlan(config, objects, clock, target);
      plan.Planned? ==>
        && DistinctKeys(plan.eligible) && NoneEmpty(plan.eligible)
        && (!IsTargeted(target) ==> plan.scanned == |plan.eligible| + plan.skipped)
  {
    var parts := Scan(config.tablePrefix, objects);
    ScanIsScan(config.tablePrefix, objects);
    if IsTargeted(target) {
      if FirstWithId(parts, target.value).Some? {
        FoundIn(parts, target.value);
      }
    } else {
      var e := Eligible(parts, config.policy, clock);
      EligibleSorted(parts, config.policy, clock);
      SortedAreDistinct(e);
      SelectionCounts(parts, config.policy, clock);
      forall i | 0 <= i < |e| ensures e[i].files != [] {
        EligibleIn(parts, config.policy, clock, e[i]);
      }
    }
  }

  // What is planned. Without a target: exactly the scanned partitions worth
  // compacting at their clock readings, in order of date and hour; the others are
  // counted as skipped. With one: the scanned partition with that id, whatever its
  // state.
  lemma PlanTells(config: Config, objects: seq<FileInfo>, clock: Clock, target: Option<string>)
    ensures var parts, plan := Scan(config.tablePrefix, objects), MakePlan(config, objects, clock, target);
      && plan.scanned == |parts|
      && (target.None? || target.value == "" ==>
            && plan.Planned? && |plan.eligible| + plan.skipped == |parts|
            && (forall s :: s in plan.eligible <==> s in parts && WorthCompacting(s, config.policy, clock(s.key)))
            && (forall i, j :: 0 <= i < j < |plan.eligible| ==> InOrder(plan.eligible[i].key, plan.eligible[j].key)))
      && (target.Some? && target.value != "" ==>
            && (plan.NotFound? <==> forall s :: s in parts ==> PartitionId(s.key) != target.value)
            && (plan.Planned? ==>
                  && plan.skipped == 0 && |plan.eligible| == 1
                  && plan.eligible[0] in parts && PartitionId(plan.eligible[0].key) == target.value))
  {
    var parts := Scan(config.tablePrefix, objects);
    ScanIsScan(config.tablePrefix, objects);
    if IsTargeted(target) {
      TargetTells(parts, target.value);
    } else {
      SelectionTells(parts, config.policy, clock);
    }
  }

  predicate InOrder(a: PartitionKey, b: PartitionKey) {
    StrLe(a.date, b.date) && (a.date == b.date ==> a.hour < b.hour)
  }

  lemma TargetTells(parts: seq<PartitionStats>, id: string)
    ensures FirstWithId(parts, id).None? <==> forall s :: s in parts ==> s.Id() != id
    ensures FirstWithId(parts, id).Some? ==>
              FirstWithId(parts, id).value in parts && FirstWithId(parts, id).value.Id() == id
  {
    FirstIsFirst(parts, id);
    if FirstWithId(parts, id).Some? {
      FoundIn(parts, id);
    }
  }

  lemma SelectionTells(parts: seq<PartitionStats>, policy: Policy, clock: Clock)
    requires SortedByKey(parts)
    ensures var e := Eligible(parts, policy, clock);
      && |e| + |Skipped(parts, policy, clock)| == |parts|
      && (forall s :: s in e <==> s in parts && WorthCompacting(s, policy, clock(s.key)))
      && (forall i, j :: 0 <= i < j < |e| ==> InOrder(e[i].key, e[j].key))
  {
    var e := Eligible(parts, policy, clock);
    SelectionCounts(parts, policy, clock);
    EligibleSorted(parts, policy, clock);
    forall s ensures s in e <==> s in parts && WorthCompacting(s, policy, clock(s.key)) {
      EligibleIn(parts, policy, clock, s);
      EligibleMeaning(s, policy, clock(s.key));
    }
    forall i, j | 0 <= i < j < |e| ensures InOrder(e[i].key, e[j].key) {
      assert KeyLt(e[i].key, e[j].key);
      StrLeTotal(e[i].key.date, e[i].key.date);
    }
  }

  // ---------- How a cycle ends ----------

  datatype Ending = Ending(exit: Exit, summary: Option<Summary>)

  // An exception leaves the try block with the counters at m.
  function Escape(m: Summary, e: Exn): Ending {
    if e.IsException() then
      Ending(if e.IsCompactionError() then Returned else RaisedOut(e), Some(m.(error := Some(e.Message())).Complete()))
    else
      Ending(RaisedOut(e), None)
  }

  function BeforeTurns(plan: Plan): Summary
    requires plan.Planned?
  {
    FRESH.(scanned := plan.scanned, eligible := |plan.eligible|, skipped := plan.skipped)
  }

  const NOT_FOUND: string := "Partition not found"

  function AfterTurns(m: Summary, ledger: seq<Entry>): Ending {
    match StopOf(ledger)
    case None => Ending(Returned, Some(Tally(m, ledger).Complete()))
    case Some(e) => Escape(Tally(m, ledger), e)
  }

  function AfterListing(env: Env, plan: Plan, start: SessionStart): Ending {
    match plan
    case NotFound(scanned) =>
      Ending(Returned, Some(FRESH.(scanned := scanned, error := Some(NOT_FOUND), status := Error).Complete()))
    case Planned(_, eligible, _) =>
      var m := BeforeTurns(plan);
      if eligible == [] then Ending(Returned, Some(m.Complete()))
      else if start.InterruptedStart? then Escape(m, Interrupt)
      else if start.Fails? then
        Ending(Returned, Some(m.(error := Some(SparkCompactionError.Message())).Complete()))
      else
        AfterTurns(m, LedgerOf(env, eligible))
  }

  function CycleEnding(env: Env, run: CycleRun, target: Option<string>): Ending {
    if run.check.CheckRaises? then Ending(RaisedOut(run.check.e), None)
    else if run.check.TableMissing? then
      Ending(Returned, Some(FRESH.(error := Some(TableNotFoundError.Message())).Complete()))
    else if run.listing.ListingRaises? then Escape(FRESH, run.listing.e)
    else AfterListing(env, MakePlan(env.config, Flatten(run.listing.pages), run.clock, target), run.session)
  }

  // The partitions whose turn comes: none unless everything before went well.
  function TurnsOf(plan: Plan, start: SessionStart): seq<PartitionStats> {
    if plan.Planned? && start.Starts? then plan.eligible else []
  }

  function Turns(env: Env, run: CycleRun, target: Option<string>): seq<PartitionStats> {
    if run.check.TableExists? && run.listing.Pages? then
      TurnsOf(MakePlan(env.config, Flatten(run.listing.pages), run.clock, target), run.session)
    else []
  }

  // ---------- The cycle ----------

  method FinalizeRun(metrics: CompactionRunMetrics, writer: MetricsWriter)
    modifies metrics`status, writer
    ensures writer.summaries == old(writer.summaries) + [old(metrics.View()).Complete()]
  {
    metrics.MarkComplete();
    writer.WriteRunSummary(metrics);
  }

  // Scan and select, up to the decision what to rewrite.
  method PlanPartitions(config: Config, pages: seq<seq<FileInfo>>, clock: Clock, target: Option<string>) returns (plan: Plan)
    ensures plan == MakePlan(config, Flatten(pages), clock, target)
  {
    var parts := ScanPartitions(config.tablePrefix, pages);
    if target.Some? && target.value != "" {
      var found := FindPartition(parts, target.value);
      if found.None? {
        return NotFound(|parts|);
      }
      return Planned(|parts|, [found.value], 0);
    }
    var eligible, skipped := SelectPartitions(parts, config.policy, clock);
    return Planned(|parts|, eligible, |skipped|);
  }

  // What the shared objects owe a cycle that took the given turns.
  ghost predicate LocksReturned(
    env: Env, turns: seq<PartitionStats>, locks: map<string, LockRecord>, refusesDeletes: bool,
    past: seq<map<string, LockRecord>>, history: seq<map<string, LockRecord>>)
  {
    !refusesDeletes ==>
      OwnedBy(locks, env.owner) == Orphan(env.config, LedgerOf(env, turns)) && OneAtATime(past, history, env.owner)
  }

  function Written(ending: Ending): seq<Summary> {
    match ending.summary case None => [] case Some(m) => [m]
  }

  // The part of the try block that runs with a session.
  method CompactPlan(
    manager: LockManager, table: DeltaTable, writer: MetricsWriter, spark: SparkRuntime, metrics: CompactionRunMetrics,
    config: Config, plan: Plan, each: PartitionKey -> PartitionRun, ghost env: Env)
    returns (thrown: Option<Exn>)
    requires manager.store.Valid() && table.Valid()
    requires manager.basePath == config.lockBasePath && manager.timeout == config.lockTimeout
    requires env == Env(config, manager.owner, each)
    requires plan.Planned? && DistinctKeys(plan.eligible) && OptimizeAssumption(env) && OwnerIsUnique(env)
    requires OwnedBy(manager.store.locks, manager.owner) == {}
    requires metrics.View() == BeforeTurns(plan)
    modifies manager.store`locks, manager.store`history, table, writer, spark, metrics
    ensures manager.store.Valid() && table.Valid()
    ensures var ending := AfterTurns(BeforeTurns(plan), LedgerOf(env, plan.eligible));
      if thrown.None? then ending.exit == Returned && writer.summaries == old(writer.summaries) + Written(ending)
      else Escape(metrics.View(), thrown.value) == ending && writer.summaries == old(writer.summaries)
    ensures spark.started == old(spark.started) + 1 && spark.stopped == old(spark.stopped)
    ensures table.log == old(table.log) + LogOf(env, LedgerOf(env, plan.eligible))
    ensures LocksReturned(env, plan.eligible, manager.store.locks, manager.store.refusesDeletes,
                          old(manager.store.history), manager.store.history)
  {
    spark.started := spark.started + 1;
    thrown := AttemptPartitions(manager, table, metrics, plan.eligible, config, each, env);
    if thrown.None? {
      FinalizeRun(metrics, writer);
    }
  }

  // The body of the try block after the scan; an exception that leaves it is
  // returned in `thrown`.
  method WorkThroughPlan(
    manager: LockManager, table: DeltaTable, writer: MetricsWriter, spark: SparkRuntime, metrics: CompactionRunMetrics,
    config: Config, plan: Plan, start: SessionStart, each: PartitionKey -> PartitionRun, ghost env: Env)
    returns (thrown: Option<Exn>, session: bool)
    requires manager.store.Valid() && table.Valid()
    requires manager.basePath == config.lockBasePath && manager.timeout == config.lockTimeout
    requires env == Env(config, manager.owner, each)
    requires plan.Planned? ==> DistinctKeys(plan.eligible)
    requires OptimizeAssumption(env) && OwnerIsUnique(env)
    requires OwnedBy(manager.store.locks, manager.owner) == {}
    requires metrics.View() == FRESH
    modifies manager.store`locks, manager.store`history, table, writer, spark, metrics
    ensures manager.store.Valid() && table.Valid()
    ensures var ending := AfterListing(env, plan, start);
      if thrown.None? then ending.exit == Returned && writer.summaries == old(writer.summaries) + Written(ending)
      else Escape(metrics.View(), thrown.value) == ending && writer.summaries == old(writer.summaries)
    ensures session <==> TurnsOf(plan, start) != []
    ensures spark.started == old(spark.started) + (if session then 1 else 0) && spark.stopped == old(spark.stopped)
    ensures table.log == old(table.log) + LogOf(env, LedgerOf(env, TurnsOf(plan, start)))
    ensures LocksReturned(env, TurnsOf(plan, start), manager.store.locks, manager.store.refusesDeletes,
                          old(manager.store.history), manager.store.history)
  {
    thrown, session := UpToSession(env, writer, metrics, plan, start);
    if session {
      thrown := CompactPlan(manager, table, writer, spark, metrics, config, plan, each, env);
    }
  }

  // Up to the start of the session, and all there is without one.
  method UpToSession(
    ghost env: Env, writer: MetricsWriter, metrics: CompactionRunMetrics, plan: Plan, start: SessionStart)
    returns (thrown: Option<Exn>, session: bool)
    requires metrics.View() == FRESH
    modifies writer, metrics
    ensures session <==> TurnsOf(plan, start) != []
    ensures session ==> thrown.None? && metrics.View() == BeforeTurns(plan) && writer.summaries == old(writer.summaries)
    ensures !session ==>
      var ending := AfterListing(env, plan, start);
      if thrown.None? then ending.exit == Returned && writer.summaries == old(writer.summaries) + Written(ending)
      else Escape(metrics.View(), thrown.value) == ending && writer.summaries == old(writer.summaries)
  {
    session, thrown := false, None;
    metrics.scanned := plan.scanned;
    if plan.NotFound? {
      metrics.error := Some(NOT_FOUND);
      metrics.status := Error;
      FinalizeRun(metrics, writer);
      return;
    }
    metrics.eligible := |plan.eligible|;
    metrics.skipped := plan.skipped;
    if plan.eligible == [] {
      FinalizeRun(metrics, writer);
    } else if start.InterruptedStart? {
      thrown := Some(Interrupt);
    } else if start.Fails? {
      metrics.error := Some(SparkCompactionError.Message());
      FinalizeRun(metrics, writer);
    } else {
      session := true;
    }
  }

  // The two except clauses.
  method Rescue(thrown: Exn, metrics: CompactionRunMetrics, writer: MetricsWriter) returns (exit: Exit)
    modifies metrics, writer
    ensures exit == Escape(old(metrics.View()), thrown).exit
    ensures writer.summaries == old(writer.summaries) + Written(Escape(old(metrics.View()), thrown))
  {
    if thrown.IsException() {
      metrics.error := Some(thrown.Message());
      FinalizeRun(metrics, writer);
    }
    return if thrown.IsCompactionError() then Returned else RaisedOut(thrown);
  }

  // What was thrown, if anything, is caught or goes on.
  method Conclude(
    thrown: Option<Exn>, metrics: CompactionRunMetrics, writer: MetricsWriter,
    ghost ending: Ending, ghost before: seq<Summary>)
    returns (exit: Exit)
    requires if thrown.None? then ending.exit == Returned && writer.summaries == before + Written(ending)
             else Escape(metrics.View(), thrown.value) == ending && writer.summaries == before
    modifies metrics, writer
    ensures exit == ending.exit && writer.summaries == before + Written(ending)
  {
    if thrown.None? {
      return Returned;
    }
    exit := Rescue(thrown.value, metrics, writer);
  }

  // The try statement: scan, plan, work, and whatever has to be caught.
  method RunGuarded(
    manager: LockManager, table: DeltaTable, writer: MetricsWriter, spark: SparkRuntime, metrics: CompactionRunMetrics,
    config: Config, target: Option<string>, run: CycleRun, ghost env: Env)
    returns (exit: Exit)
    requires manager.store.Valid() && table.Valid()
    requires manager.basePath == config.lockBasePath && manager.timeout == config.lockTimeout
    requires env == Env(config, manager.owner, run.each)
    requires OptimizeAssumption(env) && OwnerIsUnique(env)
    requires OwnedBy(manager.store.locks, manager.owner) == {}
    requires metrics.View() == FRESH && run.check.TableExists?
    modifies manager.store`locks, manager.store`history, table, writer, spark, metrics
    ensures manager.store.Valid() && table.Valid()
    ensures exit == CycleEnding(env, run, target).exit
    ensures writer.summaries == old(writer.summaries) + Written(CycleEnding(env, run, target))
    ensures spark.started == old(spark.started) + (if Turns(env, run, target) == [] then 0 else 1)
    ensures spark.stopped == old(spark.stopped) + (if Turns(env, run, target) == [] then 0 else 1)
    ensures table.log == old(table.log) + LogOf(env, LedgerOf(env, Turns(env, run, target)))
    ensures LocksReturned(env, Turns(env, run, target), manager.store.locks, manager.store.refusesDeletes,
                          old(manager.store.history), manager.store.history)
  {
    if run.listing.ListingRaises? {
      exit := Rescue(run.listing.e, metrics, writer);
        return;
    }
    var plan := PlanPartitions(config, run.listing.pages, run.clock, target);
    PlanIsSound(config, Flatten(run.listing.pages), run.clock, target);
    exit := RunPlanned(manager, table, writer, spark, metrics, config, plan, run.session, run.each, env);
  }

  // The try statement from the plan on, its except clauses and finally clause.
  method RunPlanned(
    manager: LockManager, table: DeltaTable, writer: MetricsWriter, spark: SparkRuntime, metrics: CompactionRunMetrics,
    config: Config, plan: Plan, start: SessionStart, each: PartitionKey -> PartitionRun, ghost env: Env)
    returns (exit: Exit)
    requires manager.store.Valid() && table.Valid()
    requires manager.basePath == config.lockBasePath && manager.timeout == config.lockTimeout
    requires env == Env(config, manager.owner, each)
    requires plan.Planned? ==> DistinctKeys(plan.eligible)
    requires OptimizeAssumption(env) && OwnerIsUnique(env)
    requires OwnedBy(manager.store.locks, manager.owner) == {}
    requires metrics.View() == FRESH
    modifies manager.store`locks, manager.store`history, table, writer, spark, metrics
    ensures manager.store.Valid() && table.Valid()
    ensures exit == AfterListing(env, plan, start).exit
    ensures writer.summaries == old(writer.summaries) + Written(AfterListing(env, plan, start))
    ensures spark.started == old(spark.started) + (if TurnsOf(plan, start) == [] then 0 else 1)
    ensures spark.stopped == old(spark.stopped) + (if TurnsOf(plan, start) == [] then 0 else 1)
    ensures table.log == old(table.log) + LogOf(env, LedgerOf(env, TurnsOf(plan, start)))
    ensures LocksReturned(env, TurnsOf(plan, start), manager.store.locks, manager.store.refusesDeletes,
                          old(manager.store.history), manager.store.history)
  {
    var thrown, session := WorkThroughPlan(manager, table, writer, spark, metrics, config, plan, start, each, env);
    exit := Conclude(thrown, metrics, writer, AfterListing(env, plan, start), old(writer.summaries));
    if session {
      spark.stopped := spark.stopped + 1;   // the finally clause
    }
  }

  // Whatever the outside world does:
  // - at most one lock is owned at any moment, and at the end none, except the
  //   one that a failing write may have left;
  // - the session is stopped exactly when it was started;
  // - one summary is written, and it is CycleEnding's, unless the table check
  //   raised or the cycle was interrupted;
  // - the table's log holds, turn by turn, the version the turn found and then
  //   the turn's own, each with the rows of the version before it.
  method RunCompactionCycle(
    config: Config, store: LockStore, table: DeltaTable, writer: MetricsWriter, spark: SparkRuntime,
    owner: string, runId: string, target: Option<string>, run: CycleRun, ghost env: Env)
    returns (exit: Exit)
    requires store.Valid() && table.Valid()
    requires OwnedBy(store.locks, owner) == {}          // the owner id is fresh
    requires env == Env(config, owner, run.each) && OptimizeAssumption(env) && OwnerIsUnique(env)
    modifies store`locks, store`history, table, writer, spark
    ensures store.Valid() && table.Valid()
    ensures exit == CycleEnding(env, run, target).exit
    ensures writer.summaries == old(writer.summaries) + Written(CycleEnding(env, run, target))
    ensures spark.started == old(spark.started) + (if Turns(env, run, target) == [] then 0 else 1)
    ensures spark.stopped == old(spark.stopped) + (if Turns(env, run, target) == [] then 0 else 1)
    ensures table.log == old(table.log) + LogOf(env, LedgerOf(env, Turns(env, run, target)))
    ensures LocksReturned(env, Turns(env, run, target), store.locks, store.refusesDeletes, old(store.history), store.history)
  {
    var metrics := new CompactionRunMetrics();
    var manager := new LockManager(store, config.lockBasePath, config.lockTimeout, owner, runId);
    if run.check.CheckRaises? {
      return RaisedOut(run.check.e);
    }
    if run.check.TableMissing? {
      metrics.error := Some(TableNotFoundError.Message());
      FinalizeRun(metrics, writer);
      return Returned;
    }
    exit := RunGuarded(manager, table, writer, spark, metrics, config, target, run, env);
  }
}
