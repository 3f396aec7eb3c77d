// One compaction cycle: check, scan, select, then lock, rewrite and release
// partition by partition, whatever fails along the way.

module CompactionCycle {
  import opened Prelude
  import opened PartitionKeys
  import opened FileScanner
  import opened PartitionSelection
  import opened Configuration
  import opened DeltaCompactor
  import opened Locks
  import opened RunMetrics

  // ---------- What the outside world does during a cycle ----------

  datatype TableCheck = TableExists | TableMissing | CheckRaises(e: Exn)
  datatype ListingRun = Pages(pages: seq<seq<FileInfo>>) | ListingRaises(e: Exn)
  datatype SessionStart = Starts | Fails | InterruptedStart

  // One turn: the clock, the failing calls, and what other workers and the
  // streaming job have made of the locks and the table by the time it comes.
  datatype PartitionRun = PartitionRun(
    now: int, fault: AcquireFault, spark: SparkRun, locks: map<string, LockRecord>, table: Snapshot)

  datatype CycleRun = CycleRun(
    check: TableCheck,
    listing: ListingRun,
    clock: Clock,                            // the clock as read at selection
    session: SessionStart,                   // a session that fails to start raises
                                             // SparkCompactionError
    each: PartitionKey -> PartitionRun)

  datatype Exit = Returned | RaisedOut(e: Exn)

  class SparkRuntime {
    var started: nat
    var stopped: nat
  }

  // ---------- The plan ----------

  datatype Plan = NotFound(scanned: nat) | Planned(scanned: nat, eligible: seq<PartitionStats>, skipped: nat)

  // `if target_partition:` is false for an empty string.
  predicate IsTargeted(target: Option<string>) {
    target.Some? && target.value != ""
  }

  function MakePlan(config: Config, objects: seq<FileInfo>, clock: Clock, target: Option<string>): Plan {
    var parts := Scan(config.tablePrefix, objects);
    if IsTargeted(target) then
      match FirstWithId(parts, target.value)
      case None => NotFound(|parts|)
      case Some(match_) => Planned(|parts|, [match_], 0)
    else
      Planned(|parts|, Eligible(parts, config.policy, clock), |Skipped(parts, config.policy, clock)|)
  }

  // ---------- One partition's turn ----------

  // What a turn depends on: the settings, the worker, and what the outside world
  // does in that turn.
  datatype Env = Env(config: Config, owner: string, each: PartitionKey -> PartitionRun)

  datatype Turn =
    | Emptied
    | Conflict
    | Done(metrics: PartitionMetrics)
    | Failing(e: Exn)
    | Aborted(e: Exn, stored: bool)   // acquire() raised, perhaps on a write that was carried out
    | Interrupted                     // KeyboardInterrupt or SystemExit during the rewrite
  {
    predicate Stops() { Aborted? || Interrupted? }
    predicate Locked() { Done? || Failing? || Interrupted? }
    predicate LeavesOrphan() { Aborted? && stored }
    function StopExn(): Exn requires Stops() { if Aborted? then e else Interrupt }
  }

  function TurnFor(
    config: Config, owner: string, existing: Option<LockRecord>, stats: PartitionStats, run: PartitionRun, noRows: bool)
    : Turn
  {
    if stats.FileCount() == 0 then Emptied else
    match AcquireOutcome(existing, owner, config.lockTimeout, run.now, run.fault)
    case Failed(e) => Aborted(e, run.fault.WriteFails? && run.fault.stored)
    case Denied => Conflict
    case Granted => TurnAfter(CompactionOutcome(config, stats, run.spark, noRows))
  }

  function LockKey(config: Config, stats: PartitionStats): string {
    LockFilePath(config.lockBasePath, stats.Id())
  }

  function TurnOf(env: Env, stats: PartitionStats): Turn {
    var run := env.each(stats.key);
    TurnFor(env.config, env.owner, Get(run.locks, LockKey(env.config, stats)), stats,
            run, LiveRows(run.table, stats.key) == [])
  }

  // Every OPTIMIZE of the cycle regroups the rows of its slice and no more.
  ghost predicate OptimizeAssumption(env: Env) {
    forall p :: OptimizeKeepsRows(env.each(p).spark.optimize, LiveRows(env.each(p).table, p))
  }

  // Nobody else writes locks in this worker's name.
  ghost predicate OwnerIsUnique(env: Env) {
    forall p :: OwnedBy(env.each(p).locks, env.owner) == {}
  }

  // The turn of a partition whose lock was granted, from its compaction.
  function TurnAfter(outcome: Outcome): Turn {
    match outcome
    case Compacted(metrics) => Done(metrics)
    case Raised(e) => if e.Interrupt? then Interrupted else Failing(e)
  }

  // How a turn moves the counters.
  function AfterTurn(m: Summary, stats: PartitionStats, turn: Turn): Summary {
    match turn
    case Emptied => m.(skipped := m.skipped + 1, eligible := m.eligible - 1)
    case Conflict => m.(lockConflicts := m.lockConflicts + 1, failed := m.failed + [stats.Id()])
    case Done(p) =>
      m.(filesBefore := m.filesBefore + stats.FileCount(), bytesBefore := m.bytesBefore + stats.TotalBytes(),
         compacted := m.compacted + 1,
         filesAfter := m.filesAfter + p.filesAfter, bytesAfter := m.bytesAfter + p.bytesAfter,
         details := m.details + [p])
    case Failing(_) =>
      m.(filesBefore := m.filesBefore + stats.FileCount(), bytesBefore := m.bytesBefore + stats.TotalBytes(),
         failed := m.failed + [stats.Id()])
    case Aborted(_, _) => m
    case Interrupted =>
      m.(filesBefore := m.filesBefore + stats.FileCount(), bytesBefore := m.bytesBefore + stats.TotalBytes())
  }

  // ---------- What a turn does, case by case ----------

  predicate ReadsSucceed(fault: AcquireFault) {
    !fault.FirstReadFails? && !fault.SecondReadFails?
  }

  // Which turn it is: from the lock that is stored, the clock and the failing
  // calls, and then from the compaction.
  ghost predicate TurnTells(
    turn: Turn, config: Config, owner: string, existing: Option<LockRecord>, stats: PartitionStats,
    run: PartitionRun, noRows: bool)
  {
    var blocked := Blocks(existing, owner, config.lockTimeout, run.now);
    && (turn.Emptied? <==> stats.files == [])
    && (stats.files != [] ==>
          && (turn.Conflict? <==> blocked && ReadsSucceed(run.fault))
          && (turn.Locked() <==> !blocked && run.fault.NoFault?)
          && (turn.Aborted? ==> turn.e == run.fault.e && (turn.stored <==> run.fault.WriteFails? && run.fault.stored)))
    && (turn.Locked() ==> exists r :: OutcomeTells(r, config, stats, run.spark, noRows) && EndsAs(turn, r))
  }

  // How a compaction makes its turn end: a turn only stops the cycle for an
  // interrupt.
  ghost predicate EndsAs(turn: Turn, r: Outcome) {
    match r
    case Compacted(m) => turn == Done(m)
    case Raised(e) => if e == Interrupt then turn == Interrupted else turn == Failing(e)
  }

  lemma TurnIs(
    config: Config, owner: string, existing: Option<LockRecord>, stats: PartitionStats, run: PartitionRun, noRows: bool)
    ensures TurnTells(TurnFor(config, owner, existing, stats, run, noRows), config, owner, existing, stats, run, noRows)
  {
    AcquireDecides(existing, owner, config.lockTimeout, run.now, run.fault);
    var r := CompactionOutcome(config, stats, run.spark, noRows);
    OutcomeIs(config, stats, run.spark, noRows);
    assert EndsAs(TurnAfter(r), r);
  }

  // What it does to the counters.
  ghost predicate CountersTell(turn: Turn, stats: PartitionStats, before: Summary, after: Summary) {
    var files, bytes := |stats.files|, SumSizes(stats.files);
    match turn
    case Emptied => after == before.(skipped := before.skipped + 1, eligible := before.eligible - 1)
    case Conflict =>
      after == before.(lockConflicts := before.lockConflicts + 1, failed := before.failed + [PartitionId(stats.key)])
    case Aborted(_, _) => after == before
    case Interrupted => after == before.(filesBefore := before.filesBefore + files, bytesBefore := before.bytesBefore + bytes)
    case Failing(_) =>
      after == before.(filesBefore := before.filesBefore + files, bytesBefore := before.bytesBefore + bytes,
                       failed := before.failed + [PartitionId(stats.key)])
    case Done(m) =>
      after == before.(filesBefore := before.filesBefore + files, bytesBefore := before.bytesBefore + bytes,
                       filesAfter := before.filesAfter + m.filesAfter, bytesAfter := before.bytesAfter + m.bytesAfter,
                       compacted := before.compacted + 1, details := before.details + [m])
  }

  // The versions that a turn publishes on top of the present one.
  function Published(turn: Turn, config: Config, stats: PartitionStats, spark: SparkRun, now: Snapshot): seq<Snapshot> {
    if turn.Locked() then Versions(config, stats, spark, now) else []
  }

  // Without the lock a turn publishes nothing, and with it what the compaction
  // does; every version permutes the rows of the turn's partition in the version
  // right before it and touches no other partition.
  lemma PublishedTells(turn: Turn, config: Config, stats: PartitionStats, spark: SparkRun, log: seq<Snapshot>)
    requires log != [] && OptimizeKeepsRows(spark.optimize, LiveRows(log[|log| - 1], stats.key))
    ensures var after := log + Published(turn, config, stats, spark, log[|log| - 1]);
      && KeepsMeaning(log, after, stats.key, 2)
      && (if turn.Locked() then LogTells(config, stats, spark, log, after) else after == log)
      && forall v :: |log| <= v < |after| ==> SameMeaning(after[v - 1], after[v], stats.key)
  {
    var after := log + Published(turn, config, stats, spark, log[|log| - 1]);
    if turn.Locked() {
      VersionsTell(log, config, stats, spark);
      forall v | |log| <= v < |after| ensures SameMeaning(after[v - 1], after[v], stats.key) {
        if v > |log| {
          SameMeaningBetween(log[|log| - 1], after[v - 1], after[v], stats.key);
        }
      }
    } else {
      assert after == log;
    }
  }

  lemma SameMeaningBetween(a: Snapshot, b: Snapshot, c: Snapshot, p: PartitionKey)
    requires SameMeaning(a, b, p) && SameMeaning(a, c, p)
    ensures SameMeaning(b, c, p)
  {
    forall q | q != p ensures Slice(b, q) == Slice(c, q) {
      assert Slice(a, q) == Slice(b, q);
    }
  }

  predicate AtMostOne(s: set<string>) {
    forall x, y :: x in s && y in s ==> x == y
  }

  // The counters of a partition that is not rewritten.
  method RecordUntried(metrics: CompactionRunMetrics, stats: PartitionStats, turn: Turn)
    requires turn.Emptied? || turn.Conflict? || turn.Aborted?
    modifies metrics
    ensures metrics.View() == AfterTurn(old(metrics.View()), stats, turn)
  {
    if turn.Emptied? {
      metrics.skipped := metrics.skipped + 1;
      metrics.eligible := metrics.eligible - 1;
    } else if turn.Conflict? {
      metrics.lockConflicts := metrics.lockConflicts + 1;
      metrics.failed := metrics.failed + [stats.Id()];
    }
  }

  // The except clauses around one compaction.
  method RecordOutcome(metrics: CompactionRunMetrics, stats: PartitionStats, outcome: Outcome) returns (turn: Turn)
    modifies metrics
    ensures turn == TurnAfter(outcome)
    ensures metrics.View() == AfterTurn(old(metrics.View()), stats, turn)
  {
    metrics.filesBefore := metrics.filesBefore + stats.FileCount();
    metrics.bytesBefore := metrics.bytesBefore + stats.TotalBytes();
    if outcome.Compacted? {
      metrics.compacted := metrics.compacted + 1;
      metrics.filesAfter := metrics.filesAfter + outcome.metrics.filesAfter;
      metrics.bytesAfter := metrics.bytesAfter + outcome.metrics.bytesAfter;
      metrics.details := metrics.details + [outcome.metrics];
      return Done(outcome.metrics);
    }
    if outcome.e.IsException() {
      metrics.failed := metrics.failed + [stats.Id()];
      return Failing(outcome.e);
    }
    return Interrupted;
  }

  // The try statement of one turn, run while its lock is held.
  method RewriteLocked(
    table: DeltaTable, metrics: CompactionRunMetrics, config: Config, stats: PartitionStats, spark: SparkRun)
    returns (turn: Turn)
    requires table.Valid()
    requires OptimizeKeepsRows(spark.optimize, LiveRows(table.Current(), stats.key))
    modifies table, metrics
    ensures table.Valid() && table.log == old(table.log) + Versions(config, stats, spark, old(table.Current()))
    ensures turn == TurnAfter(CompactionOutcome(config, stats, spark, old(LiveRows(table.Current(), stats.key)) == []))
    ensures metrics.View() == AfterTurn(old(metrics.View()), stats, turn)
  {
    var outcome := CompactPartition(table, config, stats, spark);
    turn := RecordOutcome(metrics, stats, outcome);
  }

  // The try statement and its finally clause.
  method RewriteAndRelease(
    manager: LockManager, table: DeltaTable, metrics: CompactionRunMetrics,
    config: Config, stats: PartitionStats, spark: SparkRun)
    returns (turn: Turn)
    requires manager.store.Valid() && table.Valid() && manager.IsHeldBySelf(stats.Id())
    requires OptimizeKeepsRows(spark.optimize, LiveRows(table.Current(), stats.key))
    modifies manager.store`locks, manager.store`history, table, metrics
    ensures manager.store.Valid() && table.Valid()
    ensures table.log == old(table.log) + Versions(config, stats, spark, old(table.Current()))
    ensures turn == TurnAfter(CompactionOutcome(config, stats, spark, old(LiveRows(table.Current(), stats.key)) == []))
    ensures metrics.View() == AfterTurn(old(metrics.View()), stats, turn)
    ensures manager.store.locks == if manager.store.refusesDeletes then old(manager.store.locks)
                                   else old(manager.store.locks) - {manager.Path(stats.Id())}
    ensures old(manager.store.history) <= manager.store.history
    ensures forall i :: |old(manager.store.history)| <= i < |manager.store.history| ==>
              manager.store.history[i] == manager.store.locks
  {
    turn := RewriteLocked(table, metrics, config, stats, spark);
    manager.Release(stats.Id());
  }

  // What a turn does to the lock store: the partition's lock is given back,
  // unless acquire() raised after its write had reached the store; nothing else
  // was held at any moment, and no other key is touched.
  ghost predicate LocksGivenBack(
    before: map<string, LockRecord>, after: map<string, LockRecord>,
    past: seq<map<string, LockRecord>>, history: seq<map<string, LockRecord>>,
    owner: string, key: string, refusesDeletes: bool, orphan: bool)
  {
    && after - {key} == before - {key}
    && (!refusesDeletes ==> OwnedBy(after, owner) <= OwnedBy(before, owner) + if orphan then {key} else {})
    && (orphan ==> key in OwnedBy(after, owner))
    && past <= history
    && forall i :: |past| <= i < |history| ==> OwnedBy(history[i], owner) <= OwnedBy(before, owner) + {key}
  }

  lemma NotTaken(
    before: map<string, LockRecord>, after: map<string, LockRecord>,
    past: seq<map<string, LockRecord>>, history: seq<map<string, LockRecord>>,
    owner: string, key: string, refusesDeletes: bool)
    requires after - {key} == before - {key} && OwnedBy(after, owner) <= OwnedBy(before, owner) && past <= history
    requires forall i :: |past| <= i < |history| ==> OwnedBy(history[i], owner) <= OwnedBy(before, owner) + {key}
    ensures LocksGivenBack(before, after, past, history, owner, key, refusesDeletes, false)
  {
  }

  lemma TakenAndGivenBack(
    before: map<string, LockRecord>, lock: LockRecord, after: map<string, LockRecord>,
    past: seq<map<string, LockRecord>>, mid: seq<map<string, LockRecord>>, history: seq<map<string, LockRecord>>,
    owner: string, key: string, refusesDeletes: bool)
    requires after == if refusesDeletes then before[key := lock] else before[key := lock] - {key}
    requires past <= mid <= history
    requires forall i :: |past| <= i < |mid| ==> OwnedBy(mid[i], owner) <= OwnedBy(before, owner) + {key}
    requires forall i :: |mid| <= i < |history| ==> history[i] == after
    ensures LocksGivenBack(before, after, past, history, owner, key, refusesDeletes, false)
  {
    forall i | |past| <= i < |history| ensures OwnedBy(history[i], owner) <= OwnedBy(before, owner) + {key} {
      if i < |mid| {
        assert history[i] == mid[i];
      }
    }
  }

  lemma LeftBehind(
    before: map<string, LockRecord>, lock: LockRecord,
    past: seq<map<string, LockRecord>>, history: seq<map<string, LockRecord>>,
    owner: string, key: string, refusesDeletes: bool)
    requires lock.owner == owner && past <= history
    requires forall i :: |past| <= i < |history| ==> OwnedBy(history[i], owner) <= OwnedBy(before, owner) + {key}
    ensures LocksGivenBack(before, before[key := lock], past, history, owner, key, refusesDeletes, true)
  {
  }

  // acquire() as a turn sees it: unless the lock is granted, nothing stays taken
  // but what a failing write left behind.
  method TakeLock(manager: LockManager, config: Config, stats: PartitionStats, run: PartitionRun)
    returns (acquired: Acquisition)
    requires manager.store.Valid()
    requires manager.basePath == config.lockBasePath && manager.timeout == config.lockTimeout
    modifies manager.store`locks, manager.store`history
    ensures manager.store.Valid() && old(manager.store.history) <= manager.store.history
    ensures acquired == AcquireOutcome(old(Get(manager.store.locks, LockKey(config, stats))), manager.owner,
                                       config.lockTimeout, run.now, run.fault)
    ensures acquired.Denied? ==> manager.store.locks == old(manager.store.locks)
    ensures if acquired.Granted? then
              && manager.store.locks
                   == old(manager.store.locks)[LockKey(config, stats) := manager.Stamp(stats.Id(), run.now)]
              && forall i :: |old(manager.store.history)| <= i < |manager.store.history| ==>
                   OwnedBy(manager.store.history[i], manager.owner)
                     <= OwnedBy(old(manager.store.locks), manager.owner) + {LockKey(config, stats)}
            else
              LocksGivenBack(old(manager.store.locks), manager.store.locks,
                             old(manager.store.history), manager.store.history,
                             manager.owner, LockKey(config, stats), manager.store.refusesDeletes,
                             acquired.Failed? && run.fault.WriteFails? && run.fault.stored)
  {
    ghost var key, lock := LockKey(config, stats), manager.Stamp(stats.Id(), run.now);
    ghost var locks, past := manager.store.locks, manager.store.history;
    acquired := manager.Acquire(stats.Id(), run.now, run.fault);
    if acquired.Failed? && run.fault.WriteFails? && run.fault.stored {
      LeftBehind(locks, lock, past, manager.store.history, manager.owner, key, manager.store.refusesDeletes);
    } else if !acquired.Granted? {
      NotTaken(locks, manager.store.locks, past, manager.store.history, manager.owner, key, manager.store.refusesDeletes);
    }
  }

  method AttemptPartition(
    manager: LockManager, table: DeltaTable, metrics: CompactionRunMetrics,
    config: Config, stats: PartitionStats, run: PartitionRun)
    returns (turn: Turn)
    requires manager.store.Valid() && table.Valid()
    requires manager.basePath == config.lockBasePath && manager.timeout == config.lockTimeout
    requires OptimizeKeepsRows(run.spark.optimize, LiveRows(table.Current(), stats.key))
    modifies manager.store`locks, manager.store`history, table, metrics
    ensures manager.store.Valid() && table.Valid()
    ensures turn == TurnFor(config, manager.owner, old(Get(manager.store.locks, LockKey(config, stats))), stats, run,
                            old(LiveRows(table.Current(), stats.key)) == [])
    ensures metrics.View() == AfterTurn(old(metrics.View()), stats, turn)
    ensures table.log == old(table.log) + Published(turn, config, stats, run.spark, old(table.Current()))
    ensures turn.Conflict? || turn.Emptied? ==> manager.store.locks == old(manager.store.locks)
    ensures LocksGivenBack(old(manager.store.locks), manager.store.locks,
                           old(manager.store.history), manager.store.history,
                           manager.owner, LockKey(config, stats), manager.store.refusesDeletes, turn.LeavesOrphan())
  {
    if stats.FileCount() == 0 {
      turn := Emptied;
      RecordUntried(metrics, stats, turn);
      NotTaken(manager.store.locks, manager.store.locks, manager.store.history, manager.store.history, manager.owner,
               LockKey(config, stats), manager.store.refusesDeletes);
      return;
    }
    turn := LockAndRewrite(manager, table, metrics, config, stats, run);
  }

  method LockAndRewrite(
    manager: LockManager, table: DeltaTable, metrics: CompactionRunMetrics,
    config: Config, stats: PartitionStats, run: PartitionRun)
    returns (turn: Turn)
    requires manager.store.Valid() && table.Valid()
    requires stats.FileCount() != 0
    requires manager.basePath == config.lockBasePath && manager.timeout == config.lockTimeout
    requires OptimizeKeepsRows(run.spark.optimize, LiveRows(table.Current(), stats.key))
    modifies manager.store`locks, manager.store`history, table, metrics
    ensures manager.store.Valid() && table.Valid()
    ensures turn == TurnFor(config, manager.owner, old(Get(manager.store.locks, LockKey(config, stats))), stats, run,
                            old(LiveRows(table.Current(), stats.key)) == [])
    ensures metrics.View() == AfterTurn(old(metrics.View()), stats, turn)
    ensures table.log == old(table.log) + Published(turn, config, stats, run.spark, old(table.Current()))
    ensures turn.Conflict? || turn.Emptied? ==> manager.store.locks == old(manager.store.locks)
    ensures LocksGivenBack(old(manager.store.locks), manager.store.locks,
                           old(manager.store.history), manager.store.history,
                           manager.owner, LockKey(config, stats), manager.store.refusesDeletes, turn.LeavesOrphan())
  {
    ghost var lock := manager.Stamp(stats.Id(), run.now);
    ghost var locks, past := manager.store.locks, manager.store.history;
    var acquired := TakeLock(manager, config, stats, run);
    if !acquired.Granted? {
      turn := if acquired.Denied? then Conflict
              else Aborted(acquired.e, run.fault.WriteFails? && run.fault.stored);
      RecordUntried(metrics, stats, turn);
      return;
    }
    turn := RewriteTaken(manager, table, metrics, config, stats, run.spark, locks, lock, past);
  }

  // With the lock just taken: the try statement, and the lock given back.
  method RewriteTaken(
    manager: LockManager, table: DeltaTable, metrics: CompactionRunMetrics,
    config: Config, stats: PartitionStats, spark: SparkRun,
    ghost locks: map<string, LockRecord>, ghost lock: LockRecord, ghost past: seq<map<string, LockRecord>>)
    returns (turn: Turn)
    requires manager.store.Valid() && table.Valid() && manager.basePath == config.lockBasePath
    requires OptimizeKeepsRows(spark.optimize, LiveRows(table.Current(), stats.key))
    requires lock.owner == manager.owner && manager.store.locks == locks[LockKey(config, stats) := lock]
    requires past <= manager.store.history
    requires forall i :: |past| <= i < |manager.store.history| ==>
               OwnedBy(manager.store.history[i], manager.owner) <= OwnedBy(locks, manager.owner) + {LockKey(config, stats)}
    modifies manager.store`locks, manager.store`history, table, metrics
    ensures manager.store.Valid() && table.Valid()
    ensures turn == TurnAfter(CompactionOutcome(config, stats, spark, old(LiveRows(table.Current(), stats.key)) == []))
    ensures metrics.View() == AfterTurn(old(metrics.View()), stats, turn)
    ensures table.log == old(table.log) + Versions(config, stats, spark, old(table.Current()))
    ensures LocksGivenBack(locks, manager.store.locks, past, manager.store.history,
                           manager.owner, LockKey(config, stats), manager.store.refusesDeletes, false)
  {
    ghost var mid := manager.store.history;
    turn := RewriteAndRelease(manager, table, metrics, config, stats, spark);
    TakenAndGivenBack(locks, lock, manager.store.locks, past, mid, manager.store.history, manager.owner,
                      LockKey(config, stats), manager.store.refusesDeletes);
  }

  lemma CountersAre(m: Summary, stats: PartitionStats, turn: Turn)
    ensures CountersTell(turn, stats, m, AfterTurn(m, stats, turn))
  {
  }

  // ---------- All turns ----------

  // Every turn taken is what the lock and the table that it finds, the clock and
  // the failing calls make it.
  lemma {:induction false} LedgerTells(env: Env, parts: seq<PartitionStats>, i: nat, e: Entry)
    requires i <= |parts| && e in LedgerFrom(env, parts, i)
    ensures e.stats in parts
    ensures var run := env.each(e.stats.key);
      TurnTells(e.turn, env.config, env.owner, Get(run.locks, LockKey(env.config, e.stats)), e.stats, run,
                LiveRows(run.table, e.stats.key) == [])
    decreases |parts| - i
  {
    var run := env.each(parts[i].key);
    if e == Entry(parts[i], TurnOf(env, parts[i])) {
      TurnIs(env.config, env.owner, Get(run.locks, LockKey(env.config, parts[i])), parts[i], run,
             LiveRows(run.table, parts[i].key) == []);
    } else {
      LedgerTells(env, parts, i + 1, e);
    }
  }

  // The turns taken, in order: one for each partition, or up to the first turn
  // that stops the cycle.
  datatype Entry = Entry(stats: PartitionStats, turn: Turn)

  function LedgerOf(env: Env, parts: seq<PartitionStats>): seq<Entry> {
    LedgerFrom(env, parts, 0)
  }

  // The entries from turn i on.
  function LedgerFrom(env: Env, parts: seq<PartitionStats>, i: nat): seq<Entry>
    requires i <= |parts|
    decreases |parts| - i
  {
    if i == |parts| then []
    else
      var e := Entry(parts[i], TurnOf(env, parts[i]));
      if e.turn.Stops() then [e] else [e] + LedgerFrom(env, parts, i + 1)
  }

  function Tally(m: Summary, ledger: seq<Entry>): Summary {
    if ledger == [] then m
    else
      var n := |ledger| - 1;
      AfterTurn(Tally(m, ledger[..n]), ledger[n].stats, ledger[n].turn)
  }

  // The exception that ended the turns, if one did.
  function StopOf(ledger: seq<Entry>): Option<Exn> {
    if ledger == [] then None
    else
      var turn := ledger[|ledger| - 1].turn;
      if turn.Stops() then Some(turn.StopExn()) else None
  }

  // The key of the lock that a failing write left behind, if any.
  function Orphan(config: Config, ledger: seq<Entry>): set<string> {
    if ledger == [] then {}
    else
      var e := ledger[|ledger| - 1];
      if e.turn.LeavesOrphan() then {LockKey(config, e.stats)} else {}
  }

  ghost predicate DistinctKeys(parts: seq<PartitionStats>) {
    forall i, j :: 0 <= i < j < |parts| ==> parts[i].key != parts[j].key
  }

  // The partitions whose turn is still to come have no lock of this worker.
  ghost predicate Untaken(env: Env, locks: map<string, LockRecord>, parts: seq<PartitionStats>, i: nat) {
    forall j :: i <= j < |parts| ==> LockKey(env.config, parts[j]) !in OwnedBy(locks, env.owner)
  }

  ghost predicate SameRows(a: Snapshot, b: Snapshot) {
    forall p :: multiset(LiveRows(a, p)) == multiset(LiveRows(b, p))
  }

  // The versions of one turn: the one that the turn finds, and its own.
  function TurnLog(env: Env, e: Entry): seq<Snapshot> {
    var run := env.each(e.stats.key);
    [run.table] + Published(e.turn, env.config, e.stats, run.spark, run.table)
  }

  // The versions of all turns taken, turn by turn.
  function LogOf(env: Env, ledger: seq<Entry>): seq<Snapshot> {
    if ledger == [] then [] else LogOf(env, ledger[..|ledger| - 1]) + TurnLog(env, ledger[|ledger| - 1])
  }

  lemma LogSnoc(env: Env, ledger: seq<Entry>, e: Entry)
    ensures LogOf(env, ledger + [e]) == LogOf(env, ledger) + TurnLog(env, e)
  {
    assert (ledger + [e])[..|ledger|] == ledger;
  }

  lemma TurnLogTells(env: Env, e: Entry)
    requires OptimizeAssumption(env)
    ensures var found, log := env.each(e.stats.key).table, TurnLog(env, e);
      && log != [] && log[0] == found
      && (if e.turn.Locked() then LogTells(env.config, e.stats, env.each(e.stats.key).spark, [found], log) else log == [found])
      && forall v :: 0 < v < |log| ==> SameMeaning(log[v - 1], log[v], e.stats.key)
  {
    PublishedTells(e.turn, env.config, e.stats, env.each(e.stats.key).spark, [env.each(e.stats.key).table]);
  }

  function LastVersion(start: Snapshot, log: seq<Snapshot>): Snapshot {
    if log == [] then start else log[|log| - 1]
  }

  // What others left for each turn holds the rows of the version before it.
  ghost predicate OthersKeepRows(env: Env, start: Snapshot, ledger: seq<Entry>) {
    ledger == [] ||
      var front, e := ledger[..|ledger| - 1], ledger[|ledger| - 1];
      && OthersKeepRows(env, start, front)
      && SameRows(LastVersion(start, LogOf(env, front)), env.each(e.stats.key).table)
  }

  // Then no version ever holds anything else.
  lemma {:induction false} QuietTableKept(env: Env, start: Snapshot, ledger: seq<Entry>)
    requires OptimizeAssumption(env) && OthersKeepRows(env, start, ledger)
    ensures forall s :: s in LogOf(env, ledger) ==> SameRows(start, s)
  {
    if ledger != [] {
      var front, e := ledger[..|ledger| - 1], ledger[|ledger| - 1];
      var past, log := LogOf(env, front), TurnLog(env, e);
      QuietTableKept(env, start, front);
      TurnLogTells(env, e);
      if past != [] {
        SameRowsChain(start, past[|past| - 1], log[0]);
      }
      forall v | 0 <= v < |log| ensures SameRows(start, log[v]) {
        FromFound(e.stats.key, start, log, 0, v);
      }
    }
  }

  lemma {:induction false} FromFound(p: PartitionKey, start: Snapshot, log: seq<Snapshot>, n: nat, v: nat)
    requires n <= v < |log| && SameRows(start, log[n])
    requires forall u :: n < u < |log| ==> SameMeaning(log[u - 1], log[u], p)
    ensures SameRows(start, log[v])
  {
    if v > n {
      FromFound(p, start, log, n, v - 1);
      SameMeaningSameRows(log[v - 1], log[v], p);
      SameRowsChain(start, log[v - 1], log[v]);
    }
  }

  lemma SameMeaningSameRows(a: Snapshot, b: Snapshot, p: PartitionKey)
    requires SameMeaning(a, b, p)
    ensures SameRows(a, b)
  {
    forall q ensures multiset(LiveRows(a, q)) == multiset(LiveRows(b, q)) {
      if q != p { assert Slice(a, q) == Slice(b, q); }
    }
  }

  lemma SameRowsChain(a: Snapshot, b: Snapshot, c: Snapshot)
    requires SameRows(a, b) && SameRows(b, c)
    ensures SameRows(a, c)
  {
    forall p ensures multiset(LiveRows(a, p)) == multiset(LiveRows(c, p)) {
      assert multiset(LiveRows(a, p)) == multiset(LiveRows(b, p));
    }
  }

  // A turn on one partition takes no lock of those still to come.
  lemma TurnLeavesRest(
    env: Env, locks: map<string, LockRecord>, locks': map<string, LockRecord>, parts: seq<PartitionStats>, i: nat)
    requires i < |parts| && DistinctKeys(parts)
    requires locks' - {LockKey(env.config, parts[i])} == locks - {LockKey(env.config, parts[i])}
    requires Untaken(env, locks, parts, i)
    ensures Untaken(env, locks', parts, i + 1)
  {
    forall j | i + 1 <= j < |parts| ensures LockKey(env.config, parts[j]) !in OwnedBy(locks', env.owner) {
      var key, mine := LockKey(env.config, parts[j]), LockKey(env.config, parts[i]);
      LockPathInjective(env.config.lockBasePath, parts[i].key, parts[j].key);
      assert Get(locks' - {mine}, key) == Get(locks', key) && Get(locks - {mine}, key) == Get(locks, key);
    }
  }

  lemma TallySnoc(m: Summary, ledger: seq<Entry>, e: Entry)
    ensures Tally(m, ledger + [e]) == AfterTurn(Tally(m, ledger), e.stats, e.turn)
  {
    assert (ledger + [e])[..|ledger|] == ledger;
  }

  // The ledger so far, and the turns that remain.
  lemma LedgerStep(env: Env, parts: seq<PartitionStats>, i: nat, ledger: seq<Entry>, e: Entry)
    requires i < |parts| && e == Entry(parts[i], TurnOf(env, parts[i]))
    requires LedgerOf(env, parts) == ledger + LedgerFrom(env, parts, i)
    ensures if e.turn.Stops() then LedgerOf(env, parts) == ledger + [e]
            else LedgerOf(env, parts) == (ledger + [e]) + LedgerFrom(env, parts, i + 1)
  {
    if !e.turn.Stops() {
      Reassociate(ledger, e, LedgerFrom(env, parts, i + 1));
    }
  }

  lemma Reassociate(ledger: seq<Entry>, e: Entry, rest: seq<Entry>)
    ensures ledger + ([e] + rest) == (ledger + [e]) + rest
  {
  }

  // Before turn i: the ledger so far, and the counters and versions by it.
  ghost predicate Told(
    env: Env, parts: seq<PartitionStats>, i: nat, ledger: seq<Entry>, start: Summary, m: Summary, log: seq<Snapshot>)
    requires i <= |parts|
  {
    && |ledger| == i && LedgerOf(env, parts) == ledger + LedgerFrom(env, parts, i)
    && m == Tally(start, ledger) && log == LogOf(env, ledger)
    && StopOf(ledger).None? && Orphan(env.config, ledger) == {}
  }

  // After the last turn.
  ghost predicate AllTold(
    env: Env, parts: seq<PartitionStats>, stop: Option<Exn>, orphan: set<string>,
    start: Summary, m: Summary, log: seq<Snapshot>)
  {
    var ledger := LedgerOf(env, parts);
    && stop == StopOf(ledger) && orphan == Orphan(env.config, ledger)
    && m == Tally(start, ledger) && log == LogOf(env, ledger)
  }

  lemma ToldStep(
    env: Env, parts: seq<PartitionStats>, i: nat, ledger: seq<Entry>, turn: Turn,
    start: Summary, m: Summary, m': Summary, log: seq<Snapshot>)
    requires i < |parts| && Told(env, parts, i, ledger, start, m, log)
    requires turn == TurnOf(env, parts[i]) && m' == AfterTurn(m, parts[i], turn)
    ensures var e := Entry(parts[i], turn);
      && (!turn.Stops() ==> Told(env, parts, i + 1, ledger + [e], start, m', log + TurnLog(env, e)))
      && (turn.Stops() ==>
            AllTold(env, parts, Some(turn.StopExn()),
                    if turn.LeavesOrphan() then {LockKey(env.config, parts[i])} else {}, start, m', log + TurnLog(env, e)))
  {
    var e := Entry(parts[i], turn);
    LedgerStep(env, parts, i, ledger, e);
    TallySnoc(start, ledger, e);
    LogSnoc(env, ledger, e);
  }

  lemma ToldLast(
    env: Env, parts: seq<PartitionStats>, ledger: seq<Entry>, start: Summary, m: Summary, log: seq<Snapshot>)
    requires Told(env, parts, |parts|, ledger, start, m, log)
    ensures AllTold(env, parts, None, {}, start, m, log)
  {
    assert ledger + [] == ledger;
  }

  // At no moment is more than one lock owned.
  ghost predicate OneAtATime(past: seq<map<string, LockRecord>>, history: seq<map<string, LockRecord>>, owner: string) {
    && past <= history
    && forall i :: |past| <= i < |history| ==> AtMostOne(OwnedBy(history[i], owner))
  }

  lemma OneAtATimeStep(
    past: seq<map<string, LockRecord>>, mid: seq<map<string, LockRecord>>, history: seq<map<string, LockRecord>>,
    before: map<string, LockRecord>, after: map<string, LockRecord>, owner: string, key: string, orphan: bool)
    requires OneAtATime(past, mid, owner) && OwnedBy(before, owner) == {}
    requires LocksGivenBack(before, after, mid, history, owner, key, false, orphan)
    ensures OneAtATime(past, history, owner)
    ensures OwnedBy(after, owner) == if orphan then {key} else {}
  {
    forall i | |past| <= i < |history| ensures AtMostOne(OwnedBy(history[i], owner)) {
      if i < |mid| {
        assert history[i] == mid[i];
      }
    }
  }

  // What holds of the lock store before turn i, in terms of how it was before the
  // first turn.
  ghost predicate BeforeTurn(
    env: Env, parts: seq<PartitionStats>, i: nat,
    locks: map<string, LockRecord>, past: seq<map<string, LockRecord>>, history: seq<map<string, LockRecord>>,
    refusesDeletes: bool)
    requires i <= |parts|
  {
    && Untaken(env, locks, parts, i)
    && (!refusesDeletes ==> OwnedBy(locks, env.owner) == {} && OneAtATime(past, history, env.owner))
  }

  ghost predicate AfterStop(
    env: Env, stats: PartitionStats, turn: Turn,
    locks: map<string, LockRecord>, past: seq<map<string, LockRecord>>, history: seq<map<string, LockRecord>>,
    refusesDeletes: bool)
  {
    !refusesDeletes ==>
      && OwnedBy(locks, env.owner) == (if turn.LeavesOrphan() then {LockKey(env.config, stats)} else {})
      && OneAtATime(past, history, env.owner)
  }

  lemma TurnCarries(
    env: Env, parts: seq<PartitionStats>, i: nat, turn: Turn,
    locks: map<string, LockRecord>, locks': map<string, LockRecord>, past: seq<map<string, LockRecord>>,
    history: seq<map<string, LockRecord>>, history': seq<map<string, LockRecord>>, refusesDeletes: bool)
    requires i < |parts| && DistinctKeys(parts)
    requires BeforeTurn(env, parts, i, locks, past, history, refusesDeletes)
    requires LocksGivenBack(locks, locks', history, history', env.owner, LockKey(env.config, parts[i]),
                            refusesDeletes, turn.LeavesOrphan())
    ensures AfterStop(env, parts[i], turn, locks', past, history', refusesDeletes)
    ensures !turn.Stops() ==> BeforeTurn(env, parts, i + 1, locks', past, history', refusesDeletes)
  {
    TurnLeavesRest(env, locks, locks', parts, i);
    if !refusesDeletes {
      OneAtATimeStep(past, history, history', locks, locks', env.owner, LockKey(env.config, parts[i]),
                     turn.LeavesOrphan());
    }
  }

  // What others do to the locks: anything, but to this worker's.
  function Mixed(mine: map<string, LockRecord>, others: map<string, LockRecord>, owner: string): map<string, LockRecord> {
    others + map k | k in OwnedBy(mine, owner) :: mine[k]
  }

  lemma MixedKeepsOwn(mine: map<string, LockRecord>, others: map<string, LockRecord>, owner: string)
    requires OwnedBy(others, owner) == {}
    ensures OwnedBy(Mixed(mine, others, owner), owner) == OwnedBy(mine, owner)
    ensures forall k :: k !in OwnedBy(mine, owner) ==> Get(Mixed(mine, others, owner), k) == Get(others, k)
  {
    forall k ensures k in OwnedBy(Mixed(mine, others, owner), owner) <==> k in OwnedBy(mine, owner) {
      if k !in OwnedBy(mine, owner) && k in others {
        assert k !in OwnedBy(others, owner);
      }
    }
  }

  lemma OthersCarry(
    env: Env, parts: seq<PartitionStats>, i: nat, p: PartitionKey,
    locks: map<string, LockRecord>, past: seq<map<string, LockRecord>>, history: seq<map<string, LockRecord>>,
    refusesDeletes: bool)
    requires i <= |parts| && OwnerIsUnique(env)
    requires BeforeTurn(env, parts, i, locks, past, history, refusesDeletes)
    ensures var mixed := Mixed(locks, env.each(p).locks, env.owner);
      && BeforeTurn(env, parts, i, mixed, past, history + [mixed], refusesDeletes)
      && forall j :: i <= j < |parts| ==>
           Get(mixed, LockKey(env.config, parts[j])) == Get(env.each(p).locks, LockKey(env.config, parts[j]))
  {
    MixedKeepsOwn(locks, env.each(p).locks, env.owner);
    if !refusesDeletes {
      OneMoreState(past, history, Mixed(locks, env.each(p).locks, env.owner), env.owner);
    }
  }

  lemma OneMoreState(
    past: seq<map<string, LockRecord>>, history: seq<map<string, LockRecord>>, locks: map<string, LockRecord>, owner: string)
    requires OneAtATime(past, history, owner) && OwnedBy(locks, owner) == {}
    ensures OneAtATime(past, history + [locks], owner)
  {
  }

  // Between two turns the stores change hands.
  method OthersAct(store: LockStore, table: DeltaTable, locks: map<string, LockRecord>, seen: Snapshot)
    requires store.Valid() && table.Valid()
    modifies store`locks, store`history, table
    ensures store.Valid() && table.Valid()
    ensures store.locks == locks && store.history == old(store.history) + [locks]
    ensures table.log == old(table.log) + [seen]
  {
    store.locks := locks;
    store.history := store.history + [locks];
    table.log := table.log + [seen];
  }

  // One iteration of the loop over the eligible partitions, and before it what
  // others have done since the last one.
  method TakeTurn(
    manager: LockManager, table: DeltaTable, metrics: CompactionRunMetrics, eligible: seq<PartitionStats>, i: nat,
    ghost env: Env, run: PartitionRun, config: Config, ghost past: seq<map<string, LockRecord>>)
    returns (turn: Turn)
    requires manager.store.Valid() && table.Valid() && i < |eligible|
    requires manager.basePath == config.lockBasePath && manager.timeout == config.lockTimeout
    requires env.config == config && env.owner == manager.owner && run == env.each(eligible[i].key)
    requires DistinctKeys(eligible) && OwnerIsUnique(env)
    requires OptimizeKeepsRows(run.spark.optimize, LiveRows(run.table, eligible[i].key))
    requires BeforeTurn(env, eligible, i, manager.store.locks, past, manager.store.history, manager.store.refusesDeletes)
    modifies manager.store`locks, manager.store`history, table, metrics
    ensures manager.store.Valid() && table.Valid()
    ensures turn == TurnOf(env, eligible[i])
    ensures metrics.View() == AfterTurn(old(metrics.View()), eligible[i], turn)
    ensures table.log == old(table.log) + TurnLog(env, Entry(eligible[i], turn))
    ensures AfterStop(env, eligible[i], turn, manager.store.locks, past, manager.store.history,
                      manager.store.refusesDeletes)
    ensures !turn.Stops() ==>
              BeforeTurn(env, eligible, i + 1, manager.store.locks, past, manager.store.history,
                         manager.store.refusesDeletes)
  {
    ghost var log := table.log;
    OthersCarry(env, eligible, i, eligible[i].key, manager.store.locks, past, manager.store.history,
                manager.store.refusesDeletes);
    OthersAct(manager.store, table, Mixed(manager.store.locks, run.locks, manager.owner), run.table);
    ghost var locks, history := manager.store.locks, manager.store.history;
    turn := AttemptPartition(manager, table, metrics, config, eligible[i], run);
    JoinedLog(log, [run.table], Published(turn, config, eligible[i], run.spark, run.table));
    TurnCarries(env, eligible, i, turn, locks, manager.store.locks, past,
                history, manager.store.history, manager.store.refusesDeletes);
  }

  lemma JoinedLog(a: seq<Snapshot>, b: seq<Snapshot>, c: seq<Snapshot>)
    ensures (a + b) + c == a + (b + c)
  {
  }

  // All turns. The counters and the table tell what happened turn by turn, and
  // every lock taken is given back, one before the next is taken.
  method AttemptPartitions(
    manager: LockManager, table: DeltaTable, metrics: CompactionRunMetrics, eligible: seq<PartitionStats>,
    config: Config, each: PartitionKey -> PartitionRun, ghost env: Env)
    returns (stop: Option<Exn>)
    requires manager.store.Valid() && table.Valid()
    requires manager.basePath == config.lockBasePath && manager.timeout == config.lockTimeout
    requires env == Env(config, manager.owner, each)
    requires DistinctKeys(eligible)
    requires OptimizeAssumption(env) && OwnerIsUnique(env)
    requires OwnedBy(manager.store.locks, manager.owner) == {}
    modifies manager.store`locks, manager.store`history, table, metrics
    ensures manager.store.Valid() && table.Valid()
    ensures var ledger := LedgerOf(env, eligible);
      && stop == StopOf(ledger)
      && metrics.View() == Tally(old(metrics.View()), ledger)
      && table.log == old(table.log) + LogOf(env, ledger)
      && (!manager.store.refusesDeletes ==>
            && OwnedBy(manager.store.locks, manager.owner) == Orphan(config, ledger)
            && OneAtATime(old(manager.store.history), manager.store.history, manager.owner))
  {
    var store := manager.store;
    ghost var past, start := store.history, metrics.View();
    ghost var ledger: seq<Entry>, log: seq<Snapshot> := [], [];
    for i := 0 to |eligible|
      invariant store.Valid() && table.Valid()
      invariant BeforeTurn(env, eligible, i, store.locks, past, store.history, store.refusesDeletes)
      invariant Told(env, eligible, i, ledger, start, metrics.View(), log)
      invariant table.log == old(table.log) + log
    {
      ghost var before := metrics.View();
      var turn := TakeTurn(manager, table, metrics, eligible, i, env, each(eligible[i].key), config, past);
      ghost var e := Entry(eligible[i], turn);
      ToldStep(env, eligible, i, ledger, turn, start, before, metrics.View(), log);
      JoinedLog(old(table.log), log, TurnLog(env, e));
      ledger, log := ledger + [e], log + TurnLog(env, e);
      if turn.Stops() {
        return Some(turn.StopExn());
      }
    }
    ToldLast(env, eligible, ledger, start, metrics.View(), log);
    stop := None;
  }
}
