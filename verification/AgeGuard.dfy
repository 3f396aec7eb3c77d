// What the age guard buys over many cycles: the daemon does not take up a
// partition twice within the guard's length.
//
// The store only ever gains objects: nothing in the program deletes one.

module AgeGuard {
  import opened Prelude
  import opened PartitionKeys
  import opened FileScanner
  import opened PartitionSelection
  import opened Configuration
  import opened CompactionCycle
  import opened CompactionDaemon

  // The files one compaction left in the store.
  datatype Rewritten = Rewritten(key: PartitionKey, files: seq<FileInfo>)

  datatype Event =
    | Arrives(file: FileInfo)                          // from the streaming job, or anyone
    | Cycle(env: Env, run: CycleRun, rewrites: seq<Rewritten>)

  function AddAll(objects: seq<FileInfo>, rewrites: seq<Rewritten>): seq<FileInfo>
    decreases rewrites
  {
    if rewrites == [] then objects else AddAll(objects + rewrites[0].files, rewrites[1..])
  }

  function Objects(start: seq<FileInfo>, history: seq<Event>): seq<FileInfo> {
    if history == [] then start
    else
      var before := Objects(start, history[..|history| - 1]);
      match history[|history| - 1]
      case Arrives(file) => before + [file]
      case Cycle(_, _, rewrites) => AddAll(before, rewrites)
  }

  // The cycle took up the partition, and the new files are placed in it and were
  // written at or after the clock reading that selected it.
  ghost predicate RewriteAllowed(env: Env, run: CycleRun, r: Rewritten) {
    && (exists s :: s in Turns(env, run, None) && s.key == r.key)
    && forall f :: f in r.files ==> Placement(env.config.tablePrefix, f) == Some(r.key) && f.modified >= run.clock(r.key)
  }

  // An untargeted cycle lists the store as it is.
  ghost predicate EventAllowed(prefix: string, policy: Policy, objects: seq<FileInfo>, e: Event) {
    match e
    case Arrives(_) => true
    case Cycle(env, run, rewrites) =>
      && env.config.tablePrefix == prefix && env.config.policy == policy
      && (run.listing.Pages? ==> Flatten(run.listing.pages) == objects)
      && (forall r :: r in rewrites ==> RewriteAllowed(env, run, r))
  }

  ghost predicate IsHistory(prefix: string, policy: Policy, start: seq<FileInfo>, history: seq<Event>) {
    forall i :: 0 <= i < |history| ==> EventAllowed(prefix, policy, Objects(start, history[..i]), history[i])
  }

  // While some file of the partition is younger than the guard, the partition is
  // scanned and found too recent, and no untargeted cycle takes it up.
  lemma YoungFileGuards(env: Env, run: CycleRun, f: FileInfo, k: PartitionKey)
    requires run.listing.Pages? && f in Flatten(run.listing.pages) && Placement(env.config.tablePrefix, f) == Some(k)
    requires run.clock(k) < f.modified + env.config.policy.partitionAgeSkipMinutes * MINUTE
    ensures exists s :: s in Scan(env.config.tablePrefix, Flatten(run.listing.pages)) && s.key == k
                        && EvaluatePartition(s, env.config.policy, run.clock(k)).skipReason == Some(TooRecent)
    ensures forall s :: s in Turns(env, run, None) ==> s.key != k
  {
    var objects, policy := Flatten(run.listing.pages), env.config.policy;
    var stats := ScannedWith(env.config.tablePrefix, objects, f, k);
    SkipReasonMeaning(stats, policy, run.clock(k));
    PlanTells(env.config, objects, run.clock, None);
    assert f in stats.files && !WorthCompacting(stats, policy, run.clock(k));
  }

  // The one scanned partition with a file's key holds the file.
  lemma ScannedWith(prefix: string, objects: seq<FileInfo>, f: FileInfo, k: PartitionKey) returns (stats: PartitionStats)
    requires f in objects && Placement(prefix, f) == Some(k)
    ensures stats in Scan(prefix, objects) && stats.key == k && f in stats.files
    ensures forall s :: s in Scan(prefix, objects) && s.key == k ==> s == stats
  {
    var parts := Scan(prefix, objects);
    ScanIsScan(prefix, objects);
    ScanHolds(prefix, objects, f, k);
    var i :| 0 <= i < |parts| && parts[i].key == k && f in parts[i].files;
    stats := parts[i];
    forall s | s in parts && s.key == k ensures s == stats {
      var j :| 0 <= j < |parts| && parts[j] == s;
      if j != i { KeyOrder(parts[i].key, parts[j].key); }
    }
  }

  lemma {:induction false} AddAllKeeps(objects: seq<FileInfo>, rewrites: seq<Rewritten>, f: FileInfo)
    ensures f in AddAll(objects, rewrites) <==> f in objects || exists r :: r in rewrites && f in r.files
    decreases rewrites
  {
    if rewrites != [] {
      AddAllKeeps(objects + rewrites[0].files, rewrites[1..], f);
      assert forall r :: r in rewrites <==> r == rewrites[0] || r in rewrites[1..];
    }
  }

  lemma {:induction false} ObjectsPersist(start: seq<FileInfo>, history: seq<Event>, i: nat, f: FileInfo)
    requires i <= |history| && f in Objects(start, history[..i])
    ensures f in Objects(start, history)
  {
    if i == |history| {
      assert history[..i] == history;
    } else {
      var n := |history| - 1;
      assert history[..n][..i] == history[..i];
      ObjectsPersist(start, history[..n], i, f);
      if history[n].Cycle? {
        AddAllKeeps(Objects(start, history[..n]), history[n].rewrites, f);
      }
    }
  }

  // Two compactions of one partition, in whatever cycles and whatever arrives
  // in between, write their files at least the guard's length apart.
  lemma CompactionsAreSpaced(
    prefix: string, policy: Policy, start: seq<FileInfo>, history: seq<Event>,
    i: nat, j: nat, first: Rewritten, second: Rewritten, f: FileInfo, g: FileInfo)
    requires IsHistory(prefix, policy, start, history)
    requires i < j < |history| && history[i].Cycle? && history[j].Cycle?
    requires first in history[i].rewrites && second in history[j].rewrites && first.key == second.key
    requires f in first.files && g in second.files
    ensures g.modified >= history[j].run.clock(second.key) >= f.modified + policy.partitionAgeSkipMinutes * MINUTE
  {
    assert EventAllowed(prefix, policy, Objects(start, history[..i]), history[i]);
    assert EventAllowed(prefix, policy, Objects(start, history[..j]), history[j]);
    assert RewriteAllowed(history[i].env, history[i].run, first);
    assert RewriteAllowed(history[j].env, history[j].run, second);
    assert history[..i + 1][..i] == history[..i];
    AddAllKeeps(Objects(start, history[..i]), history[i].rewrites, f);
    assert history[..j][..i + 1] == history[..i + 1];
    ObjectsPersist(start, history[..j], i + 1, f);
    if history[j].run.clock(second.key) < f.modified + policy.partitionAgeSkipMinutes * MINUTE {
      YoungFileGuards(history[j].env, history[j].run, f, first.key);
    }
  }
}
