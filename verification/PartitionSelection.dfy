// Which scanned partitions are worth compacting now.

module PartitionSelection {
  import opened Prelude
  import opened PartitionKeys
  import opened FileScanner

  datatype SkipReason = TooRecent | Healthy | Empty

  datatype Policy = Policy(
    smallFileThresholdBytes: int,
    smallFileCountThreshold: int,
    partitionFileCountThreshold: int,
    partitionAgeSkipMinutes: int)

  datatype SelectionResult = SelectionResult(
    stats: PartitionStats, eligible: bool, skipReason: Option<SkipReason>, smallFileCount: nat)

  predicate IsSmallFile(size: int, threshold: int) {
    size < threshold
  }

  function SmallFileCount(files: seq<FileInfo>, threshold: int): (n: nat)
    ensures n <= |files|
  {
    if files == [] then 0
    else
      var n := |files| - 1;
      SmallFileCount(files[..n], threshold) + if IsSmallFile(files[n].size, threshold) then 1 else 0
  }

  lemma {:induction false} SmallFileCountIs(files: seq<FileInfo>, threshold: int)
    ensures SmallFileCount(files, threshold) == |set i | 0 <= i < |files| && files[i].size < threshold|
  {
    if files != [] {
      var n := |files| - 1;
      SmallFileCountIs(files[..n], threshold);
      assert (set i | 0 <= i < |files| && files[i].size < threshold)
          == (set i | 0 <= i < n && files[..n][i].size < threshold) + if files[n].size < threshold then {n} else {};
    }
  }

  function LatestModified(files: seq<FileInfo>): (t: int)
    requires files != []
    ensures exists f :: f in files && f.modified == t
    ensures forall f :: f in files ==> f.modified <= t
  {
    if |files| == 1 then files[0].modified
    else
      var rest := LatestModified(files[1..]);
      assert forall f :: f in files ==> f == files[0] || f in files[1..];
      if files[0].modified < rest then rest else files[0].modified
  }

  predicate PartitionIsTooRecent(stats: PartitionStats, skipMinutes: int, now: int) {
    stats.files == [] || LatestModified(stats.files) > now - skipMinutes * MINUTE
  }

  predicate IsPartitionEligible(stats: PartitionStats, policy: Policy) {
    || SmallFileCount(stats.files, policy.smallFileThresholdBytes) > policy.smallFileCountThreshold
    || stats.FileCount() > policy.partitionFileCountThreshold
  }

  function EvaluatePartition(stats: PartitionStats, policy: Policy, now: int): (r: SelectionResult)
    ensures r.stats == stats
    ensures r.eligible <==> r.skipReason.None?
  {
    if stats.FileCount() == 0 then
      SelectionResult(stats, false, Some(Empty), 0)
    else
      var small := SmallFileCount(stats.files, policy.smallFileThresholdBytes);
      if PartitionIsTooRecent(stats, policy.partitionAgeSkipMinutes, now) then
        SelectionResult(stats, false, Some(TooRecent), small)
      else
        var eligible := IsPartitionEligible(stats, policy);
        SelectionResult(stats, eligible, if eligible then None else Some(Healthy), small)
  }

  // What makes a partition worth compacting at a time: files, none of them younger
  // than the guard, and either many small ones or many.
  ghost predicate WorthCompacting(stats: PartitionStats, policy: Policy, now: int) {
    && stats.files != []
    && (forall f :: f in stats.files ==> f.modified + policy.partitionAgeSkipMinutes * MINUTE <= now)
    && (|set i | 0 <= i < |stats.files| && stats.files[i].size < policy.smallFileThresholdBytes|
          > policy.smallFileCountThreshold
        || |stats.files| > policy.partitionFileCountThreshold)
  }

  lemma EligibleMeaning(stats: PartitionStats, policy: Policy, now: int)
    ensures EvaluatePartition(stats, policy, now).eligible <==> WorthCompacting(stats, policy, now)
  {
    SmallFileCountIs(stats.files, policy.smallFileThresholdBytes);
    SkipReasonMeaning(stats, policy, now);
  }

  // What each verdict means. A partition is too recent exactly when one of its
  // files is younger than the guard.
  lemma SkipReasonMeaning(stats: PartitionStats, policy: Policy, now: int)
    ensures var r := EvaluatePartition(stats, policy, now).skipReason;
      && (r == Some(Empty) <==> stats.files == [])
      && (r == Some(TooRecent) <==>
            exists f :: f in stats.files && now < f.modified + policy.partitionAgeSkipMinutes * MINUTE)
      && (r.None? ==> IsPartitionEligible(stats, policy))
      && (r == Some(Healthy) ==> !IsPartitionEligible(stats, policy))
    ensures EvaluatePartition(stats, policy, now).smallFileCount
         == SmallFileCount(stats.files, policy.smallFileThresholdBytes)
  {
  }

  // The clock as read when each partition is judged; the readings may differ.
  type Clock = PartitionKey -> int

  // The eligible and the skipped, each in the order of the input.
  function Eligible(parts: seq<PartitionStats>, policy: Policy, clock: Clock): seq<PartitionStats> {
    if parts == [] then []
    else
      var n := |parts| - 1;
      Eligible(parts[..n], policy, clock)
      + if EvaluatePartition(parts[n], policy, clock(parts[n].key)).eligible then [parts[n]] else []
  }

  function Skipped(parts: seq<PartitionStats>, policy: Policy, clock: Clock): seq<SelectionResult> {
    if parts == [] then []
    else
      var n := |parts| - 1;
      var r := EvaluatePartition(parts[n], policy, clock(parts[n].key));
      Skipped(parts[..n], policy, clock) + if r.eligible then [] else [r]
  }

  lemma SelectionStep(parts: seq<PartitionStats>, policy: Policy, clock: Clock, i: nat)
    requires i < |parts|
    ensures var r := EvaluatePartition(parts[i], policy, clock(parts[i].key));
      var e, s := Eligible(parts[..i], policy, clock), Skipped(parts[..i], policy, clock);
      && Eligible(parts[..i + 1], policy, clock) == (if r.eligible then e + [parts[i]] else e)
      && Skipped(parts[..i + 1], policy, clock) == (if r.eligible then s else s + [r])
  {
    assert parts[..i + 1][..i] == parts[..i];
    NothingAdded(Eligible(parts[..i], policy, clock));
    NothingAdded(Skipped(parts[..i], policy, clock));
  }

  lemma NothingAdded<T>(s: seq<T>)
    ensures s + [] == s
  {
  }

  method SelectPartitions(partitions: seq<PartitionStats>, policy: Policy, clock: Clock)
    returns (eligible: seq<PartitionStats>, skipped: seq<SelectionResult>)
    ensures eligible == Eligible(partitions, policy, clock)
    ensures skipped == Skipped(partitions, policy, clock)
    ensures |eligible| + |skipped| == |partitions|
  {
    eligible, skipped := [], [];
    for i := 0 to |partitions|
      invariant eligible == Eligible(partitions[..i], policy, clock)
      invariant skipped == Skipped(partitions[..i], policy, clock)
      invariant |eligible| + |skipped| == i
    {
      SelectionStep(partitions, policy, clock, i);
      var result := EvaluatePartition(partitions[i], policy, clock(partitions[i].key));
      if result.eligible {
        eligible := eligible + [partitions[i]];
      } else {
        skipped := skipped + [result];
      }
    }
    assert partitions[..|partitions|] == partitions;
  }

  // ---------- Selection is an order-preserving split ----------

  // a and b merge to s: each element of s is, from the last to the first, the
  // last remaining one of a or of b.
  ghost predicate MergesTo(a: seq<PartitionStats>, b: seq<PartitionStats>, s: seq<PartitionStats>) {
    if s == [] then a == [] && b == []
    else
      var n := |s| - 1;
      || (a != [] && a[|a| - 1] == s[n] && MergesTo(a[..|a| - 1], b, s[..n]))
      || (b != [] && b[|b| - 1] == s[n] && MergesTo(a, b[..|b| - 1], s[..n]))
  }

  function StatsOf(results: seq<SelectionResult>): seq<PartitionStats> {
    if results == [] then [] else StatsOf(results[..|results| - 1]) + [results[|results| - 1].stats]
  }

  lemma MergesToExtend(a: seq<PartitionStats>, b: seq<PartitionStats>, s: seq<PartitionStats>, x: PartitionStats)
    requires MergesTo(a, b, s)
    ensures MergesTo(a + [x], b, s + [x]) && MergesTo(a, b + [x], s + [x])
  {
    assert (s + [x])[..|s|] == s && (a + [x])[..|a|] == a && (b + [x])[..|b|] == b;
  }

  lemma StatsOfExtend(results: seq<SelectionResult>, r: SelectionResult)
    ensures StatsOf(results + [r]) == StatsOf(results) + [r.stats]
  {
    assert (results + [r])[..|results|] == results;
  }

  lemma {:induction false} SelectionSplits(parts: seq<PartitionStats>, policy: Policy, clock: Clock)
    ensures MergesTo(Eligible(parts, policy, clock), StatsOf(Skipped(parts, policy, clock)), parts)
  {
    if parts != [] {
      var n := |parts| - 1;
      SelectionSplits(parts[..n], policy, clock);
      var r := EvaluatePartition(parts[n], policy, clock(parts[n].key));
      MergesToExtend(Eligible(parts[..n], policy, clock), StatsOf(Skipped(parts[..n], policy, clock)), parts[..n], parts[n]);
      assert parts[..n] + [parts[n]] == parts;
      StatsOfExtend(Skipped(parts[..n], policy, clock), r);
      assert Eligible(parts[..n], policy, clock) + [] == Eligible(parts[..n], policy, clock);
      assert Skipped(parts[..n], policy, clock) + [] == Skipped(parts[..n], policy, clock);
    }
  }

  // Whatever is skipped is skipped with the reason its evaluation gives.
  lemma {:induction false} SkippedIn(parts: seq<PartitionStats>, policy: Policy, clock: Clock, r: SelectionResult)
    ensures r in Skipped(parts, policy, clock)
       <==> r.stats in parts && r == EvaluatePartition(r.stats, policy, clock(r.stats.key)) && r.skipReason.Some?
  {
    if parts != [] {
      var n := |parts| - 1;
      SkippedIn(parts[..n], policy, clock, r);
      var last := EvaluatePartition(parts[n], policy, clock(parts[n].key));
      LastApart(parts);
      assert r in Skipped(parts, policy, clock)
        <==> r in Skipped(parts[..n], policy, clock) || (!last.eligible && r == last);
    }
  }

  lemma {:induction false} EligibleIn(parts: seq<PartitionStats>, policy: Policy, clock: Clock, s: PartitionStats)
    ensures s in Eligible(parts, policy, clock) <==> s in parts && EvaluatePartition(s, policy, clock(s.key)).eligible
  {
    if parts != [] {
      var n := |parts| - 1;
      EligibleIn(parts[..n], policy, clock, s);
      assert s in parts <==> s in parts[..n] || s == parts[n];
    }
  }

  // With the files fixed, the verdict changes at most once as time passes: it
  // is TooRecent up to an instant and final from then on.
  lemma VerdictSettlesOnce(stats: PartitionStats, policy: Policy, t0: int, t1: int)
    requires t0 <= t1
    ensures EvaluatePartition(stats, policy, t1) == EvaluatePartition(stats, policy, t0)
         || EvaluatePartition(stats, policy, t0).skipReason == Some(TooRecent)
    ensures EvaluatePartition(stats, policy, t1).skipReason == Some(TooRecent)
        ==> EvaluatePartition(stats, policy, t0).skipReason == Some(TooRecent)
  {
  }
}
