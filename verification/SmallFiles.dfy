// Compacting small files plans fewer of them: for every size of a partition, and
// exactly for which settings.

module SmallFiles {
  import opened Prelude
  import opened PartitionKeys
  import opened FileScanner
  import opened PartitionSelection
  import opened TargetSizing

  // Every file is below the small-file threshold, and the target is at least k
  // thresholds.
  predicate AllSmall(stats: PartitionStats, small: int, target: int, k: nat) {
    && stats.files != [] && k >= 1 && target >= k * small
    && forall f :: f in stats.files ==> IsSmallFile(f.size, small)
  }

  lemma {:induction false} SmallFilesTotal(files: seq<FileInfo>, small: int)
    requires forall f :: f in files ==> IsSmallFile(f.size, small)
    ensures SumSizes(files) <= |files| * (small - 1)
  {
    if files != [] {
      var n := |files| - 1;
      SmallFilesTotal(files[..n], small);
      assert files[n] in files;
      OneMore(n, small - 1);
    }
  }

  lemma OneMore(n: nat, x: int)
    ensures (n + 1) * x == n * x + x
  {
  }

  // What the bounds on sizes, count and target say about each other.
  predicate Sized(count: nat, total: nat, small: int, target: int, k: nat) {
    count >= 1 && k >= 1 && small >= 1 && target >= k * small && total <= count * (small - 1)
  }

  lemma SmallFilesSized(stats: PartitionStats, small: int, target: int, k: nat)
    requires AllSmall(stats, small, target, k)
    ensures Sized(stats.FileCount(), stats.TotalBytes(), small, target, k) && target >= 1
  {
    SmallFilesTotal(stats.files, small);
    assert stats.files[0] in stats.files;
    assert (k - 1) * small >= 0;
    assert k * small == (k - 1) * small + small;
  }

  // ---------- Below 2^52 planned files ----------

  // The estimate may fall short of the ceiling, but never exceeds it.
  lemma SmallPlanAtMostCeiling(total: nat, target: nat)
    requires 0 < total < P52 * target
    ensures EstimateOutputFileCount(total, target).Some?
    ensures EstimateOutputFileCount(total, target).value <= ExactCeil(total, target)
  {
    var q, r, w := QuotientParts(total, target);
    CeilFromParts(total, target, q, r);
    ExactCeilBounds(total, target);
  }

  lemma CeilingAtMost(count: nat, total: nat, small: int, target: int, k: nat)
    requires Sized(count, total, small, target, k) && total > 0 && target >= 1
    ensures ExactCeil(total, target) <= ExactCeil(count, k)
  {
    var m := ExactCeil(count, k);
    ExactCeilBounds(count, k);
    ExactCeilBounds(total, target);
    ChainBound(count, small, m, k, target);
    NoMoreThan(ExactCeil(total, target), m, target, total);
  }

  lemma ChainBound(count: nat, small: int, m: nat, k: nat, target: int)
    requires small >= 1 && count <= m * k && target >= k * small
    ensures count * (small - 1) <= m * target
  {
    assert count * (small - 1) <= count * small;
    assert (m * k - count) * small >= 0;
    assert m * k * small == m * (k * small);
    assert m * (target - k * small) >= 0;
  }

  lemma NoMoreThan(n: nat, m: nat, target: int, total: nat)
    requires target > 0 && (n - 1) * target < total <= m * target
    ensures n <= m
  {
    var d := n - 1 - m;
    assert (n - 1) * target == d * target + m * target;
    assert d >= 0 ==> d * target >= 0;
  }

  lemma FewerThanCount(k: nat, count: nat)
    requires k >= 2 && count >= 2
    ensures ExactCeil(count, k) < count
  {
    var m := ExactCeil(count, k);
    ExactCeilBounds(count, k);
    if m >= 1 {
      Grows(2, k, m - 1);
    }
  }

  // ---------- From 2^52 planned files on ----------

  // The plan is a whole number m of units u, and nearest to the quotient.
  predicate Nearest(total: nat, target: nat, m: nat, u: nat) {
    && u >= 1 && (u == 1 || u % 2 == 0)
    && 2 * (m * u * target) <= 2 * total + target * u
    && P52 * (target * u) <= total
  }

  lemma LargePlanNearest(total: nat, target: nat) returns (m: nat, u: nat)
    requires target > 0 && total >= P52 * target
    ensures Nearest(total, target, m, u)
    ensures total > 0 && EstimateOutputFileCount(total, target) == Some(m * u)
  {
    LargePlan(total, target);
    TrueDivInUnits(total, target);
    u := Unit(total, target);
    m := RoundHalfEven(total, target * u);
    RoundHalfEvenError(total, target * u);
    InTargets(RoundHalfEven(total, target * u), u, target);
  }

  lemma InTargets(m: nat, u: nat, target: nat)
    ensures 2 * m * (target * u) == 2 * (m * u * target)
  {
    assert m * (target * u) == m * u * target;
  }

  // Rounding adds at most one part in 2^53.
  lemma NearestError(total: nat, target: nat, m: nat, u: nat)
    requires Nearest(total, target, m, u)
    ensures P53 * (m * u * target) <= (P53 + 1) * total
  {
  }

  lemma StrictlyFewer(count: nat, total: nat, small: int, target: int, k: nat, n: nat)
    requires Sized(count, total, small, target, k) && k >= 2
    requires P53 * (n * target) <= (P53 + 1) * total
    ensures n < count
  {
    TwiceSmall(target, k, small);
    Grows(2 * small, target, count);
    FarBelow(count * small, count, total, count * target);
    Cancels(n, count, target);
  }

  lemma FarBelow(x: int, count: nat, total: nat, y: int)
    requires count >= 1 && total <= x - count && y >= 2 * x && x >= 1
    ensures (P53 + 1) * total < P53 * y
  {
  }

  lemma TwiceSmall(target: int, k: nat, small: int)
    requires target >= k * small && k >= 2 && small >= 1
    ensures target >= 2 * small
  {
    assert (k - 2) * small >= 0;
    assert k * small == (k - 2) * small + 2 * small;
  }

  // If the plan n exceeded c, the rounding would have carried it further than half
  // a unit.
  lemma NearestAtMost(count: nat, total: nat, small: int, target: int, k: nat, c: nat, m: nat, u: nat)
    requires Sized(count, total, small, target, k) && count <= c * k && target > 0
    requires small <= P53 + 2 && Nearest(total, target, m, u)
    ensures m * u <= c
  {
    var n := m * u;
    if n > c {
      Grows(c, n - 1, k);
      ScaledTotal(count, total, small, target, k, n - 1);
      PlanIsShort(n, small, target, total, u);
      PlanIsLong(total, target, m, u, n, small);
      NotBoth(n, small, u);
    }
  }

  lemma NotBoth(n: nat, small: int, u: nat)
    requires u >= 1 && 1 <= small <= P53 + 2 && n >= P52 * u + u
    ensures 2 * n > small * (u - 2) + 2
  {
    if u >= 2 {
      Grows(small, P53 + 2, u - 2);
    }
  }

  lemma Grows(a: int, b: int, x: nat)
    requires a <= b
    ensures a * x <= b * x
  {
    assert (b - a) * x >= 0;
  }

  lemma Cancels(a: int, b: int, x: nat)
    requires a * x < b * x
    ensures a < b
  {
    if b <= a {
      Grows(b, a, x);
    }
  }

  lemma ScaledTotal(count: nat, total: nat, small: int, target: int, k: nat, c: nat)
    requires Sized(count, total, small, target, k) && count <= c * k
    ensures total * small <= c * (small - 1) * target
  {
    Grows(count, c * k, small - 1);
    Grows(total, c * k * (small - 1), small);
    Regroups(c, k, small - 1, small);
    Grows(k * small, target, c * (small - 1));
  }

  lemma Regroups(c: nat, k: nat, t: nat, s: nat)
    ensures c * k * t * s == k * s * (c * t)
  {
    assert c * k * t == k * (c * t);
    assert k * (c * t) * s == k * s * (c * t);
  }

  lemma PlanIsShort(n: nat, small: int, target: int, total: nat, u: nat)
    requires n >= 1 && small >= 1 && target > 0
    requires total * small <= (n - 1) * (small - 1) * target
    requires 2 * (n * target) <= 2 * total + target * u
    ensures 2 * n <= small * (u - 2) + 2
  {
    assert small * (2 * total + target * u - 2 * (n * target)) >= 0;
    assert small * (2 * total + target * u - 2 * (n * target))
        == 2 * (total * small) + (small * u - 2 * (n * small)) * target;
    assert (n - 1) * (small - 1) == n * small - n - small + 1;
    var d := small * u - 2 * n - 2 * small + 2;
    assert (2 * ((n - 1) * (small - 1)) + small * u - 2 * (n * small)) * target == d * target;
    assert d * target >= 0;
    assert small * (u - 2) == small * u - 2 * small;
  }

  lemma PlanIsLong(total: nat, target: nat, m: nat, u: nat, n: nat, small: int)
    requires n == m * u && n >= 1 && u >= 1 && target > 0 && small >= 1
    requires P52 * (target * u) <= total && total * small <= (n - 1) * (small - 1) * target
    ensures n >= P52 * u + u
  {
    OneLess(n, small);
    BelowWhole(total, n, small, (n - 1) * (small - 1), target);
    Unfolded(u, target);
    Cancels(P52 * u, n, target);
    Cancels(P52, m, u);
    Grows(P52 + 1, m, u);
  }

  lemma OneLess(n: nat, s: int)
    requires n >= 1 && s >= 1
    ensures (n - 1) * (s - 1) < n * s
  {
    assert (n - 1) * (s - 1) == n * s - n - s + 1;
  }

  lemma Unfolded(u: nat, target: nat)
    ensures P52 * (target * u) == P52 * u * target
  {
    assert target * u == u * target;
  }

  lemma BelowWhole(total: nat, n: nat, s: nat, x: nat, target: nat)
    requires total * s <= x * target && x < n * s && target > 0
    ensures total < n * target
  {
    Grows(x + 1, n * s, target);
    assert n * s * target == n * target * s;
    Cancels(total, n * target, s);
  }

  // ---------- The results ----------

  // Strictly fewer files from two on, whatever the setting and the partition's
  // size; and, with a threshold of at most 2^53 + 2 bytes, at most one file for
  // every k input files.
  lemma SmallFilesPlanFewer(stats: PartitionStats, small: int, target: int, k: nat)
    requires AllSmall(stats, small, target, k)
    ensures EstimateOutputFileCount(stats.TotalBytes(), target).Some?
    ensures k >= 2 && stats.FileCount() >= 2
        ==> EstimateOutputFileCount(stats.TotalBytes(), target).value < stats.FileCount()
    ensures small <= P53 + 2
        ==> EstimateOutputFileCount(stats.TotalBytes(), target).value <= ExactCeil(stats.FileCount(), k)
  {
    var count, total := stats.FileCount(), stats.TotalBytes();
    SmallFilesSized(stats, small, target, k);
    ExactCeilBounds(count, k);
    if k >= 2 && count >= 2 {
      FewerThanCount(k, count);
    }
    if 0 < total < P52 * target {
      SmallPlanAtMostCeiling(total, target);
      CeilingAtMost(count, total, small, target, k);
    } else if total > 0 {
      LargePlanFewer(count, total, small, target, k);
    }
  }

  lemma LargePlanFewer(count: nat, total: nat, small: int, target: int, k: nat)
    requires Sized(count, total, small, target, k) && target > 0 && total >= P52 * target
    ensures EstimateOutputFileCount(total, target).Some?
    ensures k >= 2 ==> EstimateOutputFileCount(total, target).value < count
    ensures small <= P53 + 2 ==> EstimateOutputFileCount(total, target).value <= ExactCeil(count, k)
  {
    var m, u := LargePlanNearest(total, target);
    ExactCeilBounds(count, k);
    if k >= 2 {
      NearestError(total, target, m, u);
      StrictlyFewer(count, total, small, target, k, m * u);
    }
    if small <= P53 + 2 {
      NearestAtMost(count, total, small, target, k, ExactCeil(count, k), m, u);
    }
  }

  // ---------- The bound on the setting is the right one ----------

  function Pow2(j: nat): (p: nat)
    ensures p >= 1
  {
    if j == 0 then 1 else 2 * Pow2(j - 1)
  }

  lemma {:induction false} UnitIs(a: nat, b: nat, j: nat)
    requires a > 0 && b > 0 && P52 * (b * Pow2(j)) <= a < P53 * (b * Pow2(j))
    ensures Unit(a, b) == Pow2(j)
    decreases j
  {
    if j > 0 {
      MoveTwo(b, Pow2(j - 1));
      Grows(1, Pow2(j - 1), b);
      UnitIs(a, 2 * b, j - 1);
    }
  }

  const P55: nat := 0x80_0000_0000_0000

  // As many input files for each planned one that their number is not a double,
  // but the next number is.
  const MANY: nat := (P52 + 1) * P55 - 1

  lemma P55IsPower()
    ensures P55 == Pow2(55)
  {
    assert Pow2(5) == 32;
    Pow2Times(5, 32, 5, 32);
    Pow2Times(10, 1024, 1, 2);
    Pow2Times(11, 0x800, 11, 0x800);
    Pow2Times(22, 0x40_0000, 22, 0x40_0000);
    Pow2Times(44, 0x1000_0000_0000, 11, 0x800);
  }

  lemma Pow2Times(i: nat, x: nat, j: nat, y: nat)
    requires Pow2(i) == x && Pow2(j) == y
    ensures Pow2(i + j) == x * y
  {
    Pow2Adds(i, j);
  }

  lemma {:induction false} Pow2Adds(i: nat, j: nat)
    ensures Pow2(i + j) == Pow2(i) * Pow2(j)
  {
    if i > 0 {
      Pow2Adds(i - 1, j);
      assert 2 * Pow2(i - 1) * Pow2(j) == 2 * (Pow2(i - 1) * Pow2(j));
    }
  }

  // k * MANY files of small - 1 bytes and a target of k * small: in units of 2^55
  // the quotient is just over 2^52 and a half, and rounded up.
  lemma ManyFilesRoundUp(small: int, k: nat, total: nat, target: nat)
    requires small >= P53 + 3 && k >= 1
    requires total == MANY * k * (small - 1) && target == k * small
    ensures EstimateOutputFileCount(total, target) == Some(MANY + 1)
  {
    var rest := (P55 - 1) * small - MANY;
    ManyInUnits(small, k, total, target, rest);
    P55IsPower();
    Grows(1, k, small);
    Positive(k, rest);
    Positive(k, small * P55 - rest);
    Positive(k, 2 * rest - small * P55);
    assert k * (small * P55 - rest) == target * P55 - k * rest;
    assert k * (2 * rest - small * P55) == 2 * (k * rest) - target * P55;
    UnitIs(total, target, 55);
    LargePlan(total, target);
    DivModUnique(total, target * P55, P52, k * rest);
  }

  lemma Positive(k: nat, x: int)
    requires k >= 1 && x > 0
    ensures k * x > 0
  {
  }

  lemma ManyInUnits(small: int, k: nat, total: nat, target: nat, rest: int)
    requires small >= P53 + 3 && k >= 1
    requires total == MANY * k * (small - 1) && target == k * small && rest == (P55 - 1) * small - MANY
    ensures total == P52 * (target * P55) + k * rest
    ensures 0 < rest < small * P55 < 2 * rest
  {
    assert MANY * k * (small - 1) == k * (MANY * (small - 1));
    assert k * small * P55 == k * (small * P55);
    assert P52 * (k * (small * P55)) == k * (P52 * (small * P55));
    assert MANY * (small - 1) == P52 * (small * P55) + rest;
    assert k * (P52 * (small * P55) + rest) == k * (P52 * (small * P55)) + k * rest;
  }

  // The bound of one planned file for k input files, for all partitions.
  ghost predicate BoundHolds(stats: PartitionStats, small: int, target: int, k: nat) {
    AllSmall(stats, small, target, k) ==>
      match EstimateOutputFileCount(stats.TotalBytes(), target)
      case None => false
      case Some(n) => n <= ExactCeil(stats.FileCount(), k)
  }

  function Copies(f: FileInfo, n: nat): (files: seq<FileInfo>)
    ensures |files| == n && forall g :: g in files ==> g == f
  {
    seq(n, i => f)
  }

  lemma {:induction false} CopiesTotal(f: FileInfo, n: nat)
    ensures SumSizes(Copies(f, n)) == n * f.size
  {
    if n > 0 {
      CopiesTotal(f, n - 1);
      assert Copies(f, n)[..n - 1] == Copies(f, n - 1);
    }
  }

  lemma BoundFails(small: int, k: nat) returns (stats: PartitionStats)
    requires small >= P53 + 3 && k >= 1
    ensures !BoundHolds(stats, small, k * small, k)
  {
    var f := FileInfo("", small - 1, 0);
    stats := PartitionStats(PartitionKey("", 0), Copies(f, MANY * k));
    CopiesTotal(f, MANY * k);
    Positive(k, MANY);
    ManyFilesRoundUp(small, k, stats.TotalBytes(), k * small);
    DivModUnique(MANY * k + k - 1, k, MANY, k - 1);
  }

  // For every ratio k, a threshold keeps the bound for all partitions and targets
  // if and only if it is at most 2^53 + 2 bytes.
  lemma SmallFilesBoundExactly(small: int, k: nat)
    requires k >= 1
    ensures (forall stats, target :: BoundHolds(stats, small, target, k)) <==> small <= P53 + 2
  {
    if small <= P53 + 2 {
      forall stats, target ensures BoundHolds(stats, small, target, k) {
        if AllSmall(stats, small, target, k) {
          SmallFilesPlanFewer(stats, small, target, k);
        }
      }
    } else {
      var stats := BoundFails(small, k);
    }
  }

  // With the default setting (target four thresholds, triggers of at least one
  // file) every partition that is selected and all small gets fewer files.
  lemma EligibleSmallPartitionShrinks(stats: PartitionStats, policy: Policy, target: int, now: int)
    requires EvaluatePartition(stats, policy, now).eligible
    requires policy.smallFileCountThreshold >= 1 && policy.partitionFileCountThreshold >= 1
    requires forall f :: f in stats.files ==> IsSmallFile(f.size, policy.smallFileThresholdBytes)
    requires target >= 4 * policy.smallFileThresholdBytes
    ensures EstimateOutputFileCount(stats.TotalBytes(), target).Some?
    ensures EstimateOutputFileCount(stats.TotalBytes(), target).value < stats.FileCount()
  {
    SmallFilesPlanFewer(stats, policy.smallFileThresholdBytes, target, 4);
  }
}
