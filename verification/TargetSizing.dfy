// How many files a rewrite should produce: a ceiling that the program takes of
// a double-precision quotient.

module TargetSizing {
  import opened Prelude

  const P52: nat := 0x10_0000_0000_0000
  const P53: nat := 0x20_0000_0000_0000

  // a / b rounded to the nearest integer, ties to even.
  function RoundHalfEven(a: nat, b: nat): nat
    requires b > 0
  {
    var q, r := a / b, a % b;
    if 2 * r < b || (2 * r == b && q % 2 == 0) then q else q + 1
  }

  // Python's int / int: the binary64 value nearest the exact quotient. The
  // operands are scaled by two until the quotient lies in [2^52, 2^53), rounded
  // there to an integer mantissa, and scaled back.
  function TrueDiv(a: nat, b: nat): real
    requires a > 0 && b > 0
    decreases if a < P52 * b then P52 * b - a else if a >= P53 * b then a - P53 * b + 1 else 0
  {
    if a < P52 * b then TrueDiv(2 * a, b) / 2.0
    else if a >= P53 * b then TrueDiv(a, 2 * b) * 2.0
    else RoundHalfEven(a, b) as real
  }

  function Ceil(x: real): int {
    -((-x).Floor)
  }

  // The integer ceiling of a / b.
  function ExactCeil(a: nat, b: nat): nat
    requires b > 0
  {
    (a + b - 1) / b
  }

  function EstimateOutputFileCount(totalBytes: int, targetFileSizeBytes: int): (r: Option<nat>)
    ensures r.None? <==> totalBytes > 0 && targetFileSizeBytes <= 0
    ensures r.Some? ==> r.value >= 1
  {
    if totalBytes <= 0 then Some(1)
    else if targetFileSizeBytes <= 0 then None
    else
      var n := Ceil(TrueDiv(totalBytes, targetFileSizeBytes));
      Some(if n < 1 then 1 else n)
  }

  // ---------- The quotient is off by at most one part in 2^53 ----------

  lemma RoundHalfEvenError(a: nat, b: nat)
    requires b > 0
    ensures 2 * a - b <= 2 * RoundHalfEven(a, b) * b <= 2 * a + b
  {
    assert a == a / b * b + a % b;
    assert (a / b + 1) * b == a / b * b + b;
  }

  // x is within one part in 2^53 of a.
  predicate Near(x: real, a: real) {
    a * (P53 as real - 1.0) <= x * P53 as real <= a * (P53 as real + 1.0)
  }

  // In the following x stands for the exact quotient a / b.
  lemma MantissaNear(a: nat, b: nat, x: real)
    requires b > 0 && x * b as real == a as real
    requires P52 * b <= a
    ensures Near(RoundHalfEven(a, b) as real, x)
  {
    RoundHalfEvenError(a, b);
    WithinHalf(RoundHalfEven(a, b), a, b, x);
    AtLeastQuotient(a, b, x, P52);
  }

  lemma WithinHalf(m: nat, a: nat, b: nat, x: real)
    requires b > 0 && x * b as real == a as real
    requires 2 * a - b <= 2 * m * b <= 2 * a + b
    ensures -1.0 <= 2.0 * (m as real - x) <= 1.0
  {
    var d := m * b - a;
    assert 2 * m * b == 2 * (m * b);
    assert (m * b) as real == m as real * b as real;
    HalfBound(m as real - x, b, d);
  }

  lemma HalfBound(gap: real, b: nat, d: int)
    requires b > 0 && gap * b as real == d as real
    requires -(b as int) <= 2 * d <= b
    ensures -1.0 <= 2.0 * gap <= 1.0
  {
    var e := 2.0 * d as real;
    assert 2.0 * gap * b as real == e;
    CancelsAtMost(2.0 * gap, 1.0, b as real, e, b as real);
    CancelsAtMost(-1.0, 2.0 * gap, b as real, -(b as real), e);
  }

  lemma CancelsAtMost(u: real, v: real, b: real, ub: real, vb: real)
    requires b > 0.0 && u * b == ub && v * b == vb && ub <= vb
    ensures u <= v
  {
    var w := u - v;
    assert w * b == ub - vb;
    Sign(w, b);
  }

  lemma Sign(w: real, b: real)
    requires b > 0.0
    ensures w > 0.0 ==> w * b > 0.0
    ensures w < 0.0 ==> w * b < 0.0
  {
  }

  lemma AtLeastQuotient(a: nat, b: nat, x: real, k: nat)
    requires b > 0 && x * b as real == a as real && k * b <= a
    ensures k as real <= x
  {
    assert (k * b) as real == k as real * b as real;
    CancelsAtMost(k as real, x, b as real, (k * b) as real, a as real);
  }

  lemma ScaleQuotient(x: real, a: nat, b: nat)
    requires x * b as real == a as real
    ensures 2.0 * x * b as real == (2 * a) as real
    ensures x / 2.0 * (2 * b) as real == a as real
  {
    assert 2.0 * x * b as real == 2.0 * (x * b as real);
    assert (2 * b) as real == 2.0 * b as real;
    assert x / 2.0 * (2.0 * b as real) == x * b as real;
  }

  // The double is within a relative error of 2^-53 of the exact quotient.
  lemma {:induction false} TrueDivNear(a: nat, b: nat, x: real)
    requires a > 0 && b > 0 && x * b as real == a as real
    ensures Near(TrueDiv(a, b), x)
    decreases if a < P52 * b then P52 * b - a else if a >= P53 * b then a - P53 * b + 1 else 0
  {
    ScaleQuotient(x, a, b);
    if a < P52 * b {
      TrueDivNear(2 * a, b, 2.0 * x);
    } else if a >= P53 * b {
      TrueDivNear(a, 2 * b, x / 2.0);
    } else {
      MantissaNear(a, b, x);
    }
  }

  lemma DivModUnique(a: nat, b: nat, q: nat, r: nat)
    requires a == q * b + r && r < b
    ensures a / b == q && a % b == r
  {
    var d := a / b - q;
    assert a == a / b * b + a % b;
    assert d * b == r - a % b;
    assert d >= 1 ==> d * b >= b;
    assert d <= -1 ==> d * b + b <= 0;
  }

  lemma {:induction false} TrueDivExact(q: nat, b: nat, a: nat)
    requires 0 < q <= P53 && b > 0 && a == q * b && a > 0
    ensures TrueDiv(a, b) == q as real
    decreases if q < P52 then P52 - q else if q >= P53 then 1 else 0
  {
    if q < P52 {
      BelowProduct(q, P52, b, a);
      TrueDivExact(2 * q, b, 2 * a);
    } else if q == P53 {
      TrueDivExact(P52, 2 * b, a);
    } else {
      BelowProduct(q, P53, b, a);
      AboveProduct(q, P52, b, a);
      DivModUnique(a, b, q, 0);
    }
  }

  lemma BelowProduct(q: nat, k: nat, b: nat, a: nat)
    requires a == q * b && q < k && b > 0
    ensures a < k * b && 2 * a == 2 * q * b
  {
    var d := k - q;
    assert k * b == d * b + q * b;
    assert d * b >= b by { assert (d - 1) * b >= 0; }
    assert 2 * q * b == 2 * (q * b);
  }

  lemma AboveProduct(q: nat, k: nat, b: nat, a: nat)
    requires a == q * b && q >= k
    ensures k * b <= a
  {
    var d := q - k;
    assert q * b == d * b + k * b;
    assert d * b >= 0;
  }

  lemma CeilUnique(x: real, n: int)
    requires (n - 1) as real < x <= n as real
    ensures Ceil(x) == n
  {
  }

  lemma ExactCeilBounds(a: nat, b: nat)
    requires b > 0 && a > 0
    ensures ExactCeil(a, b) >= 1
    ensures (ExactCeil(a, b) - 1) * b < a <= ExactCeil(a, b) * b
  {
    var n := ExactCeil(a, b);
    assert a + b - 1 == n * b + (a + b - 1) % b;
    assert (n - 1) * b == n * b - b;
    assert n == 0 ==> n * b == 0;
  }

  // An error below 1 / b cannot carry the quotient across an integer.
  lemma NearStaysBetween(t: real, x: real, a: nat, b: nat, n: int)
    requires b > 0 && x * b as real == a as real && a < P53
    requires Near(t, x)
    requires (n - 1) * b < a < n * b
    ensures (n - 1) as real < t < n as real
  {
    GapBelowOne(t - x, x, a, b);
    var y, gap, lo, hi := t * b as real, (t - x) * b as real, (n - 1) * b, n * b;
    assert gap == y - x * b as real;
    Between(y, gap, a, lo, hi);
    assert lo as real == (n - 1) as real * b as real;
    assert hi as real == n as real * b as real;
    CancelFactor((n - 1) as real, t, b, lo as real, y);
    CancelFactor(t, n as real, b, y, hi as real);
  }

  lemma Between(y: real, gap: real, a: int, lo: int, hi: int)
    requires y == a as real + gap && -1.0 < gap < 1.0 && lo < a < hi
    ensures lo as real < y < hi as real
  {
  }

  lemma GapBelowOne(gap: real, x: real, a: nat, b: nat)
    requires x * b as real == a as real && a < P53
    requires -x <= gap * P53 as real <= x
    ensures -1.0 < gap * b as real < 1.0
  {
    ScaleBound(gap * P53 as real, x, b);
    var y := gap * b as real;
    assert gap * P53 as real * b as real == y * P53 as real;
    assert -(a as real) <= y * P53 as real <= a as real;
    assert a as real <= P53 as real - 1.0;
  }

  lemma ScaleBound(y: real, x: real, b: nat)
    requires -x <= y <= x
    ensures -(x * b as real) <= y * b as real <= x * b as real
  {
    if b > 0 {
      Sign(x - y, b as real);
      Sign(x + y, b as real);
    }
    assert (x - y) * b as real == x * b as real - y * b as real;
    assert (x + y) * b as real == x * b as real + y * b as real;
  }

  lemma CancelFactor(u: real, v: real, b: nat, ub: real, vb: real)
    requires b > 0 && u * b as real == ub && v * b as real == vb && ub < vb
    ensures u < v
  {
    var w := u - v;
    assert w * b as real == ub - vb;
    Sign(w, b as real);
  }

  // Below 2^53 bytes the ceiling taken through floating point is the integer
  // ceiling, for every positive target.
  lemma EstimateIsExactCeiling(total: int, target: int)
    requires 0 < total < P53 && target > 0
    ensures EstimateOutputFileCount(total, target) == Some(ExactCeil(total, target))
  {
    var n := ExactCeil(total, target);
    ExactCeilBounds(total, target);
    var x := total as real / target as real;
    assert x * target as real == total as real;
    if total == n * target {
      assert n <= total;
      TrueDivExact(n, target, total);
    } else {
      TrueDivNear(total, target, x);
      NearStaysBetween(TrueDiv(total, target), x, total, target, n);
    }
    CeilUnique(TrueDiv(total, target), n);
  }

  // The planned files are enough to hold the bytes at the target size, and one
  // fewer would not be.
  lemma EstimateIsTight(total: int, target: int)
    requires 0 < total < P53 && target > 0
    ensures EstimateOutputFileCount(total, target).Some?
    ensures var n := EstimateOutputFileCount(total, target).value; n * target >= total > (n - 1) * target
  {
    EstimateIsExactCeiling(total, target);
    ExactCeilBounds(total, target);
  }

  // ---------- Above 2^53 bytes: exactly when the plan is still the ceiling ----------

  // The least power of two that brings total * Scale to 2^52 targets.
  function Scale(a: nat, b: nat): (s: nat)
    requires a > 0 && b > 0
    ensures s >= 1
    ensures a < P52 * b ==> s % 2 == 0
    decreases if a < P52 * b then P52 * b - a else 0
  {
    if a < P52 * b then 2 * Scale(2 * a, b) else 1
  }

  function Scaled(a: nat, b: nat): nat
    requires a > 0 && b > 0
    decreases if a < P52 * b then P52 * b - a else 0
  {
    if a < P52 * b then Scaled(2 * a, b) else a
  }

  function Descale(m: real, a: nat, b: nat): real
    requires a > 0 && b > 0
    decreases if a < P52 * b then P52 * b - a else 0
  {
    if a < P52 * b then Descale(m, 2 * a, b) / 2.0 else m
  }

  lemma {:induction false} TrueDivDescales(a: nat, b: nat)
    requires a > 0 && b > 0 && a < P53 * b
    ensures TrueDiv(a, b) == Descale(RoundHalfEven(Scaled(a, b), b) as real, a, b)
    ensures P52 * b <= Scaled(a, b)
    decreases if a < P52 * b then P52 * b - a else 0
  {
    if a < P52 * b {
      TrueDivDescales(2 * a, b);
    }
  }

  lemma MoveTwo(a: nat, s: nat)
    ensures 2 * a * s == a * (2 * s)
  {
  }

  lemma {:induction false} ScaledIsProduct(a: nat, b: nat)
    requires a > 0 && b > 0
    ensures Scaled(a, b) == a * Scale(a, b)
    decreases if a < P52 * b then P52 * b - a else 0
  {
    if a < P52 * b {
      ScaledIsProduct(2 * a, b);
      MoveTwo(a, Scale(2 * a, b));
    }
  }

  lemma {:induction false} DescaleUndoesScale(m: real, a: nat, b: nat)
    requires a > 0 && b > 0
    ensures Descale(m, a, b) * Scale(a, b) as real == m
    decreases if a < P52 * b then P52 * b - a else 0
  {
    if a < P52 * b {
      DescaleUndoesScale(m, 2 * a, b);
      Regroup(Descale(m, 2 * a, b), Scale(2 * a, b));
    }
  }

  lemma Regroup(t: real, s: nat)
    ensures t / 2.0 * (2 * s) as real == t * s as real
  {
    assert (2 * s) as real == 2.0 * s as real;
  }

  lemma RoundFromParts(a: nat, b: nat, x: nat, k: nat, e: nat)
    requires a == (x + k) * b + e && e < b && x % 2 == 0
    ensures RoundHalfEven(a, b) == x + if 2 * e < b || (2 * e == b && k % 2 == 0) then k else k + 1
  {
    DivModUnique(a, b, x + k, e);
  }

  // Whole targets pass through the rounding; only the remainder is rounded.
  lemma RoundingKeepsWholePart(q: nat, r: nat, b: nat, s: nat) returns (w: nat)
    requires r < b && s % 2 == 0 && s > 0
    ensures RoundHalfEven((q * b + r) * s, b) == q * s + w
    ensures w <= s
    ensures w == 0 <==> 2 * (r * s) <= b
  {
    var k, e := Divide(r * s, b);
    Distribute(q, r, b, s, k, e);
    EvenProduct(q, s);
    BelowFactor(k, r, b, s, e);
    w := RoundingOfSum((q * b + r) * s, q * s, r * s, b, k, e, s);
  }

  lemma RoundingOfSum(n: nat, x: nat, y: nat, b: nat, k: nat, e: nat, s: nat) returns (w: nat)
    requires n == (x + k) * b + e && y == k * b + e && e < b
    requires x % 2 == 0 && k < s
    ensures RoundHalfEven(n, b) == x + w && w <= s
    ensures w == 0 <==> 2 * y <= b
  {
    w := if 2 * e < b || (2 * e == b && k % 2 == 0) then k else k + 1;
    RoundFromParts(n, b, x, k, e);
    ZeroQuotient(k, b, e);
  }

  lemma Divide(n: nat, b: nat) returns (k: nat, e: nat)
    requires b > 0
    ensures n == k * b + e && e < b
  {
    k, e := n / b, n % b;
  }

  lemma ZeroQuotient(k: nat, b: nat, e: nat)
    requires e < b
    ensures (k == 0 && 2 * e <= b) <==> 2 * (k * b + e) <= b
  {
    assert k >= 1 ==> k * b >= b;
  }

  lemma Distribute(q: nat, r: nat, b: nat, s: nat, k: nat, e: nat)
    requires r * s == k * b + e
    ensures (q * b + r) * s == (q * s + k) * b + e
  {
    assert (q * b + r) * s == q * b * s + r * s;
    assert (q * s + k) * b == q * s * b + k * b;
    assert q * b * s == q * s * b;
  }

  lemma EvenProduct(q: nat, s: nat)
    requires s % 2 == 0
    ensures q * s % 2 == 0
  {
    assert q * s == 2 * (q * (s / 2));
    DivModUnique(q * s, 2, q * (s / 2), 0);
  }

  lemma BelowFactor(k: nat, r: nat, b: nat, s: nat, e: nat)
    requires r < b && r * s == k * b + e && e < b
    ensures s > 0 ==> k < s
  {
    assert r * s <= (b - 1) * s == b * s - s;
    if k >= s {
      assert k * b >= s * b;
    }
  }

  lemma CeilOfParts(t: real, q: nat, w: nat, s: nat)
    requires s > 0 && w <= s && t * s as real == (q * s + w) as real
    ensures Ceil(t) == if w == 0 then q else q + 1
  {
    var x := t - q as real;
    assert (q * s + w) as real == q as real * s as real + w as real;
    assert x * s as real == w as real;
    FractionOf(x, w, s);
    CeilUnique(t, if w == 0 then q else q + 1);
  }

  lemma FractionOf(x: real, w: nat, s: nat)
    requires s > 0 && w <= s && x * s as real == w as real
    ensures 0.0 <= x <= 1.0 && (w == 0 <==> x == 0.0)
  {
    assert (1.0 - x) * s as real == s as real - w as real;
  }

  // When the planned files are the ceiling. Below 2^52 targets: the bytes left
  // over beyond whole targets are none, or more than half a unit in the last
  // place of the quotient. From 2^52 to 2^53 targets the rounding of what is left
  // over has to go up. Beyond, the ceiling itself has to be a double: a multiple
  // of the unit in the last place.
  predicate CeilingIsMet(total: nat, target: nat)
    requires total > 0 && target > 0
  {
    var rest := total % target;
    if total < P52 * target then rest == 0 || 2 * (rest * Scale(total, target)) > target
    else if total < P53 * target then
      rest == 0 || 2 * rest > target || (2 * rest == target && total / target % 2 == 1)
    else ExactCeil(total, target) % Unit(total, target) == 0
  }

  // For any byte count at all, the estimate is the true ceiling exactly then.
  lemma EstimateExactIff(total: int, target: int)
    requires total > 0 && target > 0
    ensures EstimateOutputFileCount(total, target) == Some(ExactCeil(total, target)) <==> CeilingIsMet(total, target)
  {
    if total < P52 * target {
      SmallPlanExactIff(total, target);
    } else {
      LargePlanExactIff(total, target);
    }
  }

  lemma SmallPlanExactIff(total: int, target: int)
    requires 0 < total < P52 * target
    ensures target > 0
    ensures EstimateOutputFileCount(total, target) == Some(ExactCeil(total, target))
       <==> total % target == 0 || 2 * (total % target * Scale(total, target)) > target
  {
    var q, r, w := QuotientParts(total, target);
    DivModUnique(total, target, q, r);
    CeilFromParts(total, target, q, r);
    SmallPlan(total, target, q, r);
  }

  // The unit in the last place of a quotient of 2^52 and more.
  function Unit(a: nat, b: nat): (u: nat)
    requires a > 0 && b > 0
    ensures u >= 1
    ensures a >= P53 * b ==> u % 2 == 0
    ensures a < P53 * b ==> u == 1
    decreases if a >= P53 * b then a - P53 * b + 1 else 0
  {
    if a >= P53 * b then 2 * Unit(a, 2 * b) else 1
  }

  lemma {:induction false} TrueDivInUnits(a: nat, b: nat)
    requires a > 0 && b > 0 && a >= P52 * b
    ensures TrueDiv(a, b) == (RoundHalfEven(a, b * Unit(a, b)) * Unit(a, b)) as real
    ensures P52 * (b * Unit(a, b)) <= a
    decreases if a >= P53 * b then a - P53 * b + 1 else 0
  {
    if a >= P53 * b {
      var u := Unit(a, 2 * b);
      TrueDivInUnits(a, 2 * b);
      MoveTwo(b, u);
      DoubleUnits(RoundHalfEven(a, b * (2 * u)), u);
    }
  }

  lemma DoubleUnits(m: nat, u: nat)
    ensures (m * u) as real * 2.0 == (m * (2 * u)) as real
  {
    assert m * (2 * u) == 2 * (m * u);
  }

  lemma LargePlanExactIff(total: int, target: int)
    requires target > 0 && total >= P52 * target
    ensures total > 0
    ensures EstimateOutputFileCount(total, target) == Some(ExactCeil(total, target)) <==> CeilingIsMet(total, target)
  {
    LargePlan(total, target);
    if total < P53 * target {
      var q, r := Divide(total, target);
      DivModUnique(total, target, q, r);
      CeilFromParts(total, target, q, r);
    } else {
      ExactCeilBounds(total, target);
      RoundsToMultiple(total, target, ExactCeil(total, target), Unit(total, target));
    }
  }

  lemma LargePlan(total: int, target: int)
    requires target > 0 && total >= P52 * target
    ensures total > 0
    ensures EstimateOutputFileCount(total, target)
         == Some(RoundHalfEven(total, target * Unit(total, target)) * Unit(total, target))
  {
    var u := Unit(total, target);
    TrueDivInUnits(total, target);
    var n := WholeUnits(total, target * u, u);
    CeilUnique(TrueDiv(total, target), n);
  }

  lemma WholeUnits(a: nat, b: nat, u: nat) returns (n: int)
    requires b > 0 && u > 0 && P52 * b <= a
    ensures n == RoundHalfEven(a, b) * u && n >= 1
  {
    var q, r := Divide(a, b);
    DivModUnique(a, b, q, r);
    if q == 0 {
      assert false;
    }
    n := RoundHalfEven(a, b) * u;
  }

  // c is the ceiling of a / b; in units of u it is what the quotient is rounded
  // to, if it is a number of units at all.
  lemma RoundsToMultiple(a: nat, b: nat, c: nat, u: nat)
    requires b > 0 && u > 0 && u % 2 == 0 && (c - 1) * b < a <= c * b
    ensures RoundHalfEven(a, b * u) * u == c <==> c % u == 0
  {
    var m := RoundHalfEven(a, b * u);
    if m * u == c {
      DivModUnique(c, u, m, 0);
    }
    if c % u == 0 {
      RoundsUp(a, b, c, u, c / u);
    }
  }

  lemma RoundsUp(a: nat, b: nat, c: nat, u: nat, k: nat)
    requires b > 0 && u >= 2 && c == k * u && (c - 1) * b < a <= c * b
    ensures RoundHalfEven(a, b * u) == k
  {
    var unit := b * u;
    var d := c * b - a;
    assert c * b == k * unit;
    assert (c - 1) * b == c * b - b;
    assert unit >= 2 * b;
    if d == 0 {
      DivModUnique(a, unit, k, 0);
    } else {
      assert k >= 1;
      assert (k - 1) * unit == k * unit - unit;
      DivModUnique(a, unit, k - 1, unit - d);
    }
  }

  // The double quotient is q plus w units in the last place, and w is nothing
  // exactly when the remainder is rounded away.
  lemma QuotientParts(a: nat, b: nat) returns (q: nat, r: nat, w: nat)
    requires 0 < a < P52 * b
    ensures b > 0 && a == q * b + r && r < b
    ensures Ceil(TrueDiv(a, b)) == if w == 0 then q else q + 1
    ensures w == 0 <==> 2 * (r * Scale(a, b)) <= b
  {
    q, r := Divide(a, b);
    ScaledQuotient(a, b);
    w := QuotientCore(a, b, q, r, Scale(a, b), TrueDiv(a, b));
  }

  lemma QuotientCore(a: nat, b: nat, q: nat, r: nat, s: nat, t: real) returns (w: nat)
    requires b > 0 && a == q * b + r && r < b && s > 0 && s % 2 == 0
    requires t * s as real == RoundHalfEven(a * s, b) as real
    ensures Ceil(t) == if w == 0 then q else q + 1
    ensures w == 0 <==> 2 * (r * s) <= b
  {
    w := RoundingKeepsWholePart(q, r, b, s);
    CeilOfParts(t, q, w, s);
  }

  lemma ScaledQuotient(a: nat, b: nat)
    requires 0 < a < P52 * b
    ensures TrueDiv(a, b) * Scale(a, b) as real == RoundHalfEven(a * Scale(a, b), b) as real
  {
    TrueDivDescales(a, b);
    ScaledIsProduct(a, b);
    DescaleUndoesScale(RoundHalfEven(Scaled(a, b), b) as real, a, b);
  }

  lemma SmallPlan(a: nat, b: nat, q: nat, r: nat)
    requires 0 < a < P52 * b && a == q * b + r
    ensures q == 0 ==> 2 * (r * Scale(a, b)) > b
  {
    TrueDivDescales(a, b);
    ScaledIsProduct(a, b);
    SmallQuotient(a, b, q, r, Scale(a, b));
  }

  lemma SmallQuotient(a: nat, b: nat, q: nat, r: nat, s: nat)
    requires a == q * b + r && P52 * b <= a * s && b > 0
    ensures q == 0 ==> 2 * (r * s) > b
  {
  }

  lemma CeilFromParts(a: nat, b: nat, q: nat, r: nat)
    requires b > 0 && a == q * b + r && r < b
    ensures ExactCeil(a, b) == if r == 0 then q else q + 1
  {
    if r == 0 {
      DivModUnique(a + b - 1, b, q, b - 1);
    } else {
      assert (q + 1) * b == q * b + b;
      DivModUnique(a + b - 1, b, q + 1, r - 1);
    }
  }

  // The bound 2^53 cannot be raised: one byte above it the plan can fall one
  // file short of the ceiling.
  lemma EstimateFallsShort()
    ensures EstimateOutputFileCount(P53 + 1, 4) != Some(ExactCeil(P53 + 1, 4))
  {
    assert Scale(P53 + 1, 4) == 2 * Scale(2 * (P53 + 1), 4);
    assert Scale(2 * (P53 + 1), 4) == 1;
    assert (P53 + 1) % 4 == 1;
    EstimateExactIff(P53 + 1, 4);
  }
}
