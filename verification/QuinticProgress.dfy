/** The global quintic time law of Cartesian motion, and its inversion by bisection
    (runtime/src/product_cartesian.cpp). */
module QuinticProgress {
  import opened RealArithmetic

  /** Progress along the path at a normalised time; both run over [0, 1]. */
  function Progress(amount: real): real {
    var a := Clamp(amount, 0.0, 1.0);
    a * a * a * (10.0 + a * (-15.0 + 6.0 * a))
  }

  // ---------- How fast the law rises ----------

  /** The derivative of the law inside [0, 1]. */
  function Rate(a: real): real {
    30.0 * (a * (1.0 - a)) * (a * (1.0 - a))
  }

  /** The steepest the law ever gets, at the middle of the motion. */
  const STEEPEST: real := 1.875

  lemma RateBounds(a: real)
    requires 0.0 <= a <= 1.0
    ensures 0.0 <= Rate(a) <= STEEPEST
  {
    var b := 1.0 - a;
    var q := a * b;
    MulNonNegative(a, b);
    assert 0.25 - q == (a - 0.5) * (a - 0.5);
    MulMonotone(q, 0.25, q);
    assert 0.0 <= q * q <= 0.0625;
    assert Rate(a) == 30.0 * (q * q);
  }

  /** The rate averaged over [a, a + d] by a five-point rule with positive weights. */
  function AverageRate(a: real, d: real): real {
    (7.0 * Rate(a) + 32.0 * Rate(a + 0.25 * d) + 12.0 * Rate(a + 0.5 * d)
     + 32.0 * Rate(a + 0.75 * d) + 7.0 * Rate(a + d)) / 90.0
  }

  /** The rule is exact for polynomials of this degree. */
  lemma IncrementIsAverageRate(a: real, d: real)
    requires 0.0 <= a && 0.0 <= d && a + d <= 1.0
    ensures Progress(a + d) - Progress(a) == AverageRate(a, d) * d
  {
  }

  lemma AverageRateBounds(a: real, d: real)
    requires 0.0 <= a && 0.0 <= d && a + d <= 1.0
    ensures 0.0 <= AverageRate(a, d) <= STEEPEST
  {
    RateBounds(a);
    RateBounds(a + 0.25 * d);
    RateBounds(a + 0.5 * d);
    RateBounds(a + 0.75 * d);
    RateBounds(a + d);
  }

  lemma ScaledBounds(r: real, d: real)
    requires 0.0 <= r <= STEEPEST && 0.0 <= d
    ensures 0.0 <= r * d <= STEEPEST * d
  {
    MulMonotone(0.0, r, d);
    MulMonotone(r, STEEPEST, d);
  }

  /** Between two amounts the law rises, by no more than STEEPEST times their distance. */
  lemma ProgressIncrement(a: real, b: real)
    requires 0.0 <= a <= b <= 1.0
    ensures 0.0 <= Progress(b) - Progress(a) <= STEEPEST * (b - a)
  {
    hide *;
    var d := b - a;
    AverageRateBounds(a, d);
    IncrementIsAverageRate(a, d);
    ScaledBounds(AverageRate(a, d), d);
    assert a + d == b;
  }

  lemma RatePositive(a: real)
    requires 0.0 < a < 1.0
    ensures 0.0 < Rate(a)
  {
    var b := 1.0 - a;
    var q := a * b;
    MulPositive(a, b);
    ScaledSquarePositive(30.0, q, Rate(a));
  }

  lemma ProgressStrict(a: real, b: real)
    requires 0.0 <= a < b <= 1.0
    ensures Progress(a) < Progress(b)
  {
    var d := b - a;
    var m := a + 0.5 * d;
    RatePositive(m);
    RateBounds(a);
    RateBounds(a + 0.25 * d);
    RateBounds(a + 0.75 * d);
    RateBounds(a + d);
    assert 0.0 < AverageRate(a, d);
    hide *;
    IncrementIsAverageRate(a, d);
    MulStrictlyMonotone(0.0, AverageRate(a, d), d);
    assert a + d == b;
  }

  // ---------- Inverting the law by bisection ----------

  const HALVINGS: nat := 60

  /** The bracket left after n halvings of [lower, upper]. */
  function Bracket(progress: real, lower: real, upper: real, n: nat): (real, real)
    decreases n
  {
    if n == 0 then (lower, upper)
    else
      var middle := 0.5 * (lower + upper);
      if Progress(middle) < progress
      then Bracket(progress, middle, upper, n - 1)
      else Bracket(progress, lower, middle, n - 1)
  }

  function Inverse(progress: real): real {
    var (lower, upper) := Bracket(Clamp(progress, 0.0, 1.0), 0.0, 1.0, HALVINGS);
    0.5 * (lower + upper)
  }

  method InverseQuinticProgress(progress: real) returns (amount: real)
    ensures amount == Inverse(progress)
  {
    var target := Clamp(progress, 0.0, 1.0);
    var lower, upper := 0.0, 1.0;
    for iteration := 0 to HALVINGS
      invariant Bracket(target, lower, upper, HALVINGS - iteration) == Bracket(target, 0.0, 1.0, HALVINGS)
    {
      var middle := 0.5 * (lower + upper);
      if Progress(middle) < target {
        lower := middle;
      } else {
        upper := middle;
      }
    }
    return 0.5 * (lower + upper);
  }

  /** 2 to the power -n. */
  function HalfPower(n: nat): (h: real)
    ensures h > 0.0
  {
    if n == 0 then 1.0 else 0.5 * HalfPower(n - 1)
  }

  lemma {:induction false} HalfPowerSum(m: nat, n: nat)
    ensures HalfPower(m + n) == HalfPower(m) * HalfPower(n)
  {
    if m > 0 {
      HalfPowerSum(m - 1, n);
    }
  }

  /** Halving keeps the target between the values at the two ends, and halves the width. */
  lemma {:induction false} BracketNarrows(progress: real, lower: real, upper: real, n: nat)
    requires 0.0 <= lower < upper <= 1.0
    requires Progress(lower) <= progress <= Progress(upper)
    ensures var (lo, hi) := Bracket(progress, lower, upper, n);
            && lower <= lo < hi <= upper
            && hi - lo == (upper - lower) * HalfPower(n)
            && Progress(lo) <= progress <= Progress(hi)
    decreases n
  {
    hide Progress;
    if n > 0 {
      var middle := 0.5 * (lower + upper);
      if Progress(middle) < progress {
        BracketNarrows(progress, middle, upper, n - 1);
      } else {
        BracketNarrows(progress, lower, middle, n - 1);
      }
    }
  }

  lemma InverseBracket(progress: real)
    ensures var (lo, hi) := Bracket(Clamp(progress, 0.0, 1.0), 0.0, 1.0, HALVINGS);
            && 0.0 <= lo < hi <= 1.0 && hi - lo == HalfPower(HALVINGS)
            && Progress(lo) <= Clamp(progress, 0.0, 1.0) <= Progress(hi)
  {
    assert Progress(0.0) == 0.0 && Progress(1.0) == 1.0;
    hide Progress;
    BracketNarrows(Clamp(progress, 0.0, 1.0), 0.0, 1.0, HALVINGS);
  }

  /** The law at the inverse of a progress is that progress, up to the last half bracket. */
  lemma InverseInverts(progress: real)
    ensures HalfPower(61) <= Inverse(progress) <= 1.0 - HalfPower(61)
    ensures Abs(Progress(Inverse(progress)) - Clamp(progress, 0.0, 1.0)) <= STEEPEST * HalfPower(61)
  {
    hide Progress;
    InverseBracket(progress);
    var (lo, hi) := Bracket(Clamp(progress, 0.0, 1.0), 0.0, 1.0, HALVINGS);
    ProgressIncrement(lo, Inverse(progress));
    ProgressIncrement(Inverse(progress), hi);
  }

  /** The inverse recovers every amount, to within the last half bracket. */
  lemma InverseRecovers(amount: real)
    requires 0.0 <= amount <= 1.0
    ensures Abs(Inverse(Progress(amount)) - amount) <= HalfPower(61)
  {
    assert Progress(0.0) == 0.0 && Progress(1.0) == 1.0;
    hide Progress;
    ProgressIncrement(0.0, amount);
    ProgressIncrement(amount, 1.0);
    InverseBracket(Progress(amount));
    var (lo, hi) := Bracket(Progress(amount), 0.0, 1.0, HALVINGS);
    if amount < lo {
      ProgressStrict(amount, lo);
    }
    if hi < amount {
      ProgressStrict(hi, amount);
    }
  }

  lemma {:induction false} BracketMonotone(p: real, q: real, lower: real, upper: real, n: nat)
    requires p <= q && 0.0 <= lower < upper <= 1.0
    requires Progress(lower) <= p && q <= Progress(upper)
    ensures var (lo, hi) := Bracket(p, lower, upper, n);
            var (lo', hi') := Bracket(q, lower, upper, n);
            lo <= lo' && hi <= hi'
    decreases n
  {
    hide Progress;
    ProgressIncrement(lower, upper);
    if n > 0 {
      var middle := 0.5 * (lower + upper);
      if Progress(middle) < p {
        BracketMonotone(p, q, middle, upper, n - 1);
      } else if q <= Progress(middle) {
        BracketMonotone(p, q, lower, middle, n - 1);
      } else {
        BracketNarrows(p, lower, middle, n - 1);
        BracketNarrows(q, middle, upper, n - 1);
      }
    }
  }

  lemma InverseMonotone(p: real, q: real)
    requires p <= q
    ensures Inverse(p) <= Inverse(q)
  {
    assert Progress(0.0) == 0.0 && Progress(1.0) == 1.0;
    hide Progress;
    BracketMonotone(Clamp(p, 0.0, 1.0), Clamp(q, 0.0, 1.0), 0.0, 1.0, HALVINGS);
  }

  /** Progresses further apart than the inversion error have strictly ordered inverses. */
  lemma InverseStrict(p: real, q: real)
    requires 0.0 <= p && q <= 1.0
    requires p + STEEPEST * HalfPower(HALVINGS) < q
    ensures Inverse(p) < Inverse(q)
  {
    hide Progress, Inverse;
    InverseInverts(p);
    InverseInverts(q);
    InverseMonotone(p, q);
    assert HalfPower(HALVINGS) == 2.0 * HalfPower(61);
  }
}
