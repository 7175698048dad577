/** What every accepted Cartesian timing satisfies. */
module CartesianTimingProperties {
  import opened RealArithmetic
  import opened Results
  import opened QuinticProgress
  import opened CartesianPath
  import opened StretchFactor
  import opened CartesianTiming

  /** Adjacent knots from index `from` on are in order; each step is admissible if `settled`. */
  ghost predicate Stepwise(path: JointPath, duration: real, amounts: seq<real>, from: nat, settled: bool) {
    forall i {:trigger amounts[i]} :: from < i < |amounts| ==>
      && amounts[i - 1] <= amounts[i]
      && (settled ==> Admissible(path, duration, amounts[i - 1], amounts[i]))
  }

  lemma ShortIntervalAsksForMore(needed: real, interval: real)
    requires interval + EPSILON < needed && 0.0 <= interval
    ensures ShortIntervalStretch(needed, interval) > SETTLED
  {
    var shortest := Max(interval, EPSILON);
    DivMul(needed, shortest);
    if Ratio(needed, shortest) <= 1.0 {
      RatioBound(needed, shortest, 1.0);
    }
  }

  lemma UnsplitIsAdmissible(path: JointPath, duration: real, a: real, b: real)
    requires !NeedsSplit(path, duration, a, b) && MIN_INTERVAL - EPSILON <= (b - a) * duration
    ensures Admissible(path, duration, a, b)
  {
    hide SamplePath;
  }

  lemma MiddleHalves(a: real, b: real, duration: real)
    requires a <= b && 0.0 < duration
    ensures a <= 0.5 * (a + b) <= b
    ensures 0.0 <= (b - a) * duration
  {
    MulNonNegative(b - a, duration);
  }

  lemma StepwiseAppend(path: JointPath, duration: real, amounts: seq<real>, b: real, settled: bool)
    requires |amounts| > 0 && amounts[|amounts| - 1] <= b
    requires settled ==> Admissible(path, duration, amounts[|amounts| - 1], b)
    ensures Stepwise(path, duration, amounts + [b], |amounts| - 1, settled)
  {
    hide Admissible;
  }

  lemma StepwiseJoin(path: JointPath, duration: real, left: seq<real>, all: seq<real>, from: nat,
                     leftSettled: bool, settled: bool)
    requires |left| <= |all| && left == all[..|left|] && (settled ==> leftSettled)
    requires |left| > 0 && Stepwise(path, duration, left, from, leftSettled)
    requires Stepwise(path, duration, all, |left| - 1, settled)
    ensures Stepwise(path, duration, all, from, settled)
  {
    hide Admissible;
    forall i {:trigger all[i]} | from < i < |all|
      ensures all[i - 1] <= all[i] && (settled ==> Admissible(path, duration, all[i - 1], all[i]))
    {
      if i < |left| {
        assert left[i] == all[i] && left[i - 1] == all[i - 1];
      }
    }
  }

  /** A split interval is the subdivision of its halves, one after the other. */
  lemma SplitInHalves(path: JointPath, duration: real, knots: Knots, a: real, b: real, depth: nat)
    requires depth <= MAX_DEPTH && Subdivide(path, duration, knots, a, b, depth).Success?
    requires NeedsSplit(path, duration, a, b) && !(0.5 * ((b - a) * duration) + EPSILON < MIN_INTERVAL)
    ensures depth < MAX_DEPTH
    ensures var left := Subdivide(path, duration, knots, a, 0.5 * (a + b), depth + 1);
            && left.Success?
            && Subdivide(path, duration, left.value, 0.5 * (a + b), b, depth + 1)
               == Subdivide(path, duration, knots, a, b, depth)
  {
    hide NeedsSplit, ShortIntervalStretch;
  }

  /** Any other interval becomes one knot, admissible unless a stretch is asked for. */
  lemma KeptWhole(path: JointPath, duration: real, knots: Knots, a: real, b: real, depth: nat)
    requires depth <= MAX_DEPTH && 0.0 < duration && a <= b
    requires |knots.amounts| > 0 && knots.amounts[|knots.amounts| - 1] == a
    requires Subdivide(path, duration, knots, a, b, depth).Success?
    requires !NeedsSplit(path, duration, a, b) || 0.5 * ((b - a) * duration) + EPSILON < MIN_INTERVAL
    ensures var extended := Subdivide(path, duration, knots, a, b, depth).value;
            Stepwise(path, duration, extended.amounts, |knots.amounts| - 1, extended.scale <= SETTLED)
  {
    hide NeedsSplit, ShortIntervalStretch, Admissible, Stepwise;
    var interval := (b - a) * duration;
    MiddleHalves(a, b, duration);
    var extended := Subdivide(path, duration, knots, a, b, depth).value;
    if NeedsSplit(path, duration, a, b) {
      ShortIntervalAsksForMore(2.0 * MIN_INTERVAL, interval);
    } else if interval + EPSILON < MIN_INTERVAL {
      ShortIntervalAsksForMore(MIN_INTERVAL, interval);
    } else {
      UnsplitIsAdmissible(path, duration, a, b);
    }
    StepwiseAppend(path, duration, knots.amounts, b, extended.scale <= SETTLED);
  }

  /** The knots one subdivision adds are in order, and admissible unless a stretch is asked for. */
  lemma {:induction false} SubdivideSound(path: JointPath, duration: real, knots: Knots, a: real, b: real, depth: nat)
    requires depth <= MAX_DEPTH && 0.0 < duration && a <= b
    requires |knots.amounts| > 0 && knots.amounts[|knots.amounts| - 1] == a
    requires Subdivide(path, duration, knots, a, b, depth).Success?
    ensures var extended := Subdivide(path, duration, knots, a, b, depth).value;
            Stepwise(path, duration, extended.amounts, |knots.amounts| - 1, extended.scale <= SETTLED)
    decreases MAX_DEPTH - depth
  {
    hide Subdivide, NeedsSplit, Admissible, Stepwise;
    if NeedsSplit(path, duration, a, b) && !(0.5 * ((b - a) * duration) + EPSILON < MIN_INTERVAL) {
      SplitInHalves(path, duration, knots, a, b, depth);
      var middle := 0.5 * (a + b);
      var left := Subdivide(path, duration, knots, a, middle, depth + 1).value;
      var extended := Subdivide(path, duration, left, middle, b, depth + 1).value;
      SubdivideGrows(path, duration, knots, a, middle, depth + 1);
      SubdivideGrows(path, duration, left, middle, b, depth + 1);
      SubdivideSound(path, duration, knots, a, middle, depth + 1);
      SubdivideSound(path, duration, left, middle, b, depth + 1);
      StepwiseJoin(path, duration, left.amounts, extended.amounts, |knots.amounts| - 1,
                   left.scale <= SETTLED, extended.scale <= SETTLED);
    } else {
      KeptWhole(path, duration, knots, a, b, depth);
    }
  }

  lemma MandatoryMonotone(segments: nat, i: nat)
    requires i < segments
    ensures MandatoryAmount(segments, i) <= MandatoryAmount(segments, i + 1)
    ensures 0.0 <= MandatoryAmount(segments, i) && MandatoryAmount(segments, i + 1) <= 1.0
  {
    hide Inverse;
    InverseInverts(Ratio(i as real, segments as real));
    InverseInverts(Ratio((i + 1) as real, segments as real));
    assert Ratio(i as real, segments as real) <= Ratio((i + 1) as real, segments as real) by {
      RatioMonotone(i as real, (i + 1) as real, segments as real);
    }
    InverseMonotone(Ratio(i as real, segments as real), Ratio((i + 1) as real, segments as real));
  }

  /** Two to the power 58, below which neighbouring path points keep distinct due times. */
  const TWO_TO_58: nat := 0x400_0000_0000_0000

  lemma LastHalvingIsSmall()
    ensures HalfPower(HALVINGS) * (4.0 * TWO_TO_58 as real) == 1.0
  {
    HalfPowerSum(10, 10);
    HalfPowerSum(10, 20);
    HalfPowerSum(30, 30);
    assert HalfPower(10) == 1.0 / 1024.0;
  }

  lemma EqualShareExceedsError(segments: nat)
    requires 0 < segments < TWO_TO_58
    ensures STEEPEST * HalfPower(HALVINGS) < Ratio(1.0, segments as real)
  {
    hide Ratio, HalfPower;
    var n, error := segments as real, STEEPEST * HalfPower(HALVINGS);
    LastHalvingIsSmall();
    assert error * TWO_TO_58 as real == 0.46875;
    if Ratio(1.0, n) <= error {
      RatioBound(1.0, n, error);
      MulMonotone(n, TWO_TO_58 as real, error);
    }
  }

  lemma NextShare(i: nat, segments: nat)
    requires i < segments
    ensures Ratio((i + 1) as real, segments as real) == Ratio(i as real, segments as real) + Ratio(1.0, segments as real)
    ensures 0.0 <= Ratio(i as real, segments as real) && Ratio((i + 1) as real, segments as real) <= 1.0
  {
    RatioNonNegative(i as real, segments as real);
    RatioMonotone((i + 1) as real, segments as real, segments as real);
  }

  /** The due times of the path points strictly increase from zero to one. */
  lemma MandatoryStrict(segments: nat, i: nat)
    requires i < segments < TWO_TO_58
    ensures MandatoryAmount(segments, i) < MandatoryAmount(segments, i + 1)
    ensures MandatoryAmount(segments, 0) == 0.0 && MandatoryAmount(segments, segments) == 1.0
  {
    hide Inverse, Ratio;
    NextShare(i, segments);
    EqualShareExceedsError(segments);
    var p, q := Ratio(i as real, segments as real), Ratio((i + 1) as real, segments as real);
    InverseInverts(p);
    InverseInverts(q);
    InverseStrict(p, q);
  }

  /** A knot stands at the due time of every path point. */
  ghost predicate Visits(amounts: seq<real>, segments: nat, from: nat)
    requires 0 < segments
  {
    forall i :: from <= i <= segments ==> MandatoryAmount(segments, i) in amounts
  }

  lemma {:induction false} SubdivideFromSound(path: JointPath, duration: real, knots: Knots, segment: nat)
    requires segment <= |path| - 1 && 0.0 < duration
    requires |knots.amounts| > 0 && knots.amounts[|knots.amounts| - 1] == MandatoryAmount(|path| - 1, segment)
    requires SubdivideFrom(path, duration, knots, segment).Success?
    ensures var extended := SubdivideFrom(path, duration, knots, segment).value;
            && Stepwise(path, duration, extended.amounts, |knots.amounts| - 1, extended.scale <= SETTLED)
            && Visits(extended.amounts, |path| - 1, segment)
    decreases |path| - segment
  {
    hide Subdivide, Admissible, MandatoryAmount;
    KnotsGrow(path, duration, knots, segment);
    if segment < |path| - 1 {
      var a, b := MandatoryAmount(|path| - 1, segment), MandatoryAmount(|path| - 1, segment + 1);
      MandatoryMonotone(|path| - 1, segment);
      var next := Subdivide(path, duration, knots, a, b, 0).value;
      SubdivideGrows(path, duration, knots, a, b, 0);
      SubdivideSound(path, duration, knots, a, b, 0);
      KnotsGrow(path, duration, next, segment + 1);
      SubdivideFromSound(path, duration, next, segment + 1);
      var extended := SubdivideFrom(path, duration, knots, segment).value;
      assert forall i :: 0 <= i < |next.amounts| ==> extended.amounts[i] == next.amounts[i];
      assert extended.amounts[|knots.amounts| - 1] == a;
    }
  }

  // ---------- The accepted result ----------

  function Duration(timed: TimedPath): real
    requires timed.Shaped()
  {
    timed.timestamps[|timed.timestamps| - 1]
  }

  /** The normalised time of a knot. */
  function Amount(timed: TimedPath, k: nat): real
    requires timed.Shaped() && k < |timed.points| && 0.0 < Duration(timed)
  {
    Ratio(timed.timestamps[k], Duration(timed))
  }

  /** The interval that ends at knot k is within every spacing, step and linearisation limit. */
  ghost predicate SpacingHolds(path: JointPath, timed: TimedPath, k: nat)
    requires timed.Ends(k) && 0.0 < Duration(timed)
  {
    var middle := SamplePath(path, 0.5 * (Amount(timed, k - 1) + Amount(timed, k)));
    && MIN_INTERVAL - EPSILON <= timed.Interval(k) <= MAX_INTERVAL + EPSILON
    && (forall j :: 0 <= j < DOF ==> Abs(timed.points[k][j] - timed.points[k - 1][j]) <= MAX_STEP + EPSILON)
    && (forall j :: 0 <= j < DOF ==>
          Abs(middle[j] - 0.5 * (timed.points[k - 1][j] + timed.points[k][j])) <= LINEARIZATION_TOLERANCE + EPSILON)
  }

  /** A knot stands at the due time of path point i. */
  ghost predicate HasKnotFor(path: JointPath, timed: TimedPath, i: nat)
    requires timed.Shaped() && i < |path|
  {
    KnotTime(Duration(timed), MandatoryAmount(|path| - 1, i)) in timed.timestamps
  }

  ghost predicate Accepted(path: JointPath, limits: Limits, timed: TimedPath) {
    && timed.Shaped() && timed.Increasing() && |timed.points| <= MAX_SEGMENTS + 1
    && timed.timestamps[0] == 0.0 && 0.10 <= Duration(timed) <= MAX_DURATION
    && timed.points[0] == path[0] && timed.points[|timed.points| - 1] == path[|path| - 1]
    && (forall k :: 0 <= k < |timed.points| ==> timed.points[k] == SamplePath(path, Amount(timed, k)))
    && (forall k :: 1 <= k < |timed.points| ==> SpacingHolds(path, timed, k))
    && (forall i :: 0 <= i < |path| ==> HasKnotFor(path, timed, i))
    && WithinLimits(timed, limits, SETTLED)
  }

  lemma TimeOfAmount(duration: real, a: real, b: real)
    requires 0.0 < duration
    ensures Ratio(KnotTime(duration, a), duration) == a
    ensures KnotTime(duration, b) - KnotTime(duration, a) == (b - a) * duration
  {
    DivMul(a, duration);
  }

  /** From normalised times to the timed path they produce. */
  lemma RealisedSpacing(path: JointPath, duration: real, amounts: seq<real>, k: nat)
    requires 0.0 < duration && |amounts| >= 2 && 1 <= k < |amounts|
    requires amounts[|amounts| - 1] == 1.0
    requires TimedAt(path, duration, amounts).Ends(k)
    requires Admissible(path, duration, amounts[k - 1], amounts[k])
    ensures Duration(TimedAt(path, duration, amounts)) == duration
    ensures SpacingHolds(path, TimedAt(path, duration, amounts), k)
  {
    hide SamplePath, KnotTime, Ratio, Abs;
    var timed := TimedAt(path, duration, amounts);
    KnotTimeEnds(duration);
    TimeOfAmount(duration, amounts[k - 1], amounts[k]);
    TimeOfAmount(duration, amounts[k], amounts[k]);
    assert Amount(timed, k - 1) == amounts[k - 1] && Amount(timed, k) == amounts[k];
    assert timed.Interval(k) == (amounts[k] - amounts[k - 1]) * duration;
    assert timed.points[k - 1] == SamplePath(path, amounts[k - 1]);
    assert timed.points[k] == SamplePath(path, amounts[k]);
    var middle := SamplePath(path, 0.5 * (amounts[k - 1] + amounts[k]));
    assert (forall j :: 0 <= j < DOF ==>
          Abs(middle[j] - 0.5 * (timed.points[k - 1][j] + timed.points[k][j])) <= LINEARIZATION_TOLERANCE + EPSILON);
  }

  lemma LimitsRelax(timed: TimedPath, limits: Limits, factor: real, larger: real)
    requires timed.Shaped() && timed.Increasing() && limits.Positive()
    requires 0.0 <= factor <= larger && WithinLimits(timed, limits, factor)
    ensures WithinLimits(timed, limits, larger)
  {
    hide Abs;
    hide TimedPath.Velocity, TimedPath.Acceleration, TimedPath.StoppingAcceleration;
    MulMonotone(factor, larger, factor);
    MulMonotone(factor, larger, larger);
    MulMonotone(factor, larger, limits.velocity);
    MulMonotone(factor * factor, larger * larger, limits.acceleration);
  }

  lemma {:induction false} FactorAtLeastOne(timed: TimedPath, limits: Limits, sqrt: real -> real, k: nat, joints: nat)
    requires timed.Shaped() && limits.Positive() && joints <= DOF
    requires 1 <= k <= |timed.points| && timed.IncreasingTo(k) && (joints > 0 ==> timed.Ends(k))
    ensures 1.0 <= DemandUpTo(timed, limits, sqrt, k, joints)
    decreases k, joints
  {
    hide Demand;
    if joints > 0 {
      FactorAtLeastOne(timed, limits, sqrt, k, joints - 1);
    } else if k > 1 {
      FactorAtLeastOne(timed, limits, sqrt, k - 1, DOF);
    }
  }

  /** The amounts of an attempt that asks for no further stretch. */
  ghost predicate Settled(path: JointPath, limits: Limits, duration: real, amounts: seq<real>) {
    && 2 <= |amounts| <= MAX_SEGMENTS + 1 && amounts[0] == 0.0 && amounts[|amounts| - 1] == 1.0
    && Stepwise(path, duration, amounts, 0, true) && Visits(amounts, |path| - 1, 0)
    && TimedAt(path, duration, amounts).Increasing()
    && WithinLimits(TimedAt(path, duration, amounts), limits, SETTLED)
  }

  lemma AttemptSettled(path: JointPath, limits: Limits, sqrt: real -> real, duration: real)
    requires limits.Positive() && IsSquareRoot(sqrt) && 0.0 < duration
    requires Attempt(path, limits, sqrt, duration).Success?
    requires Attempt(path, limits, sqrt, duration).value.scale <= SETTLED
    ensures Settled(path, limits, duration, Attempt(path, limits, sqrt, duration).value.amounts)
  {
    hide Ratio, Abs, IsSquareRoot, Admissible, SubdivideFrom, StoppingUpTo, WithinLimits, TimedAt, DemandUpTo, Visits,
      Stepwise, FirstDuration, Inverse;
    hide TimedPath.IncreasingTo;
    var first := Knots([0.0], 1.0);
    var amounts := SubdivideFrom(path, duration, first, 0).value.amounts;
    KnotsGrow(path, duration, first, 0);
    SubdivideFromSound(path, duration, first, 0);
    assert amounts == Attempt(path, limits, sqrt, duration).value.amounts;
    assert amounts[0] == 0.0 by { assert amounts[..1] == [0.0]; }
    var timed := TimedAt(path, duration, amounts);
    var factor := StoppingUpTo(timed, limits, sqrt, DOF);
    assert factor <= SETTLED;
    assert 1.0 <= factor by {
      StoppingCovered(timed, limits, sqrt, DOF);
      FactorAtLeastOne(timed, limits, sqrt, |timed.points|, 0);
    }
    FactorBounds(timed, limits, sqrt);
    LimitsRelax(timed, limits, factor, SETTLED);
  }

  lemma OnThePath(path: JointPath, duration: real, amounts: seq<real>, k: nat)
    requires 0.0 < duration && |amounts| >= 2 && k < |amounts| && amounts[|amounts| - 1] == 1.0
    ensures Duration(TimedAt(path, duration, amounts)) == duration
    ensures TimedAt(path, duration, amounts).points[k] == SamplePath(path, Amount(TimedAt(path, duration, amounts), k))
  {
    hide SamplePath, KnotTime, Ratio;
    KnotTimeEnds(duration);
    TimeOfAmount(duration, amounts[k], amounts[k]);
  }

  lemma SettledIsAccepted(path: JointPath, limits: Limits, duration: real, amounts: seq<real>)
    requires limits.Positive() && 0.10 <= duration <= MAX_DURATION && Settled(path, limits, duration, amounts)
    ensures Accepted(path, limits, TimedAt(path, duration, amounts))
  {
    hide SamplePath, KnotTime, Ratio, Abs, Admissible, WithinLimits, SpacingHolds, Visits, HasKnotFor;
    hide TimedPath.Increasing, TimedPath.IncreasingTo;
    var timed := TimedAt(path, duration, amounts);
    OnThePath(path, duration, amounts, 0);
    KnotTimeEnds(duration);
    SampleEnds(path);
    forall k | 0 <= k < |timed.points| ensures timed.points[k] == SamplePath(path, Amount(timed, k)) {
      OnThePath(path, duration, amounts, k);
    }
    forall k | 1 <= k < |timed.points| ensures timed.Ends(k) {
      IncreasingEnds(timed, k);
    }
    forall k | 1 <= k < |timed.points| ensures SpacingHolds(path, timed, k) {
      assert amounts[k] == amounts[k];
      RealisedSpacing(path, duration, amounts, k);
    }
    forall i | 0 <= i < |path| ensures HasKnotFor(path, timed, i) {
      KnotForPoint(path, duration, amounts, i);
    }
  }

  lemma AttemptSound(path: JointPath, limits: Limits, sqrt: real -> real, duration: real)
    requires limits.Positive() && IsSquareRoot(sqrt) && 0.10 <= duration
    requires Attempt(path, limits, sqrt, duration).Success?
    requires Attempt(path, limits, sqrt, duration).value.scale <= SETTLED
    ensures Accepted(path, limits, TimedAt(path, duration, Attempt(path, limits, sqrt, duration).value.amounts))
  {
    hide Accepted, Settled, TimedAt, SubdivideFrom, Factor;
    AttemptSettled(path, limits, sqrt, duration);
    SettledIsAccepted(path, limits, duration, Attempt(path, limits, sqrt, duration).value.amounts);
  }

  lemma KnotForPoint(path: JointPath, duration: real, amounts: seq<real>, i: nat)
    requires |amounts| >= 2 && amounts[|amounts| - 1] == 1.0 && i < |path|
    requires Visits(amounts, |path| - 1, 0)
    ensures HasKnotFor(path, TimedAt(path, duration, amounts), i)
  {
    hide KnotTime, MandatoryAmount, SamplePath;
    KnotTimeEnds(duration);
    var k :| 0 <= k < |amounts| && amounts[k] == MandatoryAmount(|path| - 1, i);
    assert TimedAt(path, duration, amounts).timestamps[k] == KnotTime(duration, amounts[k]);
  }

  lemma IncreasingEnds(timed: TimedPath, k: nat)
    requires timed.Shaped() && timed.Increasing() && 1 <= k < |timed.points|
    ensures timed.Ends(k)
  {
  }

  lemma {:induction false} RetrySound(path: JointPath, limits: Limits, sqrt: real -> real, duration: real, attempt: nat)
    requires limits.Positive() && IsSquareRoot(sqrt) && attempt <= MAX_ATTEMPTS && 0.10 <= duration
    requires Retry(path, limits, sqrt, duration, attempt).Success?
    ensures Accepted(path, limits, Retry(path, limits, sqrt, duration, attempt).value)
    decreases MAX_ATTEMPTS - attempt
  {
    hide Attempt, Accepted, TimedAt, Stretched;
    var knots := Attempt(path, limits, sqrt, duration).value;
    if knots.scale <= SETTLED {
      AttemptSound(path, limits, sqrt, duration);
    } else {
      StretchLengthens(duration, knots.scale);
      RetrySound(path, limits, sqrt, Stretched(duration, knots.scale), attempt + 1);
    }
  }

  lemma StretchLengthens(duration: real, scale: real)
    requires 0.0 <= duration && 1.0 <= scale
    ensures duration <= Stretched(duration, scale)
  {
    MulMonotone(1.0, scale, duration);
  }

  /** Whenever the timing of a joint path succeeds, its knots run from the first path point at
      time zero to the last, lie on the path, pass every path point's due time, and respect every
      spacing, speed and acceleration limit. */
  lemma TimingSound(points: seq<JointPoint>, limits: Limits, sqrt: real -> real)
    requires IsSquareRoot(sqrt) && Timing(points, limits, sqrt).Success?
    ensures |points| >= 2 && limits.Positive()
    ensures Accepted(points, limits, Timing(points, limits, sqrt).value)
  {
    hide Accepted, Retry;
    RetrySound(points, limits, sqrt, FirstDuration(LargestVariation(points, DOF), limits, sqrt), 0);
  }
}
