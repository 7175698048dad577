/** What the Cartesian timing does no more than it has to: the curve it follows, the points it passes, the first
    duration, the splits, and the slow-down (runtime/src/product_cartesian.cpp). */
module TimingExactness {
  import opened RealArithmetic
  import opened Results
  import opened QuinticProgress
  import opened CartesianPath
  import opened StretchFactor
  import opened CartesianTiming
  import opened CartesianTimingProperties
  import opened TrajectorySegments
  import opened PolynomialRoots

  // ---------- The curve ----------

  lemma EvaluateFrom(c: Coefficients, k: nat, u: real)
    requires k < 6
    ensures Evaluate(c[k..], u) == Horner(Evaluate(c[k + 1..], u), u, c[k])
  {
    hide Horner;
    assert c[k..][1..] == c[k + 1..];
  }

  lemma CubeOfThree(u: real, m: real)
    ensures Horner(Horner(Horner(m, u, 0.0), u, 0.0), u, 0.0) == u * u * u * m
  {
  }

  lemma ProgressCubed(u: real)
    requires 0.0 <= u <= 1.0
    ensures Progress(u) == u * u * u * Horner(Horner(6.0, u, -15.0), u, 10.0)
  {
    assert Horner(Horner(6.0, u, -15.0), u, 10.0) == 10.0 + u * (-15.0 + 6.0 * u);
  }

  lemma LastCoefficient(c: Coefficients, u: real)
    ensures Evaluate(c[5..], u) == c[5]
  {
    assert c[5..][1..] == [];
    assert Evaluate(c[5..][1..], u) == 0.0;
  }

  lemma RestCoefficients()
    ensures QuinticCoefficients(Kinematics(0.0, 0.0, 0.0), Kinematics(1.0, 0.0, 0.0), 1.0)
         == [0.0, 0.0, 0.0, 10.0, -15.0, 6.0]
  {
  }

  lemma EvaluateSix(c: Coefficients, u: real)
    ensures Evaluate(c, u)
         == Horner(Horner(Horner(Horner(Horner(c[5], u, c[4]), u, c[3]), u, c[2]), u, c[1]), u, c[0])
  {
    LastCoefficient(c, u);
    hide Evaluate, Horner;
    EvaluateFrom(c, 4, u);
    EvaluateFrom(c, 3, u);
    EvaluateFrom(c, 2, u);
    EvaluateFrom(c, 1, u);
    EvaluateFrom(c, 0, u);
    assert c[0..] == c;
  }

  /** Progress is the quintic that leaves zero and reaches one at rest, without velocity and acceleration. */
  lemma ProgressIsRestToRest(u: real)
    requires 0.0 <= u <= 1.0
    ensures Progress(u) == Position(QuinticCoefficients(Kinematics(0.0, 0.0, 0.0), Kinematics(1.0, 0.0, 0.0), 1.0), u)
  {
    hide Evaluate, QuinticCoefficients, Horner, Progress;
    RestCoefficients();
    EvaluateSix([0.0, 0.0, 0.0, 10.0, -15.0, 6.0], u);
    ProgressCubed(u);
    CubeOfThree(u, Horner(Horner(6.0, u, -15.0), u, 10.0));
  }

  // ---------- The points of the path ----------

  /** A step of the path is no larger than this for a joint, on both sides of point i. */
  predicate StepsWithin(path: JointPath, i: nat, joint: nat, step: real)
    requires i < |path| && joint < DOF
  {
    && (0 < i ==> Abs(path[i][joint] - path[i - 1][joint]) <= step)
    && (i + 1 < |path| ==> Abs(path[i + 1][joint] - path[i][joint]) <= step)
  }

  lemma ProductWithin(x: real, y: real, a: real, b: real)
    requires Abs(x) <= a && Abs(y) <= b
    ensures Abs(Product(x, y)) <= a * b
  {
    var p, q := Abs(x), Abs(y);
    MulMonotone(p, a, q);
    MulMonotone(q, b, a);
    assert x * y == p * q || x * y == -(p * q);
    MulNonNegative(p, q);
  }

  /** Close to the progress of point i the path is close to that point. */
  lemma SampleNearPoint(path: JointPath, amount: real, i: nat, joint: nat, step: real, error: real)
    requires i < |path| && joint < DOF && StepsWithin(path, i, joint, step)
    requires Abs(PathPosition(path, amount) - i as real) <= error <= 1.0
    ensures Abs(SamplePath(path, amount)[joint] - path[i][joint]) <= error * step
  {
    hide SamplePath, PathPosition, Product;
    var position := PathPosition(path, amount);
    if i + 1 < |path| && i as real <= position {
      SampleInSegment(path, amount, i, joint);
      ProductWithin(position - i as real, path[i + 1][joint] - path[i][joint], error, step);
    } else {
      SampleInSegment(path, amount, i - 1, joint);
      var from, to := path[i - 1][joint], path[i][joint];
      BlendDifference(from, to, position - (i - 1) as real, 1.0);
      BlendEnds(from, to);
      ProductWithin(1.0 - (position - (i - 1) as real), to - from, error, step);
    }
  }

  /** How far from its path point a knot can be, as a part of the neighbouring steps. */
  function PointError(segments: nat): real {
    STEEPEST * HalfPower(61) * segments as real
  }

  lemma PointErrorSmall(segments: nat)
    requires segments < TWO_TO_58
    ensures 0.0 <= PointError(segments) <= 1.0
  {
    var e := STEEPEST * HalfPower(61);
    LastHalvingIsSmall();
    assert HalfPower(61) == 0.5 * HalfPower(HALVINGS);
    assert e * TWO_TO_58 as real <= 1.0;
    MulMonotone(segments as real, TWO_TO_58 as real, e);
    MulNonNegative(e, segments as real);
  }

  lemma DueProgress(segments: nat, i: nat)
    requires 0 < i < segments
    ensures Abs(Progress(MandatoryAmount(segments, i)) - Ratio(i as real, segments as real)) <= STEEPEST * HalfPower(61)
  {
    hide Inverse, Progress, HalfPower;
    NextShare(i - 1, segments);
    NextShare(i, segments);
    RatioNonNegative(1.0, segments as real);
    InverseInverts(Ratio(i as real, segments as real));
  }

  lemma PositionIs(path: JointPath, amount: real)
    ensures PathPosition(path, amount) == Progress(amount) * (|path| - 1) as real
  {
    hide Progress;
  }

  lemma ShareTimes(i: nat, segments: nat)
    requires 0 < segments
    ensures Ratio(i as real, segments as real) * segments as real == i as real
  {
    DivMul(i as real, segments as real);
  }

  lemma DueBetween(path: JointPath, i: nat)
    requires 0 < i < |path| - 1
    ensures Abs(PathPosition(path, MandatoryAmount(|path| - 1, i)) - i as real) <= PointError(|path| - 1)
  {
    hide Ratio, PathPosition, Progress, MandatoryAmount, HalfPower, Abs;
    var segments := |path| - 1;
    var amount, share := MandatoryAmount(segments, i), Ratio(i as real, segments as real);
    DueProgress(segments, i);
    PositionIs(path, amount);
    ShareTimes(i, segments);
    ScaledError(Progress(amount), share, segments, STEEPEST * HalfPower(61));
  }

  lemma DuePosition(path: JointPath, i: nat)
    requires i < |path|
    ensures Abs(PathPosition(path, MandatoryAmount(|path| - 1, i)) - i as real) <= PointError(|path| - 1)
  {
    if 0 < i < |path| - 1 {
      DueBetween(path, i);
    } else {
      hide PathPosition, PointError;
      PositionEnds(path, MandatoryAmount(|path| - 1, i));
      PointErrorNonNegative(|path| - 1);
    }
  }

  lemma PointErrorNonNegative(segments: nat)
    ensures 0.0 <= PointError(segments)
  {
    MulNonNegative(STEEPEST * HalfPower(61), segments as real);
  }

  lemma ScaledError(p: real, q: real, n: nat, error: real)
    requires Abs(p - q) <= error
    ensures Abs(p * n as real - q * n as real) <= error * n as real
  {
    MulMonotone(p - q, error, n as real);
    MulMonotone(q - p, error, n as real);
    assert p * n as real - q * n as real == (p - q) * n as real;
  }

  /** The knot that is due for a path point stands at that point, up to the error of the inverse. */
  lemma DueSample(path: JointPath, i: nat, joint: nat, step: real)
    requires |path| - 1 < TWO_TO_58 && i < |path| && joint < DOF && StepsWithin(path, i, joint, step)
    ensures Abs(SamplePath(path, MandatoryAmount(|path| - 1, i))[joint] - path[i][joint]) <= PointError(|path| - 1) * step
  {
    hide *;
    DuePosition(path, i);
    PointErrorSmall(|path| - 1);
    SampleNearPoint(path, MandatoryAmount(|path| - 1, i), i, joint, step, PointError(|path| - 1));
  }

  /** Every timing meets every path point with one of its knots, to within 2^-60 of the neighbouring steps for each
      path segment. */
  lemma KnotsMeetPathPoints(points: seq<JointPoint>, limits: Limits, sqrt: real -> real, i: nat) returns (k: nat)
    requires IsSquareRoot(sqrt) && Timing(points, limits, sqrt).Success? && i < |points| <= TWO_TO_58
    ensures var timed := Timing(points, limits, sqrt).value;
            && |points| >= 2 && k < |timed.points|
            && forall joint: nat, step: real {:trigger StepsWithin(points, i, joint, step)} ::
                 joint < DOF && StepsWithin(points, i, joint, step) ==>
                   Abs(timed.points[k][joint] - points[i][joint]) <= PointError(|points| - 1) * step
  {
    TimingSound(points, limits, sqrt);
    var timed := Timing(points, limits, sqrt).value;
    hide Timing, SamplePath, MandatoryAmount, WithinLimits, SpacingHolds, KnotTime, PointError, StepsWithin, Abs;
    hide TimedPath.Increasing;
    assert HasKnotFor(points, timed, i);
    var amount := MandatoryAmount(|points| - 1, i);
    k :| 0 <= k < |timed.timestamps| && timed.timestamps[k] == KnotTime(Duration(timed), amount);
    TimeOfAmount(Duration(timed), amount, amount);
    assert timed.points[k] == SamplePath(points, amount);
    forall joint: nat, step: real | joint < DOF && StepsWithin(points, i, joint, step)
      ensures Abs(timed.points[k][joint] - points[i][joint]) <= PointError(|points| - 1) * step
    {
      DueSample(points, i, joint, step);
    }
  }

  // ---------- The slow-down ----------

  lemma RootAtMost(sqrt: real -> real, x: real, y: real, bound: real)
    requires IsSquareRoot(sqrt) && 0.0 <= x && 0.0 < y && 0.0 <= bound && x <= bound * bound * y
    ensures sqrt(Ratio(x, y)) <= bound
  {
    RatioNonNegative(x, y);
    RatioAtMost(x, y, bound * bound);
    hide Ratio;
    SmallerRoot(sqrt(Ratio(x, y)), bound);
  }

  lemma SmallerRoot(root: real, bound: real)
    requires 0.0 <= root && 0.0 <= bound && root * root <= bound * bound
    ensures root <= bound
  {
    DifferenceOfSquares(root, bound);
    if bound < root {
      MulPositive(root - bound, root + bound);
    }
  }

  lemma DifferenceOfSquares(x: real, y: real)
    ensures (x - y) * (x + y) == x * x - y * y
  {
  }

  lemma RatioAtMost(x: real, y: real, bound: real)
    requires 0.0 < y && x <= bound * y
    ensures Ratio(x, y) <= bound
  {
    DivMul(x, y);
    if bound < Ratio(x, y) {
      MulStrictlyMonotone(bound, Ratio(x, y), y);
    }
  }

  lemma {:induction false} DemandAtMost(path: TimedPath, limits: Limits, sqrt: real -> real, k: nat, joints: nat,
                                        factor: real)
    requires path.Shaped() && path.Increasing() && limits.Positive() && joints <= DOF && IsSquareRoot(sqrt)
    requires 1 <= k <= |path.points| && (joints > 0 ==> path.Ends(k))
    requires 1.0 <= factor && WithinLimits(path, limits, factor)
    ensures DemandUpTo(path, limits, sqrt, k, joints) <= factor
    decreases k, joints
  {
    hide IsSquareRoot, Ratio, Abs;
    hide TimedPath.Velocity, TimedPath.Acceleration, TimedPath.StoppingAcceleration;
    if joints > 0 {
      DemandAtMost(path, limits, sqrt, k, joints - 1, factor);
      RatioAtMost(Abs(path.Velocity(k, joints - 1)), limits.velocity, factor);
      RootAtMost(sqrt, Abs(path.Acceleration(k, joints - 1)), limits.acceleration, factor);
    } else if k > 1 {
      DemandAtMost(path, limits, sqrt, k - 1, DOF, factor);
    }
  }

  lemma {:induction false} StoppingAtMost(path: TimedPath, limits: Limits, sqrt: real -> real, joints: nat, factor: real)
    requires path.Shaped() && path.Increasing() && limits.Positive() && joints <= DOF && IsSquareRoot(sqrt)
    requires 1.0 <= factor && WithinLimits(path, limits, factor)
    ensures StoppingUpTo(path, limits, sqrt, joints) <= factor
    decreases joints
  {
    hide IsSquareRoot, Ratio, Abs, DemandUpTo;
    hide TimedPath.Velocity, TimedPath.Acceleration, TimedPath.StoppingAcceleration;
    if joints > 0 {
      StoppingAtMost(path, limits, sqrt, joints - 1, factor);
      RootAtMost(sqrt, Abs(path.StoppingAcceleration(joints - 1)), limits.acceleration, factor);
    } else {
      DemandAtMost(path, limits, sqrt, |path.points|, 0, factor);
    }
  }

  /** The factor is the least slow-down, from one on, that brings a knot list within its limits. */
  lemma FactorIsLeast(path: TimedPath, limits: Limits, sqrt: real -> real, factor: real)
    requires path.Shaped() && path.Increasing() && limits.Positive() && IsSquareRoot(sqrt) && 1.0 <= factor
    ensures Factor(path, limits, sqrt).Success?
    ensures WithinLimits(path, limits, factor) <==> Factor(path, limits, sqrt).value <= factor
  {
    hide StoppingUpTo, WithinLimits, IsSquareRoot;
    FactorBounds(path, limits, sqrt);
    if WithinLimits(path, limits, factor) {
      StoppingAtMost(path, limits, sqrt, DOF, factor);
    }
    FactorFromOne(path, limits, sqrt);
    if StoppingUpTo(path, limits, sqrt, DOF) <= factor {
      LimitsRelax(path, limits, StoppingUpTo(path, limits, sqrt, DOF), factor);
    }
  }

  lemma FactorFromOne(path: TimedPath, limits: Limits, sqrt: real -> real)
    requires path.Shaped() && path.Increasing() && limits.Positive()
    ensures 1.0 <= StoppingUpTo(path, limits, sqrt, DOF)
  {
    hide DemandUpTo, StoppingUpTo, StoppingDemand;
    StoppingCovered(path, limits, sqrt, DOF);
    FactorAtLeastOne(path, limits, sqrt, |path.points|, 0);
  }

  // ---------- The first duration ----------

  /** A duration of at least 0.1 s is long enough to start from exactly if a curve at its steepest keeps the speed
      limit over the whole travel, and the acceleration limit in the same way. */
  lemma FirstDurationLeast(variation: real, limits: Limits, sqrt: real -> real, duration: real)
    requires limits.Positive() && IsSquareRoot(sqrt) && 0.0 <= variation && 0.10 <= duration
    ensures FirstDuration(variation, limits, sqrt) <= duration
       <==> STEEPEST * variation <= duration * limits.velocity && 6.0 * variation <= duration * duration * limits.acceleration
  {
    hide IsSquareRoot, Ratio;
    if FirstDuration(variation, limits, sqrt) <= duration {
      RatioBound(1.875 * variation, limits.velocity, duration);
      RootBound(sqrt, 6.0 * variation, limits.acceleration, duration);
    }
    if STEEPEST * variation <= duration * limits.velocity && 6.0 * variation <= duration * duration * limits.acceleration {
      RatioAtMost(1.875 * variation, limits.velocity, duration);
      RootAtMost(sqrt, 6.0 * variation, limits.acceleration, duration);
    }
  }

  /** Where a joint only goes one way its travel is the distance. */
  lemma {:induction false} TravelOneWay(path: JointPath, joint: nat, i: nat, k: nat)
    requires joint < DOF && i <= k < |path|
    requires (forall n :: i < n <= k ==> path[n - 1][joint] <= path[n][joint])
             || (forall n :: i < n <= k ==> path[n][joint] <= path[n - 1][joint])
    ensures Variation(path, joint, k + 1) - Variation(path, joint, i + 1) == Abs(path[k][joint] - path[i][joint])
    ensures (forall n :: i < n <= k ==> path[n - 1][joint] <= path[n][joint]) ==> path[i][joint] <= path[k][joint]
    ensures (forall n :: i < n <= k ==> path[n][joint] <= path[n - 1][joint]) ==> path[k][joint] <= path[i][joint]
    decreases k
  {
    if i < k {
      TravelOneWay(path, joint, i, k - 1);
    }
  }

  lemma {:induction false} TravelGrows(path: JointPath, joint: nat, n: nat)
    requires joint < DOF && n <= |path|
    ensures 0.0 <= Variation(path, joint, n)
  {
    if n > 1 {
      TravelGrows(path, joint, n - 1);
    }
  }

  /** The largest travel is that of some joint, and none travels further. */
  lemma {:induction false} LargestTravel(path: JointPath, joints: nat) returns (joint: nat)
    requires 0 < joints <= DOF
    ensures joint < joints && LargestVariation(path, joints) == Variation(path, joint, |path|)
    ensures forall j :: 0 <= j < joints ==> Variation(path, j, |path|) <= Variation(path, joint, |path|)
  {
    TravelGrows(path, joints - 1, |path|);
    hide Variation;
    joint := joints - 1;
    if joints > 1 {
      var before := LargestTravel(path, joints - 1);
      if Variation(path, joints - 1, |path|) < Variation(path, before, |path|) {
        joint := before;
      }
    } else {
      assert LargestVariation(path, 0) == 0.0;
    }
  }

  // ---------- Splits and stretches ----------

  lemma {:induction false} StepAttained(start: JointPoint, end: JointPoint, n: nat, bound: real)
    requires n <= DOF && 0.0 <= bound
    ensures LargestStep(start, end, n) <= bound <==> forall j :: 0 <= j < n ==> Abs(end[j] - start[j]) <= bound
  {
    if n > 0 {
      StepAttained(start, end, n - 1, bound);
    }
  }

  lemma {:induction false} BulgeAttained(start: JointPoint, middle: JointPoint, end: JointPoint, n: nat, bound: real)
    requires n <= DOF && 0.0 <= bound
    ensures LargestBulge(start, middle, end, n) <= bound
       <==> forall j :: 0 <= j < n ==> Abs(middle[j] - 0.5 * (start[j] + end[j])) <= bound
  {
    if n > 0 {
      BulgeAttained(start, middle, end, n - 1, bound);
    }
  }

  /** An interval stays whole exactly if it lasts at most 50 ms, moves no joint by more than 0.02 rad, and bulges from its
      chord by no more than 0.001 rad in any joint. */
  lemma SplitExactly(path: JointPath, duration: real, a: real, b: real)
    ensures var start, middle, end := SamplePath(path, a), SamplePath(path, 0.5 * (a + b)), SamplePath(path, b);
            !NeedsSplit(path, duration, a, b) <==>
              && (b - a) * duration <= 0.050 + EPSILON
              && (forall j :: 0 <= j < DOF ==> Abs(end[j] - start[j]) <= 0.020 + EPSILON)
              && (forall j :: 0 <= j < DOF ==> Abs(middle[j] - 0.5 * (start[j] + end[j])) <= 0.001 + EPSILON)
  {
    hide SamplePath, Abs;
    var start, middle, end := SamplePath(path, a), SamplePath(path, 0.5 * (a + b)), SamplePath(path, b);
    StepAttained(start, end, DOF, MAX_STEP + EPSILON);
    BulgeAttained(start, middle, end, DOF, LINEARIZATION_TOLERANCE + EPSILON);
    hide LargestStep, LargestBulge;
  }

  /** The knot halves an interval that had to be split and was long enough for it. */
  ghost predicate Halves(path: JointPath, duration: real, x: real, a: real, b: real) {
    x == 0.5 * (a + b) && a <= b && NeedsSplit(path, duration, a, b) && MIN_INTERVAL <= 0.5 * ((b - a) * duration) + EPSILON
  }

  ghost predicate Needed(path: JointPath, duration: real, x: real) {
    exists a, b :: Halves(path, duration, x, a, b)
  }

  /** Every knot a subdivision adds before its end halves an interval that needed it. */
  lemma {:induction false} SubdivideNeeded(path: JointPath, duration: real, knots: Knots, a: real, b: real, depth: nat)
    requires depth <= MAX_DEPTH && 0.0 < duration && a <= b
    requires Subdivide(path, duration, knots, a, b, depth).Success?
    ensures var amounts := Subdivide(path, duration, knots, a, b, depth).value.amounts;
            && |knots.amounts| < |amounts|
            && forall i :: |knots.amounts| <= i < |amounts| - 1 ==> Needed(path, duration, amounts[i])
    decreases MAX_DEPTH - depth
  {
    hide NeedsSplit, Needed, ShortIntervalStretch;
    SubdivideGrows(path, duration, knots, a, b, depth);
    if NeedsSplit(path, duration, a, b) && !(0.5 * ((b - a) * duration) + EPSILON < MIN_INTERVAL) {
      hide Subdivide;
      SplitInHalves(path, duration, knots, a, b, depth);
      var middle := 0.5 * (a + b);
      var left := Subdivide(path, duration, knots, a, middle, depth + 1).value;
      SubdivideGrows(path, duration, knots, a, middle, depth + 1);
      SubdivideGrows(path, duration, left, middle, b, depth + 1);
      SubdivideNeeded(path, duration, knots, a, middle, depth + 1);
      SubdivideNeeded(path, duration, left, middle, b, depth + 1);
      MiddleNeeded(path, duration, a, b);
      var amounts := Subdivide(path, duration, left, middle, b, depth + 1).value.amounts;
      forall i | |knots.amounts| <= i < |amounts| - 1 ensures Needed(path, duration, amounts[i]) {
        if i < |left.amounts| {
          assert amounts[i] == amounts[..|left.amounts|][i] == left.amounts[i];
        }
      }
    }
  }

  lemma MiddleNeeded(path: JointPath, duration: real, a: real, b: real)
    requires a <= b && NeedsSplit(path, duration, a, b) && MIN_INTERVAL <= 0.5 * ((b - a) * duration) + EPSILON
    ensures Needed(path, duration, 0.5 * (a + b))
  {
    hide NeedsSplit;
    assert Halves(path, duration, 0.5 * (a + b), a, b);
  }

  /** An interval that must be split is not admissible, and neither is one that is too short. */
  lemma AdmissibleStaysWhole(path: JointPath, duration: real, a: real, b: real)
    requires Admissible(path, duration, a, b)
    ensures !NeedsSplit(path, duration, a, b) && !((b - a) * duration + EPSILON < MIN_INTERVAL)
  {
    SplitExactly(path, duration, a, b);
    hide SamplePath, NeedsSplit;
  }

  /** A subdivision asks for no stretch if all the intervals it leaves are admissible. */
  lemma {:induction false} SubdivideUnstretched(path: JointPath, duration: real, knots: Knots, a: real, b: real,
                                                depth: nat)
    requires depth <= MAX_DEPTH && 0.0 < duration && a <= b
    requires |knots.amounts| > 0 && knots.amounts[|knots.amounts| - 1] == a
    requires Subdivide(path, duration, knots, a, b, depth).Success?
    requires Stepwise(path, duration, Subdivide(path, duration, knots, a, b, depth).value.amounts,
                      |knots.amounts| - 1, true)
    ensures Subdivide(path, duration, knots, a, b, depth).value.scale == knots.scale
    decreases MAX_DEPTH - depth
  {
    hide NeedsSplit, Admissible, ShortIntervalStretch, Subdivide, Stepwise;
    var extended := Subdivide(path, duration, knots, a, b, depth).value;
    if NeedsSplit(path, duration, a, b) && !(0.5 * ((b - a) * duration) + EPSILON < MIN_INTERVAL) {
      SplitInHalves(path, duration, knots, a, b, depth);
      var middle := 0.5 * (a + b);
      var left := Subdivide(path, duration, knots, a, middle, depth + 1).value;
      SubdivideGrows(path, duration, knots, a, middle, depth + 1);
      SubdivideGrows(path, duration, left, middle, b, depth + 1);
      StepwisePart(path, duration, left.amounts, extended.amounts, |knots.amounts| - 1);
      SubdivideUnstretched(path, duration, knots, a, middle, depth + 1);
      SubdivideUnstretched(path, duration, left, middle, b, depth + 1);
    } else {
      KeptUnstretched(path, duration, knots, a, b, depth);
    }
  }

  lemma KeptUnstretched(path: JointPath, duration: real, knots: Knots, a: real, b: real, depth: nat)
    requires depth <= MAX_DEPTH && |knots.amounts| > 0 && knots.amounts[|knots.amounts| - 1] == a
    requires !NeedsSplit(path, duration, a, b) || 0.5 * ((b - a) * duration) + EPSILON < MIN_INTERVAL
    requires Subdivide(path, duration, knots, a, b, depth).Success?
    requires Stepwise(path, duration, Subdivide(path, duration, knots, a, b, depth).value.amounts,
                      |knots.amounts| - 1, true)
    ensures Subdivide(path, duration, knots, a, b, depth).value.scale == knots.scale
  {
    hide NeedsSplit, Admissible, ShortIntervalStretch;
    var extended := Subdivide(path, duration, knots, a, b, depth).value;
    assert extended.amounts == knots.amounts + [b];
    assert extended.amounts[|knots.amounts|] == b;
    AdmissibleStaysWhole(path, duration, a, b);
  }

  lemma StepwisePart(path: JointPath, duration: real, left: seq<real>, all: seq<real>, from: nat)
    requires |left| <= |all| && left == all[..|left|] && from < |left| && Stepwise(path, duration, all, from, true)
    ensures Stepwise(path, duration, left, from, true) && Stepwise(path, duration, all, |left| - 1, true)
  {
    hide Admissible;
    forall i {:trigger left[i]} | from < i < |left|
      ensures left[i - 1] <= left[i] && Admissible(path, duration, left[i - 1], left[i])
    {
      assert left[i] == all[i] && left[i - 1] == all[i - 1];
    }
  }

  // ---------- Whole timings ----------

  /** The amount is due for a path point, or halves an interval that needed it. */
  ghost predicate Justified(path: JointPath, duration: real, x: real) {
    (exists m: nat :: IsDue(path, x, m)) || Needed(path, duration, x)
  }

  predicate IsDue(path: JointPath, x: real, m: nat) {
    m < |path| && x == MandatoryAmount(|path| - 1, m)
  }

  ghost predicate AllJustified(path: JointPath, duration: real, amounts: seq<real>) {
    forall i :: 0 <= i < |amounts| ==> Justified(path, duration, amounts[i])
  }

  lemma DueIsJustified(path: JointPath, duration: real, m: nat)
    requires m < |path|
    ensures Justified(path, duration, MandatoryAmount(|path| - 1, m))
  {
    hide MandatoryAmount, Needed;
    assert IsDue(path, MandatoryAmount(|path| - 1, m), m);
  }

  lemma SegmentJustified(path: JointPath, duration: real, knots: Knots, segment: nat)
    requires segment < |path| - 1 && 0.0 < duration && AllJustified(path, duration, knots.amounts)
    requires var a, b := MandatoryAmount(|path| - 1, segment), MandatoryAmount(|path| - 1, segment + 1);
             Subdivide(path, duration, knots, a, b, 0).Success?
    ensures var a, b := MandatoryAmount(|path| - 1, segment), MandatoryAmount(|path| - 1, segment + 1);
            AllJustified(path, duration, Subdivide(path, duration, knots, a, b, 0).value.amounts)
  {
    hide Subdivide, MandatoryAmount, Needed;
    MandatoryMonotone(|path| - 1, segment);
    DueIsJustified(path, duration, segment + 1);
    var a, b := MandatoryAmount(|path| - 1, segment), MandatoryAmount(|path| - 1, segment + 1);
    SubdivideGrows(path, duration, knots, a, b, 0);
    SubdivideNeeded(path, duration, knots, a, b, 0);
    var amounts := Subdivide(path, duration, knots, a, b, 0).value.amounts;
    forall i | 0 <= i < |amounts| ensures Justified(path, duration, amounts[i]) {
      if i < |knots.amounts| {
        assert amounts[i] == amounts[..|knots.amounts|][i] == knots.amounts[i];
      } else if i < |amounts| - 1 {
        assert Needed(path, duration, amounts[i]);
      }
    }
  }

  lemma {:induction false} AmountsJustified(path: JointPath, duration: real, knots: Knots, segment: nat)
    requires segment <= |path| - 1 && 0.0 < duration && AllJustified(path, duration, knots.amounts)
    requires SubdivideFrom(path, duration, knots, segment).Success?
    ensures AllJustified(path, duration, SubdivideFrom(path, duration, knots, segment).value.amounts)
    decreases |path| - segment
  {
    hide Subdivide, MandatoryAmount, AllJustified;
    if segment < |path| - 1 {
      var a, b := MandatoryAmount(|path| - 1, segment), MandatoryAmount(|path| - 1, segment + 1);
      SegmentJustified(path, duration, knots, segment);
      AmountsJustified(path, duration, Subdivide(path, duration, knots, a, b, 0).value, segment + 1);
    }
  }

  /** All intervals of an attempt are admissible. */
  lemma {:induction false} UnstretchedFrom(path: JointPath, duration: real, knots: Knots, segment: nat)
    requires segment <= |path| - 1 && 0.0 < duration
    requires |knots.amounts| > 0 && knots.amounts[|knots.amounts| - 1] == MandatoryAmount(|path| - 1, segment)
    requires SubdivideFrom(path, duration, knots, segment).Success?
    requires Stepwise(path, duration, SubdivideFrom(path, duration, knots, segment).value.amounts,
                      |knots.amounts| - 1, true)
    ensures SubdivideFrom(path, duration, knots, segment).value.scale == knots.scale
    decreases |path| - segment
  {
    hide Subdivide, MandatoryAmount, Stepwise;
    if segment < |path| - 1 {
      var a, b := MandatoryAmount(|path| - 1, segment), MandatoryAmount(|path| - 1, segment + 1);
      MandatoryMonotone(|path| - 1, segment);
      var next := Subdivide(path, duration, knots, a, b, 0).value;
      var amounts := SubdivideFrom(path, duration, knots, segment).value.amounts;
      SubdivideGrows(path, duration, knots, a, b, 0);
      KnotsGrow(path, duration, next, segment + 1);
      StepwisePart(path, duration, next.amounts, amounts, |knots.amounts| - 1);
      SubdivideUnstretched(path, duration, knots, a, b, 0);
      UnstretchedFrom(path, duration, next, segment + 1);
    }
  }

  /** The knots of an attempt are all as they have to be. */
  ghost predicate Good(path: JointPath, limits: Limits, duration: real, amounts: seq<real>) {
    && |amounts| >= 2 && Stepwise(path, duration, amounts, 0, true) && TimedAt(path, duration, amounts).Increasing()
    && WithinLimits(TimedAt(path, duration, amounts), limits, SETTLED)
  }

  lemma AttemptKnots(path: JointPath, limits: Limits, sqrt: real -> real, duration: real)
    requires limits.Positive() && Attempt(path, limits, sqrt, duration).Success?
    ensures duration <= MAX_DURATION
    ensures var knots := SubdivideFrom(path, duration, Knots([0.0], 1.0), 0);
            && knots.Success? && |knots.value.amounts| >= 2
            && Attempt(path, limits, sqrt, duration).value.amounts == knots.value.amounts
            && var factor := Factor(TimedAt(path, duration, knots.value.amounts), limits, sqrt);
            && factor.Success?
            && (factor.value <= SETTLED ==> Attempt(path, limits, sqrt, duration).value.scale == knots.value.scale)
  {
    hide SubdivideFrom, Factor, TimedAt;
    KnotsGrow(path, duration, Knots([0.0], 1.0), 0);
  }

  /** An attempt settles exactly if all its intervals and all its speeds and accelerations are as they have to be. */
  lemma SettlesExactly(path: JointPath, limits: Limits, sqrt: real -> real, duration: real)
    requires limits.Positive() && IsSquareRoot(sqrt) && 0.0 < duration
    requires Attempt(path, limits, sqrt, duration).Success?
    ensures var knots := Attempt(path, limits, sqrt, duration).value;
            knots.scale <= SETTLED <==> Good(path, limits, duration, knots.amounts)
  {
    var knots := Attempt(path, limits, sqrt, duration).value;
    AttemptKnots(path, limits, sqrt, duration);
    if knots.scale <= SETTLED {
      AttemptSettled(path, limits, sqrt, duration);
    } else if Good(path, limits, duration, knots.amounts) {
      hide Attempt, SubdivideFrom, Stepwise, WithinLimits, TimedAt, MandatoryAmount;
      assert MandatoryAmount(|path| - 1, 0) == 0.0 by { FirstIsDue(|path| - 1); }
      UnstretchedFrom(path, duration, Knots([0.0], 1.0), 0);
      FactorIsLeast(TimedAt(path, duration, knots.amounts), limits, sqrt, SETTLED);
    }
  }

  lemma FirstIsDue(segments: nat)
    requires 0 < segments
    ensures MandatoryAmount(segments, 0) == 0.0
  {
  }

  /** The timing ends with its first attempt exactly if that one is good; and then lasts the first duration. */
  lemma FirstAttemptSuffices(points: seq<JointPoint>, limits: Limits, sqrt: real -> real)
    requires limits.Positive() && |points| >= 2 && IsSquareRoot(sqrt)
    requires var d := FirstDuration(LargestVariation(points, DOF), limits, sqrt);
             && Attempt(points, limits, sqrt, d).Success?
             && Good(points, limits, d, Attempt(points, limits, sqrt, d).value.amounts)
    ensures var d := FirstDuration(LargestVariation(points, DOF), limits, sqrt);
            Timing(points, limits, sqrt) == Success(TimedAt(points, d, Attempt(points, limits, sqrt, d).value.amounts))
  {
    hide Attempt, Good, FirstDuration, LargestVariation, TimedAt;
    var d := FirstDuration(LargestVariation(points, DOF), limits, sqrt);
    SettlesExactly(points, limits, sqrt, d);
    assert Retry(points, limits, sqrt, d, 0) == Success(TimedAt(points, d, Attempt(points, limits, sqrt, d).value.amounts));
  }

  /** The timed path is a good attempt, every knot of which is due for a path point or needed. */
  ghost predicate Lean(path: JointPath, limits: Limits, timed: TimedPath) {
    exists duration, amounts ::
      timed == TimedAt(path, duration, amounts) && Good(path, limits, duration, amounts)
      && AllJustified(path, duration, amounts)
  }

  lemma {:induction false} RetryLean(path: JointPath, limits: Limits, sqrt: real -> real, duration: real, attempt: nat)
    requires limits.Positive() && IsSquareRoot(sqrt) && attempt <= MAX_ATTEMPTS && 0.0 < duration
    requires Retry(path, limits, sqrt, duration, attempt).Success?
    ensures Lean(path, limits, Retry(path, limits, sqrt, duration, attempt).value)
    decreases MAX_ATTEMPTS - attempt
  {
    hide Attempt, Lean, TimedAt, Stretched, IsSquareRoot;
    var knots := Attempt(path, limits, sqrt, duration).value;
    if knots.scale <= SETTLED {
      AttemptLean(path, limits, sqrt, duration);
    } else {
      AttemptScale(path, limits, sqrt, duration);
      StretchLengthens(duration, knots.scale);
      RetryLean(path, limits, sqrt, Stretched(duration, knots.scale), attempt + 1);
    }
  }

  lemma AttemptLean(path: JointPath, limits: Limits, sqrt: real -> real, duration: real)
    requires limits.Positive() && IsSquareRoot(sqrt) && 0.0 < duration
    requires Attempt(path, limits, sqrt, duration).Success?
    requires Attempt(path, limits, sqrt, duration).value.scale <= SETTLED
    ensures Lean(path, limits, TimedAt(path, duration, Attempt(path, limits, sqrt, duration).value.amounts))
  {
    hide Attempt, Good, AllJustified, TimedAt, SubdivideFrom, Factor, IsSquareRoot;
    AttemptKnots(path, limits, sqrt, duration);
    SettlesExactly(path, limits, sqrt, duration);
    StartJustified(path, duration);
    AmountsJustified(path, duration, Knots([0.0], 1.0), 0);
  }

  lemma AttemptScale(path: JointPath, limits: Limits, sqrt: real -> real, duration: real)
    requires limits.Positive() && Attempt(path, limits, sqrt, duration).Success?
    ensures 1.0 <= Attempt(path, limits, sqrt, duration).value.scale
  {
    hide SubdivideFrom, Factor, TimedAt;
    KnotsGrow(path, duration, Knots([0.0], 1.0), 0);
  }

  lemma StartJustified(path: JointPath, duration: real)
    ensures AllJustified(path, duration, [0.0])
  {
    FirstIsDue(|path| - 1);
    DueIsJustified(path, duration, 0);
  }

  /** No timing has a knot it does not need: each one is due for a path point, or halves an interval that was too long,
      too steep or too bent. */
  lemma TimingIsLean(points: seq<JointPoint>, limits: Limits, sqrt: real -> real)
    requires IsSquareRoot(sqrt) && Timing(points, limits, sqrt).Success?
    ensures |points| >= 2 && Lean(points, limits, Timing(points, limits, sqrt).value)
  {
    hide Lean, Retry, LargestVariation;
    RetryLean(points, limits, sqrt, FirstDuration(LargestVariation(points, DOF), limits, sqrt), 0);
  }

  // ---------- How much longer the next attempt is ----------

  /** The interval between two neighbouring knots was left too short: it should have been split, or is below the least
      interval itself. */
  predicate TooShort(path: JointPath, duration: real, a: real, b: real) {
    var interval := (b - a) * duration;
    if NeedsSplit(path, duration, a, b) then 0.5 * interval + EPSILON < MIN_INTERVAL else interval + EPSILON < MIN_INTERVAL
  }

  /** The stretch that makes such an interval long enough, and one percent more: halves of 4 ms where it has to be split,
      4 ms where not. */
  function Lengthens(path: JointPath, duration: real, a: real, b: real): (stretch: real) {
    var interval := (b - a) * duration;
    Ratio(if NeedsSplit(path, duration, a, b) then 0.008 else 0.004, if interval < EPSILON then EPSILON else interval) * 1.01
  }

  /** The stretch covers every short interval from a knot on, and is that of one of them if it grew. */
  ghost predicate Covers(path: JointPath, duration: real, amounts: seq<real>, from: nat, before: real, scale: real) {
    && (forall i {:trigger amounts[i]} :: from < i < |amounts| && TooShort(path, duration, amounts[i - 1], amounts[i]) ==>
          Lengthens(path, duration, amounts[i - 1], amounts[i]) <= scale)
    && before <= scale
    && (scale == before
        || exists i {:trigger amounts[i]} :: from < i < |amounts| && TooShort(path, duration, amounts[i - 1], amounts[i])
                                             && scale == Lengthens(path, duration, amounts[i - 1], amounts[i]))
  }

  lemma CoversJoin(path: JointPath, duration: real, left: seq<real>, all: seq<real>, from: nat, before: real, middle: real,
                   scale: real)
    requires from < |left| <= |all| && left == all[..|left|]
    requires Covers(path, duration, left, from, before, middle)
    requires Covers(path, duration, all, |left| - 1, middle, scale)
    ensures Covers(path, duration, all, from, before, scale)
  {
    hide TooShort, Lengthens;
    forall i {:trigger all[i]} | from < i < |all| && TooShort(path, duration, all[i - 1], all[i])
      ensures Lengthens(path, duration, all[i - 1], all[i]) <= scale
    {
      if i < |left| {
        assert left[i] == all[i] && left[i - 1] == all[i - 1];
      }
    }
    if scale == middle && middle != before {
      var i :| from < i < |left| && TooShort(path, duration, left[i - 1], left[i])
               && middle == Lengthens(path, duration, left[i - 1], left[i]);
      assert left[i] == all[i] && left[i - 1] == all[i - 1];
    }
  }

  lemma KeptCovers(path: JointPath, duration: real, knots: Knots, a: real, b: real, depth: nat)
    requires depth <= MAX_DEPTH && |knots.amounts| > 0 && knots.amounts[|knots.amounts| - 1] == a
    requires Subdivide(path, duration, knots, a, b, depth).Success?
    requires !NeedsSplit(path, duration, a, b) || 0.5 * ((b - a) * duration) + EPSILON < MIN_INTERVAL
    ensures var extended := Subdivide(path, duration, knots, a, b, depth).value;
            Covers(path, duration, extended.amounts, |knots.amounts| - 1, knots.scale, extended.scale)
  {
    hide NeedsSplit;
    var extended := Subdivide(path, duration, knots, a, b, depth).value;
    assert extended.amounts == knots.amounts + [b];
    var interval := (b - a) * duration;
    assert TooShort(path, duration, a, b) ==> extended.scale == Max(knots.scale, Lengthens(path, duration, a, b)) by {
      hide Ratio;
    }
    hide Subdivide, TooShort, Lengthens;
    assert extended.amounts[|knots.amounts|] == b;
    assert !TooShort(path, duration, a, b) ==> extended.scale == knots.scale by { NotTooShort(path, duration, knots, a, b, depth); }
  }

  lemma NotTooShort(path: JointPath, duration: real, knots: Knots, a: real, b: real, depth: nat)
    requires depth <= MAX_DEPTH && Subdivide(path, duration, knots, a, b, depth).Success?
    requires !NeedsSplit(path, duration, a, b) || 0.5 * ((b - a) * duration) + EPSILON < MIN_INTERVAL
    ensures !TooShort(path, duration, a, b) ==> Subdivide(path, duration, knots, a, b, depth).value.scale == knots.scale
  {
    hide NeedsSplit, ShortIntervalStretch;
  }

  lemma {:induction false} SubdivideCovers(path: JointPath, duration: real, knots: Knots, a: real, b: real, depth: nat)
    requires depth <= MAX_DEPTH && |knots.amounts| > 0 && knots.amounts[|knots.amounts| - 1] == a
    requires Subdivide(path, duration, knots, a, b, depth).Success?
    ensures var extended := Subdivide(path, duration, knots, a, b, depth).value;
            Covers(path, duration, extended.amounts, |knots.amounts| - 1, knots.scale, extended.scale)
    decreases MAX_DEPTH - depth
  {
    hide NeedsSplit, Subdivide, Covers;
    if NeedsSplit(path, duration, a, b) && !(0.5 * ((b - a) * duration) + EPSILON < MIN_INTERVAL) {
      SplitInHalves(path, duration, knots, a, b, depth);
      var middle := 0.5 * (a + b);
      var left := Subdivide(path, duration, knots, a, middle, depth + 1).value;
      var extended := Subdivide(path, duration, left, middle, b, depth + 1).value;
      SubdivideGrows(path, duration, knots, a, middle, depth + 1);
      SubdivideGrows(path, duration, left, middle, b, depth + 1);
      SubdivideCovers(path, duration, knots, a, middle, depth + 1);
      SubdivideCovers(path, duration, left, middle, b, depth + 1);
      CoversJoin(path, duration, left.amounts, extended.amounts, |knots.amounts| - 1, knots.scale, left.scale,
                 extended.scale);
    } else {
      KeptCovers(path, duration, knots, a, b, depth);
    }
  }

  lemma {:induction false} KnotsCover(path: JointPath, duration: real, knots: Knots, segment: nat)
    requires segment <= |path| - 1
    requires |knots.amounts| > 0 && knots.amounts[|knots.amounts| - 1] == MandatoryAmount(|path| - 1, segment)
    requires SubdivideFrom(path, duration, knots, segment).Success?
    ensures var extended := SubdivideFrom(path, duration, knots, segment).value;
            Covers(path, duration, extended.amounts, |knots.amounts| - 1, knots.scale, extended.scale)
    decreases |path| - segment
  {
    hide Subdivide, MandatoryAmount, TooShort, Lengthens;
    if segment < |path| - 1 {
      var a, b := MandatoryAmount(|path| - 1, segment), MandatoryAmount(|path| - 1, segment + 1);
      var next := Subdivide(path, duration, knots, a, b, 0).value;
      var extended := SubdivideFrom(path, duration, next, segment + 1).value;
      assert extended == SubdivideFrom(path, duration, knots, segment).value;
      hide Covers, SubdivideFrom;
      SubdivideGrows(path, duration, knots, a, b, 0);
      SubdivideCovers(path, duration, knots, a, b, 0);
      KnotsGrow(path, duration, next, segment + 1);
      KnotsCover(path, duration, next, segment + 1);
      CoversJoin(path, duration, next.amounts, extended.amounts, |knots.amounts| - 1, knots.scale, next.scale,
                 extended.scale);
    }
  }

  /** An attempt asks for the largest of one, the stretches of its short intervals, and, where speeds or accelerations are
      too large, one percent more than the slow-down they need. */
  lemma AttemptAsks(path: JointPath, limits: Limits, sqrt: real -> real, duration: real)
    requires limits.Positive() && Attempt(path, limits, sqrt, duration).Success?
    ensures var knots := Attempt(path, limits, sqrt, duration).value;
            && |knots.amounts| >= 2
            && var factor := Factor(TimedAt(path, duration, knots.amounts), limits, sqrt);
            && factor.Success?
            && exists spacing :: Covers(path, duration, knots.amounts, 0, 1.0, spacing)
                                 && knots.scale == if SETTLED < factor.value then Max(spacing, factor.value * 1.01) else spacing
  {
    hide SubdivideFrom, Factor, TimedAt, MandatoryAmount, Covers;
    KnotsGrow(path, duration, Knots([0.0], 1.0), 0);
    assert MandatoryAmount(|path| - 1, 0) == 0.0 by { FirstIsDue(|path| - 1); }
    KnotsCover(path, duration, Knots([0.0], 1.0), 0);
    var spacing := SubdivideFrom(path, duration, Knots([0.0], 1.0), 0).value.scale;
    assert Covers(path, duration, Attempt(path, limits, sqrt, duration).value.amounts, 0, 1.0, spacing);
  }

  /** A stretched interval reaches what it lacks. */
  lemma LengthensEnough(path: JointPath, duration: real, a: real, b: real)
    requires EPSILON <= (b - a) * duration
    ensures (b - a) * duration * Lengthens(path, duration, a, b)
         == 1.01 * (if NeedsSplit(path, duration, a, b) then 0.008 else 0.004)
  {
    hide NeedsSplit;
    var interval := (b - a) * duration;
    DivMul(if NeedsSplit(path, duration, a, b) then 0.008 else 0.004, interval);
  }

  // ---------- Which attempt is returned ----------

  /** An attempt did not settle, and asks for that duration next. */
  predicate Unsettled(path: JointPath, limits: Limits, sqrt: real -> real, duration: real, next: real)
    requires limits.Positive()
  {
    var before := Attempt(path, limits, sqrt, duration);
    before.Success? && SETTLED < before.value.scale && next == duration * before.value.scale
  }

  /** The attempts follow one another: each unsettled one makes the next longer by what it asks for. */
  ghost predicate Attempts(path: JointPath, limits: Limits, sqrt: real -> real, durations: seq<real>)
    requires limits.Positive()
  {
    forall i {:trigger durations[i]} :: 0 < i < |durations| ==>
      Unsettled(path, limits, sqrt, durations[i - 1], durations[i])
  }

  lemma AttemptsExtend(path: JointPath, limits: Limits, sqrt: real -> real, duration: real, rest: seq<real>)
    requires limits.Positive() && |rest| > 0 && Attempts(path, limits, sqrt, rest)
    requires Unsettled(path, limits, sqrt, duration, rest[0])
    ensures Attempts(path, limits, sqrt, [duration] + rest)
  {
    hide Unsettled;
    var all := [duration] + rest;
    forall i {:trigger all[i]} | 0 < i < |all|
      ensures Unsettled(path, limits, sqrt, all[i - 1], all[i])
    {
      assert all[i] == rest[i - 1];
      if i > 1 {
        assert all[i - 1] == rest[i - 2];
      }
    }
  }

  lemma {:induction false} RetryReturns(path: JointPath, limits: Limits, sqrt: real -> real, duration: real, attempt: nat)
    returns (durations: seq<real>)
    requires limits.Positive() && attempt <= MAX_ATTEMPTS && Retry(path, limits, sqrt, duration, attempt).Success?
    ensures 0 < |durations| <= MAX_ATTEMPTS - attempt && durations[0] == duration
    ensures Attempts(path, limits, sqrt, durations)
    ensures var last := Attempt(path, limits, sqrt, durations[|durations| - 1]);
            && last.Success? && last.value.scale <= SETTLED
            && Retry(path, limits, sqrt, duration, attempt)
               == Success(TimedAt(path, durations[|durations| - 1], last.value.amounts))
    decreases MAX_ATTEMPTS - attempt
  {
    hide Attempt, TimedAt;
    var knots := Attempt(path, limits, sqrt, duration).value;
    if knots.scale <= SETTLED {
      durations := [duration];
    } else {
      hide Attempts;
      var rest := RetryReturns(path, limits, sqrt, Stretched(duration, knots.scale), attempt + 1);
      AttemptsExtend(path, limits, sqrt, duration, rest);
      durations := [duration] + rest;
    }
  }

  /** What is returned is the first settled attempt, of at most twenty that start at the first duration. */
  lemma FirstSettledIsReturned(points: seq<JointPoint>, limits: Limits, sqrt: real -> real) returns (durations: seq<real>)
    requires Timing(points, limits, sqrt).Success?
    ensures |points| >= 2 && limits.Positive()
    ensures 0 < |durations| <= 20 && durations[0] == FirstDuration(LargestVariation(points, DOF), limits, sqrt)
    ensures Attempts(points, limits, sqrt, durations)
    ensures var last := Attempt(points, limits, sqrt, durations[|durations| - 1]);
            && last.Success? && last.value.scale <= SETTLED
            && Timing(points, limits, sqrt) == Success(TimedAt(points, durations[|durations| - 1], last.value.amounts))
  {
    hide Retry, Attempt, TimedAt, Attempts, LargestVariation;
    durations := RetryReturns(points, limits, sqrt, FirstDuration(LargestVariation(points, DOF), limits, sqrt), 0);
  }
}
