/** Two pieces that stop and start within the acceleration limit, joined in one that exceeds it: the limit of a
    piecewise plan doubles at a control point (runtime/src/product_cartesian.cpp). */
module JunctionExample {
  import opened RealArithmetic
  import opened Results
  import opened QuinticProgress
  import opened CartesianPath
  import opened StretchFactor
  import opened CartesianTiming
  import opened CartesianTimingProperties
  import opened CartesianApproach
  import opened CartesianApproachProperties

  const TRAVEL: real := 0.001
  const GENTLE: Limits := Limits(1.0, 0.6)
  const SHORTEST: real := 0.1
  const TINY: real := 0.000000000001

  /** All motors at one position. */
  function Uniform(x: real): JointPoint {
    [x, x, x, x, x, x, x, x, x, x, x, x, x, x]
  }

  /** Out after a stretch at rest, and back into a stretch at rest. */
  function OutAndBack(): seq<JointPoint> {
    [Uniform(0.0), Uniform(0.0), Uniform(TRAVEL), Uniform(0.0), Uniform(0.0)]
  }

  /** Three points, no motor travelling further than TRAVEL between them. */
  ghost predicate Short(path: seq<JointPoint>) {
    |path| == 3 && forall j :: 0 <= j < DOF ==> Abs(path[1][j] - path[0][j]) + Abs(path[2][j] - path[1][j]) <= TRAVEL
  }

  // ---------- The knots of a short path ----------

  function Middle(): real {
    MandatoryAmount(2, 1)
  }

  lemma MiddleIsHalf()
    ensures Abs(Middle() - 0.5) <= TINY && Abs(Progress(Middle()) - 0.5) <= TINY
  {
    assert Ratio(1.0, 2.0) == 0.5 && Progress(0.5) == 0.5;
    LastHalvingIsSmall();
    assert HalfPower(61) == 0.5 * HalfPower(HALVINGS);
    hide Progress, HalfPower, Inverse, Ratio;
    InverseInverts(0.5);
    InverseRecovers(0.5);
  }

  lemma BlendNearStart(from: real, to: real, u: real)
    requires 0.0 <= u <= 2.0 * TINY && Abs(to - from) <= TRAVEL
    ensures Abs(Blend(from, to, u) - from) <= TINY
  {
    var d := to - from;
    MulMonotone(-0.001, d, u);
    MulMonotone(d, 0.001, u);
    assert d * u <= 0.001 * u <= TINY;
    assert -TINY <= -0.001 * u <= d * u;
    assert Blend(from, to, u) - from == u * d;
  }

  lemma BlendNearEnd(from: real, to: real, u: real)
    requires 1.0 - 2.0 * TINY <= u <= 1.0 && Abs(to - from) <= TRAVEL
    ensures Abs(Blend(from, to, u) - to) <= TINY
  {
    BlendNearStart(to, from, 1.0 - u);
    assert Blend(from, to, u) == Blend(to, from, 1.0 - u);
  }

  /** The middle knot stands next to the middle point. */
  lemma MiddleSample(path: seq<JointPoint>, j: nat)
    requires Short(path) && j < DOF
    ensures Abs(SamplePath(path, Middle())[j] - path[1][j]) <= TINY
  {
    MiddleIsHalf();
    hide Progress, MandatoryAmount;
    var m := Middle();
    var position := PathPosition(path, m);
    assert position == Progress(m) * 2.0;
    if position < 1.0 {
      assert LowerIndex(path, m) == 0;
      BlendNearEnd(path[0][j], path[1][j], position);
    } else {
      assert LowerIndex(path, m) == 1;
      BlendNearStart(path[1][j], path[2][j], position - 1.0);
    }
  }

  lemma SampleInBox(path: seq<JointPoint>, amount: real, j: nat)
    requires Short(path) && j < DOF
    ensures var low := Min(path[0][j], Min(path[1][j], path[2][j]));
            low <= SamplePath(path, amount)[j] <= low + TRAVEL
  {
    hide SamplePath;
    var low := Min(path[0][j], Min(path[1][j], path[2][j]));
    SampleStaysInBox(path, amount, j, low, low + TRAVEL);
  }

  lemma {:induction false} StepWithin(start: JointPoint, end: JointPoint, n: nat, bound: real)
    requires n <= DOF && 0.0 <= bound && forall j :: 0 <= j < n ==> Abs(end[j] - start[j]) <= bound
    ensures LargestStep(start, end, n) <= bound
  {
    if n > 0 {
      StepWithin(start, end, n - 1, bound);
    }
  }

  lemma {:induction false} BulgeWithin(start: JointPoint, middle: JointPoint, end: JointPoint, n: nat, bound: real)
    requires n <= DOF && 0.0 <= bound
    requires forall j :: 0 <= j < n ==> Abs(middle[j] - 0.5 * (start[j] + end[j])) <= bound
    ensures LargestBulge(start, middle, end, n) <= bound
  {
    if n > 0 {
      BulgeWithin(start, middle, end, n - 1, bound);
    }
  }

  lemma NotSplit(path: seq<JointPoint>, a: real, b: real)
    requires Short(path) && (b - a) * SHORTEST <= MAX_INTERVAL + EPSILON
    ensures !NeedsSplit(path, SHORTEST, a, b)
  {
    assert |path| == 3;
    hide SamplePath, Short;
    var start, middle, end := SamplePath(path, a), SamplePath(path, 0.5 * (a + b)), SamplePath(path, b);
    forall j | 0 <= j < DOF
      ensures Abs(end[j] - start[j]) <= TRAVEL && Abs(middle[j] - 0.5 * (start[j] + end[j])) <= TRAVEL
    {
      SampleInBox(path, a, j);
      SampleInBox(path, 0.5 * (a + b), j);
      SampleInBox(path, b, j);
    }
    StepWithin(start, end, DOF, TRAVEL);
    BulgeWithin(start, middle, end, DOF, TRAVEL);
  }

  lemma Kept(path: seq<JointPoint>, knots: Knots, a: real, b: real)
    requires Short(path) && |knots.amounts| <= 2 && MIN_INTERVAL <= (b - a) * SHORTEST <= MAX_INTERVAL + EPSILON
    ensures Subdivide(path, SHORTEST, knots, a, b, 0) == Success(knots.Append(b))
  {
    NotSplit(path, a, b);
    hide Short, NeedsSplit;
  }

  /** A short path gets one knot for each of its points. */
  lemma ShortKnots(path: seq<JointPoint>)
    requires Short(path)
    ensures SubdivideFrom(path, SHORTEST, Knots([0.0], 1.0), 0) == Success(Knots([0.0, Middle(), 1.0], 1.0))
  {
    MiddleIsHalf();
    assert MandatoryAmount(2, 0) == 0.0 && MandatoryAmount(2, 2) == 1.0;
    var m := Middle();
    var first, second, third := Knots([0.0], 1.0), Knots([0.0, m], 1.0), Knots([0.0, m, 1.0], 1.0);
    assert |path| == 3;
    hide Short, Subdivide, MandatoryAmount, Progress;
    Kept(path, first, 0.0, m);
    Kept(path, second, m, 1.0);
    assert first.Append(m) == second && second.Append(1.0) == third;
    assert SubdivideFrom(path, SHORTEST, third, 2) == Success(third);
    assert SubdivideFrom(path, SHORTEST, second, 1) == Success(third);
  }

  /** The timed knots of a short path. */
  function ShortTimed(path: seq<JointPoint>): TimedPath
    requires |path| == 3
  {
    TimedAt(path, SHORTEST, [0.0, Middle(), 1.0])
  }

  /** Knots half of SHORTEST apart, each next to its point. */
  ghost predicate Near(path: seq<JointPoint>, timed: TimedPath) {
    && |path| == 3 && |timed.points| == 3 && |timed.timestamps| == 3
    && timed.timestamps[0] == 0.0 && Abs(timed.timestamps[1] - 0.05) <= TINY && timed.timestamps[2] == SHORTEST
    && timed.points[0] == path[0] && timed.points[2] == path[2]
    && forall j :: 0 <= j < DOF ==> Abs(timed.points[1][j] - path[1][j]) <= TINY
  }

  lemma ShortNear(path: seq<JointPoint>)
    requires Short(path)
    ensures Near(path, ShortTimed(path))
  {
    MiddleIsHalf();
    SampleEnds(path);
    hide Short, SamplePath, MandatoryAmount, Progress;
    var timed := ShortTimed(path);
    forall j | 0 <= j < DOF ensures Abs(timed.points[1][j] - path[1][j]) <= TINY {
      MiddleSample(path, j);
    }
  }

  // ---------- Their demands ----------

  lemma SpeedWithin(timed: TimedPath, k: nat, j: nat, travel: real)
    requires timed.Ends(k) && j < DOF && timed.Interval(k) >= 0.0499
    requires Abs(timed.points[k][j] - timed.points[k - 1][j]) <= travel
    ensures Abs(timed.Velocity(k, j)) <= 20.05 * travel
  {
    var step := timed.points[k][j] - timed.points[k - 1][j];
    hide Ratio, Abs;
    MulMonotone(0.0499, timed.Interval(k), 20.05 * travel);
    AbsRatio(step, timed.Interval(k), 20.05 * travel);
  }

  lemma ChangeWithin(v: real, d: real, bound: real)
    requires 0.0499 <= d && Abs(v) <= bound * 0.0499
    ensures Abs(Ratio(v, d)) <= bound
  {
    hide Ratio;
    MulMonotone(0.0499, d, bound);
    AbsRatio(v, d, bound);
  }

  ghost predicate Gentle(timed: TimedPath, j: nat)
    requires timed.Ends(2) && timed.Ends(1) && j < DOF && |timed.points| == 3
  {
    && Abs(timed.Velocity(1, j)) <= 1.0 && Abs(timed.Velocity(2, j)) <= 1.0
    && Abs(timed.Acceleration(1, j)) <= 0.6 && Abs(timed.Acceleration(2, j)) <= 0.6
    && Abs(timed.StoppingAcceleration(j)) <= 0.6
  }

  lemma ShortIsGentle(path: seq<JointPoint>, timed: TimedPath, j: nat)
    requires Short(path) && Near(path, timed) && j < DOF
    ensures timed.Shaped() && timed.Increasing() && Gentle(timed, j)
  {
    var first, second := Abs(path[1][j] - path[0][j]) + TINY, Abs(path[2][j] - path[1][j]) + TINY;
    hide Ratio;
    SpeedWithin(timed, 1, j, first);
    SpeedWithin(timed, 2, j, second);
    var v, v' := timed.Velocity(1, j), timed.Velocity(2, j);
    hide TimedPath.Velocity;
    ChangeWithin(v, timed.Interval(1), 0.6);
    ChangeWithin(v' - v, timed.AccelerationInterval(2), 0.6);
    ChangeWithin(v', timed.Interval(2), 0.6);
    assert v - 0.0 == v;
  }

  lemma RootAtMostOne(sqrt: real -> real, x: real)
    requires IsSquareRoot(sqrt) && 0.0 <= x <= 1.0
    ensures sqrt(x) <= 1.0
  {
    var root := sqrt(x);
    assert 0.0 <= root && root * root == x;
  }

  lemma DemandAtMostOne(sqrt: real -> real, x: real, limit: real)
    requires IsSquareRoot(sqrt) && 0.0 < limit && Abs(x) <= limit
    ensures Ratio(Abs(x), limit) <= 1.0 && sqrt(Ratio(Abs(x), limit)) <= 1.0
  {
    RatioMonotone(Abs(x), limit, limit);
    RatioNonNegative(Abs(x), limit);
    RootAtMostOne(sqrt, Ratio(Abs(x), limit));
  }

  lemma {:induction false} DemandsSettled(timed: TimedPath, sqrt: real -> real, k: nat, joints: nat)
    requires IsSquareRoot(sqrt) && timed.Shaped() && timed.Increasing() && |timed.points| == 3 && joints <= DOF
    requires 1 <= k <= 3 && (joints > 0 ==> k < 3) && forall j :: 0 <= j < DOF ==> Gentle(timed, j)
    ensures DemandUpTo(timed, GENTLE, sqrt, k, joints) <= 1.0
    decreases k, joints
  {
    hide IsSquareRoot, Ratio;
    hide TimedPath.Velocity, TimedPath.Acceleration, TimedPath.StoppingAcceleration;
    if joints > 0 {
      DemandsSettled(timed, sqrt, k, joints - 1);
      assert Gentle(timed, joints - 1);
      DemandAtMostOne(sqrt, timed.Velocity(k, joints - 1), GENTLE.velocity);
      DemandAtMostOne(sqrt, timed.Acceleration(k, joints - 1), GENTLE.acceleration);
    } else if k > 1 {
      DemandsSettled(timed, sqrt, k - 1, DOF);
    }
  }

  lemma {:induction false} StopsSettled(timed: TimedPath, sqrt: real -> real, joints: nat)
    requires IsSquareRoot(sqrt) && timed.Shaped() && timed.Increasing() && |timed.points| == 3 && joints <= DOF
    requires forall j :: 0 <= j < DOF ==> Gentle(timed, j)
    ensures StoppingUpTo(timed, GENTLE, sqrt, joints) <= 1.0
  {
    hide IsSquareRoot, Ratio, DemandUpTo;
    hide TimedPath.Velocity, TimedPath.Acceleration, TimedPath.StoppingAcceleration;
    if joints > 0 {
      StopsSettled(timed, sqrt, joints - 1);
      assert Gentle(timed, joints - 1);
      DemandAtMostOne(sqrt, timed.StoppingAcceleration(joints - 1), GENTLE.acceleration);
    } else {
      DemandsSettled(timed, sqrt, 3, 0);
    }
  }

  // ---------- Their timing ----------

  lemma {:induction false} VariationWithin(path: seq<JointPoint>, joints: nat)
    requires Short(path) && joints <= DOF
    ensures 0.0 <= LargestVariation(path, joints) <= TRAVEL
  {
    if joints > 0 {
      VariationWithin(path, joints - 1);
      var j := joints - 1;
      assert Variation(path, j, 2) == Variation(path, j, 1) + Abs(path[1][j] - path[0][j]);
      assert Variation(path, j, 3) == Variation(path, j, 2) + Abs(path[2][j] - path[1][j]);
    }
  }

  lemma ShortDuration(path: seq<JointPoint>, sqrt: real -> real)
    requires Short(path) && IsSquareRoot(sqrt)
    ensures FirstDuration(LargestVariation(path, DOF), GENTLE, sqrt) == SHORTEST
  {
    VariationWithin(path, DOF);
    hide LargestVariation;
    var variation := LargestVariation(path, DOF);
    var root := sqrt(Ratio(6.0 * variation, GENTLE.acceleration));
    assert Ratio(6.0 * variation, GENTLE.acceleration) <= 0.01;
    assert 0.0 <= root && root * root <= 0.01;
    assert root <= 0.1;
  }

  lemma ShortSettles(path: seq<JointPoint>, sqrt: real -> real)
    requires Short(path) && IsSquareRoot(sqrt)
    ensures ShortTimed(path).Shaped() && ShortTimed(path).Increasing()
    ensures StoppingUpTo(ShortTimed(path), GENTLE, sqrt, DOF) <= 1.0
  {
    ShortNear(path);
    var timed := ShortTimed(path);
    hide ShortTimed, Short, Gentle, StoppingUpTo, IsSquareRoot;
    forall j | 0 <= j < DOF ensures timed.Shaped() && timed.Increasing() && Gentle(timed, j) {
      ShortIsGentle(path, timed, j);
    }
    StopsSettled(timed, sqrt, DOF);
  }

  lemma ShortAttempt(path: seq<JointPoint>, sqrt: real -> real)
    requires Short(path) && IsSquareRoot(sqrt)
    ensures Attempt(path, GENTLE, sqrt, SHORTEST) == Success(Knots([0.0, Middle(), 1.0], 1.0))
  {
    ShortKnots(path);
    ShortSettles(path, sqrt);
    hide TimedAt, SubdivideFrom, StoppingUpTo, IsSquareRoot, Middle;
  }

  /** A short path settles at once: a tenth of a second, a knot for each point. */
  lemma ShortTiming(path: seq<JointPoint>, sqrt: real -> real)
    requires Short(path) && IsSquareRoot(sqrt)
    ensures Timing(path, GENTLE, sqrt) == Success(ShortTimed(path))
  {
    assert |path| == 3;
    hide Attempt, TimedAt, IsSquareRoot, FirstDuration, LargestVariation, Middle, Short;
    ShortDuration(path, sqrt);
    ShortAttempt(path, sqrt);
  }

  // ---------- The joint ----------

  function Out(): (path: seq<JointPoint>) {
    Geometry(OutAndBack(), 0, 2)
  }

  function Back(): (path: seq<JointPoint>) {
    Geometry(OutAndBack(), 2, 4)
  }

  lemma OutAndBackAreShort()
    ensures Short(Out()) && Out() == [Uniform(0.0), Uniform(0.0), Uniform(TRAVEL)]
    ensures Short(Back()) && Back() == [Uniform(TRAVEL), Uniform(0.0), Uniform(0.0)]
  {
  }

  lemma TwoPieces(path: seq<JointPoint>, indices: seq<nat>, limits: Limits, sqrt: real -> real, head: TimedPath,
                  piece: TimedPath)
    requires |indices| == 3 && ControlPoints(path, indices) && OnPath(path, indices)
    requires Piece(path, indices[0], indices[1], limits, sqrt) == Success(head)
    requires Piece(path, indices[1], indices[2], limits, sqrt) == Success(piece)
    requires head.Shaped() && piece.Shaped() && |head.points| == 3 == |piece.points|
    ensures PiecewiseTiming(path, indices, limits, sqrt) == Success(Join(head, piece))
  {
    hide Piece, Join;
    assert Pieces(path, indices, limits, sqrt, 1) == Success(head);
  }

  lemma OutAndBackPieces(sqrt: real -> real)
    requires IsSquareRoot(sqrt)
    ensures Piece(OutAndBack(), 0, 2, GENTLE, sqrt) == Success(ShortTimed(Out()))
    ensures Piece(OutAndBack(), 2, 4, GENTLE, sqrt) == Success(ShortTimed(Back()))
  {
    OutAndBackAreShort();
    hide Short, ShortTimed, Timing, IsSquareRoot, OutAndBack;
    ShortTiming(Out(), sqrt);
    ShortTiming(Back(), sqrt);
  }

  lemma SlopeAtLeast(x: real, d: real, low: real)
    requires 0.0 < low && 0.0 < d && low * d <= x
    ensures low <= Ratio(x, d)
  {
    if Ratio(x, d) < low {
      DivMul(x, d);
      MulStrictlyMonotone(Ratio(x, d), low, d);
    }
  }

  lemma NegatedRatio(x: real, d: real)
    requires 0.0 < d
    ensures Ratio(-x, d) == -Ratio(x, d)
  {
  }

  /** Both pieces move at two hundredths a second next to the joint, in opposite directions. */
  lemma TurnsRound(j: nat)
    requires j < DOF
    ensures |Out()| == 3 == |Back()| && ShortTimed(Out()).Shaped() && ShortTimed(Back()).Shaped()
    ensures var joined := Join(ShortTimed(Out()), ShortTimed(Back()));
            joined.Ends(3) && Abs(joined.Acceleration(3, j)) > 0.72
  {
    OutAndBackAreShort();
    assert Out()[1][j] == 0.0 == Back()[1][j] && Out()[2][j] == TRAVEL == Back()[0][j];
    hide Short, ShortTimed, Out, Back, Join, Ratio;
    ShortNear(Out());
    ShortNear(Back());
    NearsTurn(Out(), Back(), ShortTimed(Out()), ShortTimed(Back()), j);
  }

  lemma NearsTurn(out: seq<JointPoint>, back: seq<JointPoint>, head: TimedPath, piece: TimedPath, j: nat)
    requires j < DOF && Near(out, head) && Near(back, piece) && out[2] == back[0]
    requires out[1][j] == 0.0 == back[1][j] && out[2][j] == TRAVEL
    ensures head.Shaped() && piece.Shaped() && Join(head, piece).Ends(3)
    ensures Abs(Join(head, piece).Acceleration(3, j)) > 0.72
  {
    assert head.Ends(2) && piece.Ends(1);
    assert 0.0499 <= head.Interval(2) <= 0.0501 && 0.0499 <= piece.Interval(1) <= 0.0501;
    assert head.points[2] == piece.points[0];
    assert head.points[2][j] - head.points[1][j] >= 0.00099 && piece.points[0][j] - piece.points[1][j] >= 0.00099;
    assert head.Increasing() && piece.Increasing();
    hide Near, Join, Ratio;
    hide TimedPath.Velocity, TimedPath.Interval;
    AccelerationInside(head, piece, 3, j);
    TurnsFast(head, piece, j);
  }

  lemma TurnsFast(head: TimedPath, piece: TimedPath, j: nat)
    requires j < DOF && head.Ends(2) && piece.Ends(1)
    requires 0.0499 <= head.Interval(2) <= 0.0501 && 0.0499 <= piece.Interval(1) <= 0.0501
    requires head.points[2][j] - head.points[1][j] >= 0.00099
    requires piece.points[0][j] - piece.points[1][j] >= 0.00099
    ensures Ratio(piece.Velocity(1, j) - head.Velocity(2, j), 0.5 * (piece.Interval(1) + head.Interval(2))) < -0.72
  {
    var v, v', d := head.Velocity(2, j), piece.Velocity(1, j), 0.5 * (piece.Interval(1) + head.Interval(2));
    SlopeAtLeast(head.points[2][j] - head.points[1][j], head.Interval(2), 0.0195);
    SlopeAtLeast(piece.points[0][j] - piece.points[1][j], piece.Interval(1), 0.0195);
    NegatedRatio(piece.points[0][j] - piece.points[1][j], piece.Interval(1));
    SlopeAtLeast(v - v', d, 0.75);
    NegatedRatio(v - v', d);
  }

  lemma FastKnot(timed: TimedPath)
    requires timed.Ends(3) && Abs(timed.Acceleration(3, 0)) > 0.72
    ensures !KnotWithin(timed, GENTLE, {}, 3)
  {
    hide TimedPath.Acceleration, TimedPath.Velocity, TimedPath.Interval;
  }

  function TurnIndices(): (indices: seq<nat>)
    ensures OnPath(OutAndBack(), indices) && ControlPoints(OutAndBack(), indices) && |indices| == 3
  {
    [0, 2, 4]
  }

  function OutAndBackTimed(): TimedPath {
    OutAndBackAreShort();
    Join(ShortTimed(Out()), ShortTimed(Back()))
  }

  lemma OutAndBackTiming(sqrt: real -> real)
    requires IsSquareRoot(sqrt)
    ensures PiecewiseTiming(OutAndBack(), TurnIndices(), GENTLE, sqrt) == Success(OutAndBackTimed())
  {
    var indices := TurnIndices();
    OutAndBackAreShort();
    var head, piece := ShortTimed(Out()), ShortTimed(Back());
    assert |head.points| == 3 == |piece.points|;
    hide OutAndBack, Out, Back, Short, ShortTimed, IsSquareRoot, Piece, Join, PiecewiseTiming;
    OutAndBackPieces(sqrt);
    TwoPieces(OutAndBack(), indices, GENTLE, sqrt, head, piece);
  }

  /** Knot 3 leaves the joint faster than the limit allows. */
  ghost predicate TooFast(timed: TimedPath) {
    && timed.Ends(3) && !KnotWithin(timed, GENTLE, {}, 3)
    && forall j :: 0 <= j < DOF ==> Abs(timed.Acceleration(3, j)) > 1.2 * GENTLE.acceleration
  }

  lemma OutAndBackIsTooFast()
    ensures TooFast(OutAndBackTimed())
  {
    OutAndBackAreShort();
    hide Out, Back, Short, ShortTimed, Join, KnotWithin, Abs;
    hide TimedPath.Acceleration, TimedPath.Velocity, TimedPath.Interval;
    var timed := OutAndBackTimed();
    forall j | 0 <= j < DOF ensures timed.Ends(3) && Abs(timed.Acceleration(3, j)) > 0.72 {
      TurnsRound(j);
    }
    TurnsRound(0);
    FastKnot(timed);
  }

  /** At the control point the joined path turns round within one interval: each motor changes speed by more than
      1.2 times the limit, which neither piece exceeds. */
  lemma JointExceedsLimit(sqrt: real -> real)
    requires IsSquareRoot(sqrt)
    ensures PiecewiseTiming(OutAndBack(), TurnIndices(), GENTLE, sqrt).Success?
    ensures TooFast(PiecewiseTiming(OutAndBack(), TurnIndices(), GENTLE, sqrt).value)
  {
    hide OutAndBack, TurnIndices, OutAndBackTimed, PiecewiseTiming, TooFast, IsSquareRoot;
    OutAndBackTiming(sqrt);
    OutAndBackIsTooFast();
  }
}
