/** Polynomial segments between trajectory waypoints: their coefficients, how they are sampled,
    and the limit check on their extrema (runtime/src/runtime_trajectory.cpp). */
module TrajectorySegments {
  import opened RealArithmetic
  import opened Results
  import opened PolynomialRoots

  const LIMIT_TOLERANCE: real := 0.000001

  /** Coefficients over the normalised time of a segment, the constant one first. */
  type Coefficients = c: seq<real> | |c| == 6 witness [0.0, 0.0, 0.0, 0.0, 0.0, 0.0]

  /** Position, velocity and acceleration of a joint. */
  datatype Kinematics = Kinematics(position: real, velocity: real, acceleration: real)

  function QuinticCoefficients(from: Kinematics, to: Kinematics, duration: real): Coefficients {
    var c0, c1, c2 := from.position, from.velocity * duration, 0.5 * from.acceleration * duration * duration;
    var deltaPosition := to.position - (c0 + c1 + c2);
    var deltaVelocity := to.velocity * duration - (c1 + 2.0 * c2);
    var deltaAcceleration := to.acceleration * duration * duration - 2.0 * c2;
    [c0, c1, c2,
     10.0 * deltaPosition - 4.0 * deltaVelocity + 0.5 * deltaAcceleration,
     -15.0 * deltaPosition + 7.0 * deltaVelocity - deltaAcceleration,
     6.0 * deltaPosition - 3.0 * deltaVelocity + 0.5 * deltaAcceleration]
  }

  function LinearCoefficients(from: real, to: real): Coefficients {
    [from, to - from, 0.0, 0.0, 0.0, 0.0]
  }

  // ---------- Sampling ----------

  function Position(c: Coefficients, u: real): real {
    Evaluate(c, u)
  }

  function Velocity(c: Coefficients, u: real, duration: real): real
    requires 0.0 < duration
  {
    Ratio(Evaluate(Derivative(c), u), duration)
  }

  function Acceleration(c: Coefficients, u: real, duration: real): real
    requires 0.0 < duration
  {
    Ratio(Evaluate(Derivative(Derivative(c)), u), Product(duration, duration))
  }

  function Sampled(c: Coefficients, u: real, duration: real): Kinematics
    requires 0.0 < duration
  {
    Kinematics(Position(c, u), Velocity(c, u, duration), Acceleration(c, u, duration))
  }

  lemma DerivativeTail(p: Polynomial, i: nat)
    requires i < |p| - 1
    ensures Derivative(p)[i] == Scaled(i + 1, p[i + 1]) && Derivative(p)[i..][1..] == Derivative(p)[i + 1..]
  {
  }

  method SamplePolynomial(c: Coefficients, u: real) returns (value: real)
    ensures value == Position(c, u)
  {
    value := HornerEvaluate(c, u);
  }

  method SampleVelocity(c: Coefficients, u: real, duration: real) returns (velocity: real)
    requires 0.0 < duration
    ensures velocity == Velocity(c, u, duration)
  {
    hide Derivative, Ratio;
    var d := Derivative(c);
    var value, index := 0.0, 5;
    while index >= 1
      invariant 0 <= index <= 5
      invariant value == Evaluate(d[index..], u)
    {
      DerivativeTail(c, index - 1);
      value := value * u + index as real * c[index];
      index := index - 1;
    }
    return Ratio(value, duration);
  }

  method SampleAcceleration(c: Coefficients, u: real, duration: real) returns (acceleration: real)
    requires 0.0 < duration
    ensures acceleration == Acceleration(c, u, duration)
  {
    hide Derivative, Ratio;
    var d := Derivative(Derivative(c));
    var value, index := 0.0, 5;
    while index >= 2
      invariant 1 <= index <= 5
      invariant value == Evaluate(d[index - 1..], u)
    {
      DerivativeTail(c, index - 1);
      DerivativeTail(Derivative(c), index - 2);
      ScaledTwice(index, c[index]);
      value := value * u + (index * (index - 1)) as real * c[index];
      index := index - 1;
    }
    return Ratio(value, Product(duration, duration));
  }

  lemma ScaledTwice(index: nat, c: real)
    requires 2 <= index <= 5
    ensures Scaled(index - 1, Scaled(index, c)) == (index * (index - 1)) as real * c
  {
  }

  // ---------- Limits on the extrema of a segment ----------

  /** How a joint is driven: its motor, if it names one, sign and scales of its commands, and control gains. */
  datatype Drive = Drive(motor: Option<nat>, direction: real, velocityCommandScale: real, velocityFeedbackScale: real,
                         torqueCommandScale: real, torqueLimit: real, mitKp: real, mitKd: real,
                         mitFeedforwardTorque: real, pvHoldVelocityLimit: real)

  datatype Joint = Joint(lower: real, upper: real, velocityLimit: real, accelerationLimit: real,
                         pvVelocityLimit: real, drive: Drive)

  /** Which way a joint that starts outside its limits has to move. */
  datatype Recovery = NotRecovering | Upwards | Downwards

  /** The ends of a segment, and the critical points its derivative gives. */
  function Candidates(derivative: Polynomial): seq<real> {
    [0.0, 1.0] + Roots(derivative)
  }

  function AllowedLower(c: Coefficients, joint: Joint, recovery: Recovery): real {
    if recovery.Upwards? && Position(c, 0.0) < joint.lower then Position(c, 0.0) else joint.lower
  }

  function AllowedUpper(c: Coefficients, joint: Joint, recovery: Recovery): real {
    if recovery.Downwards? && joint.upper < Position(c, 0.0) then Position(c, 0.0) else joint.upper
  }

  predicate PositionAllowed(c: Coefficients, joint: Joint, recovery: Recovery, u: real) {
    AllowedLower(c, joint, recovery) - LIMIT_TOLERANCE <= Position(c, u)
    <= AllowedUpper(c, joint, recovery) + LIMIT_TOLERANCE
  }

  predicate VelocityAllowed(c: Coefficients, joint: Joint, duration: real, u: real)
    requires 0.0 < duration
  {
    var speed := Abs(Velocity(c, u, duration));
    && speed <= joint.velocityLimit + LIMIT_TOLERANCE
    && (0.0 < joint.pvVelocityLimit ==> speed <= joint.pvVelocityLimit + LIMIT_TOLERANCE)
  }

  predicate AccelerationAllowed(c: Coefficients, joint: Joint, duration: real, u: real)
    requires 0.0 < duration
  {
    Abs(Acceleration(c, u, duration)) <= joint.accelerationLimit + LIMIT_TOLERANCE
  }

  predicate PositionsWithin(c: Coefficients, joint: Joint, recovery: Recovery, us: seq<real>) {
    forall i :: 0 <= i < |us| ==> PositionAllowed(c, joint, recovery, us[i])
  }

  predicate VelocitiesWithin(c: Coefficients, joint: Joint, duration: real, us: seq<real>)
    requires 0.0 < duration
  {
    forall i :: 0 <= i < |us| ==> VelocityAllowed(c, joint, duration, us[i])
  }

  predicate AccelerationsWithin(c: Coefficients, joint: Joint, duration: real, us: seq<real>)
    requires 0.0 < duration
  {
    forall i :: 0 <= i < |us| ==> AccelerationAllowed(c, joint, duration, us[i])
  }

  predicate JointWithin(c: Coefficients, joint: Joint, recovery: Recovery, duration: real, derivatives: bool)
    requires 0.0 < duration
  {
    var velocity := Derivative(c);
    var acceleration := Derivative(velocity);
    var jerk := Derivative(acceleration);
    && PositionsWithin(c, joint, recovery, Candidates(velocity))
    && (derivatives ==>
          && VelocitiesWithin(c, joint, duration, Candidates(acceleration))
          && AccelerationsWithin(c, joint, duration, Candidates(jerk)))
  }

  predicate ExtremaWithin(duration: real, coefficients: seq<Coefficients>, joints: seq<Joint>,
                          recoveries: seq<Recovery>, derivatives: bool)
    requires 0.0 < duration && |coefficients| == |joints| == |recoveries|
  {
    forall j :: 0 <= j < |joints| ==> JointWithin(coefficients[j], joints[j], recoveries[j], duration, derivatives)
  }

  method CheckPositions(c: Coefficients, joint: Joint, recovery: Recovery, candidates: seq<real>)
    returns (within: bool)
    ensures within == PositionsWithin(c, joint, recovery, candidates)
  {
    hide Evaluate;
    var segmentStart := HornerEvaluate(c, 0.0);
    var recoveringBelow := recovery == Upwards && segmentStart < joint.lower;
    var recoveringAbove := recovery == Downwards && segmentStart > joint.upper;
    var allowedLower := if recoveringBelow then segmentStart else joint.lower;
    var allowedUpper := if recoveringAbove then segmentStart else joint.upper;
    for i := 0 to |candidates|
      invariant forall k :: 0 <= k < i ==> PositionAllowed(c, joint, recovery, candidates[k])
    {
      var value := HornerEvaluate(c, candidates[i]);
      assert value == Position(c, candidates[i]);
      if value < allowedLower - LIMIT_TOLERANCE || value > allowedUpper + LIMIT_TOLERANCE {
        return false;
      }
    }
    return true;
  }

  method CheckVelocities(c: Coefficients, joint: Joint, duration: real, candidates: seq<real>) returns (within: bool)
    requires 0.0 < duration
    ensures within == VelocitiesWithin(c, joint, duration, candidates)
  {
    hide Derivative, Evaluate, Ratio, Abs;
    for i := 0 to |candidates|
      invariant forall k :: 0 <= k < i ==> VelocityAllowed(c, joint, duration, candidates[k])
    {
      var rate := HornerEvaluate(Derivative(c), candidates[i]);
      var value := Ratio(rate, duration);
      assert value == Velocity(c, candidates[i], duration);
      if Abs(value) > joint.velocityLimit + LIMIT_TOLERANCE {
        return false;
      }
      if joint.pvVelocityLimit > 0.0 && Abs(value) > joint.pvVelocityLimit + LIMIT_TOLERANCE {
        return false;
      }
    }
    return true;
  }

  method CheckAccelerations(c: Coefficients, joint: Joint, duration: real, candidates: seq<real>)
    returns (within: bool)
    requires 0.0 < duration
    ensures within == AccelerationsWithin(c, joint, duration, candidates)
  {
    hide Derivative, Evaluate, Ratio, Abs;
    for i := 0 to |candidates|
      invariant forall k :: 0 <= k < i ==> AccelerationAllowed(c, joint, duration, candidates[k])
    {
      var rate := HornerEvaluate(Derivative(Derivative(c)), candidates[i]);
      var value := Ratio(rate, Product(duration, duration));
      assert value == Acceleration(c, candidates[i], duration);
      if Abs(value) > joint.accelerationLimit + LIMIT_TOLERANCE {
        return false;
      }
    }
    return true;
  }

  method CheckJoint(c: Coefficients, joint: Joint, recovery: Recovery, duration: real, derivatives: bool)
    returns (within: bool)
    requires 0.0 < duration
    ensures within == JointWithin(c, joint, recovery, duration, derivatives)
  {
    hide PositionsWithin, VelocitiesWithin, AccelerationsWithin, Derivative, Roots;
    var velocity := Derivative(c);
    var acceleration := Derivative(velocity);
    var jerk := Derivative(acceleration);
    var positionRoots := RootsOnUnitInterval(velocity);
    within := CheckPositions(c, joint, recovery, [0.0, 1.0] + positionRoots);
    if !within || !derivatives {
      return;
    }
    var velocityRoots := RootsOnUnitInterval(acceleration);
    within := CheckVelocities(c, joint, duration, [0.0, 1.0] + velocityRoots);
    if !within {
      return;
    }
    var accelerationRoots := RootsOnUnitInterval(jerk);
    within := CheckAccelerations(c, joint, duration, [0.0, 1.0] + accelerationRoots);
  }

  method ValidateSegmentExtrema(duration: real, coefficients: seq<Coefficients>, joints: seq<Joint>,
                                recoveries: seq<Recovery>, derivatives: bool)
    returns (within: bool)
    requires 0.0 < duration && |coefficients| == |joints| == |recoveries|
    ensures within == ExtremaWithin(duration, coefficients, joints, recoveries, derivatives)
  {
    hide JointWithin;
    for j := 0 to |joints|
      invariant forall k :: 0 <= k < j ==> JointWithin(coefficients[k], joints[k], recoveries[k], duration, derivatives)
    {
      within := CheckJoint(coefficients[j], joints[j], recoveries[j], duration, derivatives);
      if !within {
        return;
      }
    }
    return true;
  }

  // ---------- Boundary conditions ----------

  lemma EvaluateAtZero(p: Polynomial)
    ensures Evaluate(p, 0.0) == p[0]
  {
  }

  function Sum(p: seq<real>): real {
    if |p| == 0 then 0.0 else p[0] + Sum(p[1..])
  }

  lemma {:induction false} EvaluateAtOne(p: seq<real>)
    ensures Evaluate(p, 1.0) == Sum(p)
  {
    if |p| > 0 {
      EvaluateAtOne(p[1..]);
    }
  }

  lemma SumOfThree(p: seq<real>)
    requires |p| >= 3
    ensures Sum(p) == p[0] + p[1] + p[2] + Sum(p[3..])
  {
    assert p[1..][1..] == p[2..] && p[2..][1..] == p[3..];
    assert Sum(p[1..]) == p[1] + Sum(p[2..]) && Sum(p[2..]) == p[2] + Sum(p[3..]);
  }

  lemma SumOfUpToSix(p: seq<real>)
    ensures |p| == 6 ==> Sum(p) == p[0] + p[1] + p[2] + p[3] + p[4] + p[5]
    ensures |p| == 5 ==> Sum(p) == p[0] + p[1] + p[2] + p[3] + p[4]
    ensures |p| == 4 ==> Sum(p) == p[0] + p[1] + p[2] + p[3]
  {
    if 4 <= |p| <= 6 {
      SumOfThree(p);
      var q := p[3..];
      assert Sum(q) == p[3] + Sum(q[1..]);
      if |p| >= 5 {
        assert Sum(q[1..]) == p[4] + Sum(q[1..][1..]);
      }
      if |p| == 6 {
        assert Sum(q[1..][1..]) == p[5] + Sum(q[1..][1..][1..]);
      }
    }
  }

  /** The derivatives at both ends, in terms of the coefficients. */
  lemma EndValues(c: Coefficients)
    ensures Evaluate(c, 0.0) == c[0] && Evaluate(c, 1.0) == c[0] + c[1] + c[2] + c[3] + c[4] + c[5]
    ensures Evaluate(Derivative(c), 0.0) == c[1]
    ensures Evaluate(Derivative(c), 1.0) == c[1] + 2.0 * c[2] + 3.0 * c[3] + 4.0 * c[4] + 5.0 * c[5]
    ensures Evaluate(Derivative(Derivative(c)), 0.0) == 2.0 * c[2]
    ensures Evaluate(Derivative(Derivative(c)), 1.0) == 2.0 * c[2] + 6.0 * c[3] + 12.0 * c[4] + 20.0 * c[5]
  {
    hide Evaluate, Sum;
    var d := Derivative(c);
    var dd := Derivative(d);
    EvaluateAtZero(c);
    EvaluateAtZero(d);
    EvaluateAtZero(dd);
    EvaluateAtOne(c);
    EvaluateAtOne(d);
    EvaluateAtOne(dd);
    SumOfUpToSix(c);
    SumOfUpToSix(d);
    SumOfUpToSix(dd);
  }

  lemma DividesBack(y: real, x: real, d: real)
    requires 0.0 < d && y == x * d
    ensures Ratio(y, d) == x
  {
    DivMul(x, d);
  }

  lemma DividesBackTwice(y: real, x: real, d: real)
    requires 0.0 < d && y == x * d * d
    ensures Ratio(y, Product(d, d)) == x
  {
    DividesBack(y, x, Product(d, d));
  }

  /** The derivatives a quintic segment is built from, before scaling to its duration. */
  lemma QuinticEnds(from: Kinematics, to: Kinematics, duration: real)
    ensures var c := QuinticCoefficients(from, to, duration);
            && c[0] == from.position
            && c[0] + c[1] + c[2] + c[3] + c[4] + c[5] == to.position
            && c[1] == from.velocity * duration
            && c[1] + 2.0 * c[2] + 3.0 * c[3] + 4.0 * c[4] + 5.0 * c[5] == to.velocity * duration
            && 2.0 * c[2] == from.acceleration * duration * duration
            && 2.0 * c[2] + 6.0 * c[3] + 12.0 * c[4] + 20.0 * c[5] == to.acceleration * duration * duration
  {
  }

  /** A quintic segment meets all six boundary conditions, as the samplers read them. */
  lemma QuinticMeetsBoundary(from: Kinematics, to: Kinematics, duration: real)
    requires 0.0 < duration
    ensures Sampled(QuinticCoefficients(from, to, duration), 0.0, duration) == from
    ensures Sampled(QuinticCoefficients(from, to, duration), 1.0, duration) == to
  {
    hide Evaluate, Derivative, Ratio, Product, QuinticCoefficients;
    var c := QuinticCoefficients(from, to, duration);
    EndValues(c);
    QuinticEnds(from, to, duration);
    DividesBack(Evaluate(Derivative(c), 0.0), from.velocity, duration);
    DividesBack(Evaluate(Derivative(c), 1.0), to.velocity, duration);
    DividesBackTwice(Evaluate(Derivative(Derivative(c)), 0.0), from.acceleration, duration);
    DividesBackTwice(Evaluate(Derivative(Derivative(c)), 1.0), to.acceleration, duration);
  }

  /** A linear segment runs straight from its start to its end. */
  lemma LinearIsStraight(from: real, to: real, u: real)
    ensures Position(LinearCoefficients(from, to), u) == Blend(from, to, u)
  {
    var c := LinearCoefficients(from, to);
    assert c[1..][1..] == [0.0, 0.0, 0.0, 0.0];
    ZeroEvaluates(c[2..], u);
    assert c[1..][1..] == c[2..];
    assert Evaluate(c[1..], u) == to - from;
  }

  lemma {:induction false} ZeroEvaluates(p: seq<real>, u: real)
    requires forall i :: 0 <= i < |p| ==> p[i] == 0.0
    ensures Evaluate(p, u) == 0.0
  {
    if |p| > 0 {
      ZeroEvaluates(p[1..], u);
    }
  }
}
