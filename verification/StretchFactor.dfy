/** By how much a timed knot list has to be slowed down to respect the speed and acceleration
    limits (runtime/src/product_cartesian.cpp). */
module StretchFactor {
  import opened RealArithmetic
  import opened Results
  import opened CartesianPath

  datatype TimedPath = TimedPath(points: seq<JointPoint>, timestamps: seq<real>) {
    /** As many timestamps as knots, and at least two. */
    predicate Shaped() {
      |points| == |timestamps| >= 2
    }

    /** Timestamps strictly increase over the first n knots. */
    predicate IncreasingTo(n: nat)
      requires n <= |timestamps|
    {
      forall i :: 1 <= i < n ==> timestamps[i - 1] < timestamps[i]
    }

    predicate Increasing() {
      IncreasingTo(|timestamps|)
    }

    /** Knot k ends an interval, and times increase up to it. */
    predicate Ends(k: nat) {
      Shaped() && 1 <= k < |points| && IncreasingTo(k + 1)
    }

    function Interval(k: nat): (d: real)
      requires Ends(k)
      ensures d > 0.0
    {
      timestamps[k] - timestamps[k - 1]
    }

    /** Mean velocity of a joint over the interval that ends at knot k. */
    function Velocity(k: nat, joint: nat): real
      requires Ends(k) && joint < DOF
    {
      Ratio(points[k][joint] - points[k - 1][joint], Interval(k))
    }

    function PreviousVelocity(k: nat, joint: nat): real
      requires Ends(k) && joint < DOF
    {
      if k == 1 then 0.0 else Velocity(k - 1, joint)
    }

    function AccelerationInterval(k: nat): (d: real)
      requires Ends(k)
      ensures d > 0.0
    {
      if k == 1 then Interval(k) else 0.5 * (Interval(k) + Interval(k - 1))
    }

    /** Change of mean velocity into interval k, starting from rest. */
    function Acceleration(k: nat, joint: nat): real
      requires Ends(k) && joint < DOF
    {
      Ratio(Velocity(k, joint) - PreviousVelocity(k, joint), AccelerationInterval(k))
    }

    /** Coming to rest over the last interval. */
    function StoppingAcceleration(joint: nat): real
      requires Shaped() && Increasing() && joint < DOF
    {
      Ratio(Velocity(|points| - 1, joint), Interval(|points| - 1))
    }
  }

  datatype Limits = Limits(velocity: real, acceleration: real) {
    predicate Positive() {
      velocity > 0.0 && acceleration > 0.0
    }
  }

  datatype Error =
    | InvalidLimits | TooFewPoints | NotIncreasing | Capacity | NotConverged | TooLong | Unsettled
    | InvalidControlPoints | EmptySegment | UnsafeDuration | IncompletePath

  /** The slow-down one joint asks for over one interval. */
  function Demand(path: TimedPath, limits: Limits, sqrt: real -> real, k: nat, joint: nat): real
    requires path.Ends(k) && limits.Positive() && joint < DOF
  {
    Max(Ratio(Abs(path.Velocity(k, joint)), limits.velocity),
        sqrt(Ratio(Abs(path.Acceleration(k, joint)), limits.acceleration)))
  }

  function StoppingDemand(path: TimedPath, limits: Limits, sqrt: real -> real, joint: nat): real
    requires path.Shaped() && path.Increasing() && limits.Positive() && joint < DOF
  {
    sqrt(Ratio(Abs(path.StoppingAcceleration(joint)), limits.acceleration))
  }

  /** The largest demand of the intervals that end before knot k and of the first joints of
      the one that ends there; never below one. */
  function DemandUpTo(path: TimedPath, limits: Limits, sqrt: real -> real, k: nat, joints: nat): real
    requires path.Shaped() && limits.Positive() && joints <= DOF
    requires 1 <= k <= |path.points| && path.IncreasingTo(k) && (joints > 0 ==> path.Ends(k))
    decreases k, joints
  {
    if joints > 0 then Max(DemandUpTo(path, limits, sqrt, k, joints - 1), Demand(path, limits, sqrt, k, joints - 1))
    else if k > 1 then DemandUpTo(path, limits, sqrt, k - 1, DOF)
    else 1.0
  }

  function StoppingUpTo(path: TimedPath, limits: Limits, sqrt: real -> real, joints: nat): real
    requires path.Shaped() && path.Increasing() && limits.Positive() && joints <= DOF
  {
    if joints == 0 then DemandUpTo(path, limits, sqrt, |path.points|, 0)
    else Max(StoppingUpTo(path, limits, sqrt, joints - 1), StoppingDemand(path, limits, sqrt, joints - 1))
  }

  /** The factor by which the whole list has to be slowed down. */
  function Factor(path: TimedPath, limits: Limits, sqrt: real -> real): Result<real, Error>
    requires path.Shaped() && limits.Positive()
  {
    if path.Increasing() then Success(StoppingUpTo(path, limits, sqrt, DOF)) else Failure(NotIncreasing)
  }

  /** The joints of one interval: their velocities, and the factor raised to their demands. */
  method MeasureInterval(path: TimedPath, limits: Limits, sqrt: real -> real, sample: nat,
                         previousVelocity: seq<real>, covered: real)
    returns (velocities: seq<real>, factor: real)
    requires path.Ends(sample) && limits.Positive() && |previousVelocity| == DOF
    requires forall j :: 0 <= j < DOF ==> previousVelocity[j] == path.PreviousVelocity(sample, j)
    requires covered == DemandUpTo(path, limits, sqrt, sample, 0)
    ensures |velocities| == DOF && forall j :: 0 <= j < DOF ==> velocities[j] == path.Velocity(sample, j)
    ensures factor == DemandUpTo(path, limits, sqrt, sample, DOF)
  {
    hide Ratio;
    var interval := path.timestamps[sample] - path.timestamps[sample - 1];
    var accelerationInterval := if sample == 1 then interval
      else 0.5 * (interval + path.timestamps[sample - 1] - path.timestamps[sample - 2]);
    velocities, factor := [], covered;
    for joint := 0 to DOF
      invariant |velocities| == joint
      invariant forall j :: 0 <= j < joint ==> velocities[j] == path.Velocity(sample, j)
      invariant factor == DemandUpTo(path, limits, sqrt, sample, joint)
    {
      var velocity := Ratio(path.points[sample][joint] - path.points[sample - 1][joint], interval);
      var acceleration := Ratio(velocity - previousVelocity[joint], accelerationInterval);
      assert velocity == path.Velocity(sample, joint);
      assert acceleration == path.Acceleration(sample, joint);
      factor := Max(factor, Ratio(Abs(velocity), limits.velocity));
      factor := Max(factor, sqrt(Ratio(Abs(acceleration), limits.acceleration)));
      velocities := velocities + [velocity];
    }
  }

  method VariablePathStretchFactor(path: TimedPath, limits: Limits, sqrt: real -> real)
    returns (r: Result<real, Error>)
    requires path.Shaped() && limits.Positive()
    ensures r == Factor(path, limits, sqrt)
  {
    hide Ratio, Abs, Max, Demand;
    hide TimedPath.Velocity;
    var previousVelocity := seq(DOF, _ => 0.0);
    var factor := 1.0;
    for sample := 1 to |path.points|
      invariant path.IncreasingTo(sample)
      invariant |previousVelocity| == DOF
      invariant forall j :: 0 <= j < DOF ==>
                  previousVelocity[j] == if sample == 1 then 0.0 else path.Velocity(sample - 1, j)
      invariant factor == DemandUpTo(path, limits, sqrt, sample, 0)
    {
      if path.timestamps[sample] - path.timestamps[sample - 1] <= 0.0 {
        return Failure(NotIncreasing);
      }
      previousVelocity, factor := MeasureInterval(path, limits, sqrt, sample, previousVelocity, factor);
    }
    var last := |path.timestamps| - 1;
    var finalInterval := path.timestamps[last] - path.timestamps[last - 1];
    for joint := 0 to DOF
      invariant factor == StoppingUpTo(path, limits, sqrt, joint)
    {
      var stoppingAcceleration := Ratio(previousVelocity[joint], finalInterval);
      factor := Max(factor, sqrt(Ratio(Abs(stoppingAcceleration), limits.acceleration)));
    }
    return Success(factor);
  }

  // ---------- What the factor means ----------

  lemma {:induction false} DemandCovered(path: TimedPath, limits: Limits, sqrt: real -> real,
                                         k: nat, joints: nat, k': nat, joint: nat)
    requires path.Shaped() && limits.Positive() && joints <= DOF
    requires 1 <= k <= |path.points| && path.IncreasingTo(k) && (joints > 0 ==> path.Ends(k))
    requires 1 <= k' && joint < DOF && (k' < k || (k' == k && joint < joints))
    ensures Demand(path, limits, sqrt, k', joint) <= DemandUpTo(path, limits, sqrt, k, joints)
    decreases k, joints
  {
    if joints > 0 {
      if k' < k || joint < joints - 1 {
        DemandCovered(path, limits, sqrt, k, joints - 1, k', joint);
      }
    } else {
      DemandCovered(path, limits, sqrt, k - 1, DOF, k', joint);
    }
  }

  lemma {:induction false} StoppingCovered(path: TimedPath, limits: Limits, sqrt: real -> real, joints: nat)
    requires path.Shaped() && path.Increasing() && limits.Positive() && joints <= DOF
    ensures DemandUpTo(path, limits, sqrt, |path.points|, 0) <= StoppingUpTo(path, limits, sqrt, joints)
    ensures forall j :: 0 <= j < joints ==>
              StoppingDemand(path, limits, sqrt, j) <= StoppingUpTo(path, limits, sqrt, joints)
  {
    hide StoppingDemand, DemandUpTo, Abs, Ratio;
    if joints > 0 {
      StoppingCovered(path, limits, sqrt, joints - 1);
    }
  }

  /** A knot list within a given slow-down of its limits: speeds within the factor, and
      accelerations, the first from rest and the last to rest, within its square. */
  ghost predicate WithinLimits(path: TimedPath, limits: Limits, factor: real)
    requires path.Shaped() && path.Increasing()
  {
    && (forall k, joint :: 1 <= k < |path.points| && 0 <= joint < DOF ==>
          && Abs(path.Velocity(k, joint)) <= factor * limits.velocity
          && Abs(path.Acceleration(k, joint)) <= factor * factor * limits.acceleration)
    && (forall joint :: 0 <= joint < DOF ==>
          Abs(path.StoppingAcceleration(joint)) <= factor * factor * limits.acceleration)
  }

  lemma DemandBound(path: TimedPath, limits: Limits, sqrt: real -> real, k: nat, joint: nat, factor: real)
    requires path.Ends(k) && limits.Positive() && IsSquareRoot(sqrt) && joint < DOF
    requires Demand(path, limits, sqrt, k, joint) <= factor
    ensures Abs(path.Velocity(k, joint)) <= factor * limits.velocity
    ensures Abs(path.Acceleration(k, joint)) <= factor * factor * limits.acceleration
  {
    hide Ratio, IsSquareRoot;
    RatioBound(Abs(path.Velocity(k, joint)), limits.velocity, factor);
    RootBound(sqrt, Abs(path.Acceleration(k, joint)), limits.acceleration, factor);
  }

  lemma StoppingDemandBound(path: TimedPath, limits: Limits, sqrt: real -> real, joint: nat, factor: real)
    requires path.Shaped() && path.Increasing() && limits.Positive() && IsSquareRoot(sqrt) && joint < DOF
    requires StoppingDemand(path, limits, sqrt, joint) <= factor
    ensures Abs(path.StoppingAcceleration(joint)) <= factor * factor * limits.acceleration
  {
    hide Ratio, IsSquareRoot;
    RootBound(sqrt, Abs(path.StoppingAcceleration(joint)), limits.acceleration, factor);
  }

  /** The computed factor is one by which every limit is respected. */
  lemma FactorBounds(path: TimedPath, limits: Limits, sqrt: real -> real)
    requires path.Shaped() && path.Increasing() && limits.Positive() && IsSquareRoot(sqrt)
    ensures WithinLimits(path, limits, StoppingUpTo(path, limits, sqrt, DOF))
  {
    hide Ratio, IsSquareRoot, Abs, Max, Demand, StoppingDemand, DemandUpTo, StoppingUpTo;
    hide TimedPath.Velocity, TimedPath.Acceleration, TimedPath.StoppingAcceleration;
    var factor := StoppingUpTo(path, limits, sqrt, DOF);
    StoppingCovered(path, limits, sqrt, DOF);
    forall k, joint | 1 <= k < |path.points| && 0 <= joint < DOF
      ensures Abs(path.Velocity(k, joint)) <= factor * limits.velocity
      ensures Abs(path.Acceleration(k, joint)) <= factor * factor * limits.acceleration
    {
      DemandCovered(path, limits, sqrt, |path.points|, 0, k, joint);
      DemandBound(path, limits, sqrt, k, joint, factor);
    }
    forall joint | 0 <= joint < DOF
      ensures Abs(path.StoppingAcceleration(joint)) <= factor * factor * limits.acceleration
    {
      StoppingDemandBound(path, limits, sqrt, joint, factor);
    }
  }
}
