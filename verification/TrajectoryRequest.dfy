/** From a trajectory request to its segments: validation of the waypoints and of the schedule,
    derivative filling, and segment construction (runtime/src/runtime_trajectory.cpp). */
module TrajectoryRequest {
  import opened RealArithmetic
  import opened Results
  import opened TrajectorySegments

  const MAX_WAYPOINTS: nat := 30000
  const MAX_JOINTS: nat := 32
  const MAX_TRAJECTORY_DURATION: real := 3600.0

  datatype Mode = Mit | Pv

  datatype Waypoint = Waypoint(time: real, positions: seq<real>, velocities: seq<real>, accelerations: seq<real>,
                               velocityMask: set<nat>, accelerationMask: set<nat>)

  /** A request, and the arm motors of the runtime it is made to. */
  datatype Request = Request(arm: seq<nat>, mode: Mode, trajectoryPv: bool, joints: seq<Joint>, waypoints: seq<Waypoint>,
                             approachSegmentCount: nat, approachDeadline: real, completionDeadline: real,
                             allowRecovery: bool, pvReferenceVelocity: real, pvReferenceAcceleration: real,
                             pvDriveVelocityLimit: real)

  datatype RequestError =
    | PvModeRequired | PvLimitsRequired | JointCount | WaypointCount | ApproachSegmentCount
    | IncompleteLayout | InvalidJoint | InvalidMitConfiguration | InvalidPvVelocityLimit | InvalidPvHoldVelocity
    | PvLimitsExceedProduct
    | NegativeTimeOrigin | TimesNotIncreasing | UnknownMaskBit | WaypointShape
    | OutsideLimits | InvalidVelocity | InvalidAcceleration
    | InvalidDuration | InvalidCompletionDeadline | InvalidApproachDeadline | SegmentExceedsLimits

  datatype Segment = Segment(start: real, duration: real, coefficients: seq<Coefficients>)

  datatype Plan = Plan(joints: seq<Joint>, segments: seq<Segment>, duration: real, referenceDuration: real,
                       approachSegmentCount: nat, approachDuration: real, approachDeadline: real,
                       trajectoryPv: bool, pvReferenceVelocity: real, pvReferenceAcceleration: real)

  // ---------- Static checks ----------

  function HeaderError(r: Request): Option<RequestError> {
    if r.trajectoryPv && r.mode != Pv then Some(PvModeRequired)
    else if r.trajectoryPv && !(0.0 < r.pvReferenceVelocity && 0.0 < r.pvReferenceAcceleration
                                && 0.0 < r.pvDriveVelocityLimit) then Some(PvLimitsRequired)
    else if |r.joints| == 0 || MAX_JOINTS < |r.joints| then Some(JointCount)
    else if |r.waypoints| < 2 || MAX_WAYPOINTS < |r.waypoints| then Some(WaypointCount)
    else if |r.waypoints| <= r.approachSegmentCount then Some(ApproachSegmentCount)
    else None
  }

  const MAX_MIT_KP: real := 500.0
  const MAX_MIT_KD: real := 5.0

  /** A joint names an arm motor that no joint before it names. */
  predicate NamesFreshMotor(r: Request, j: nat)
    requires j < |r.joints|
  {
    var motor := r.joints[j].drive.motor;
    && motor.Some? && motor.value in r.arm
    && forall k :: 0 <= k < j ==> r.joints[k].drive.motor != motor
  }

  predicate Configured(joint: Joint) {
    && Abs(joint.drive.direction) == 1.0 && 0.0 < joint.drive.velocityCommandScale
    && 0.0 < joint.drive.velocityFeedbackScale && 0.0 < joint.drive.torqueCommandScale
    && joint.lower < joint.upper && 0.0 < joint.velocityLimit && 0.0 < joint.accelerationLimit
    && 0.0 < joint.drive.torqueLimit
  }

  predicate MitConfigured(drive: Drive) {
    && 0.0 <= drive.mitKp <= MAX_MIT_KP && 0.0 <= drive.mitKd <= MAX_MIT_KD
    && Abs(drive.mitFeedforwardTorque) <= drive.torqueLimit
  }

  function JointError(r: Request, j: nat): Option<RequestError>
    requires j < |r.joints|
  {
    var joint := r.joints[j];
    if !NamesFreshMotor(r, j) || !Configured(joint) then Some(InvalidJoint)
    else if r.mode == Mit then if MitConfigured(joint.drive) then None else Some(InvalidMitConfiguration)
    else if joint.pvVelocityLimit <= 0.0 || joint.velocityLimit < joint.pvVelocityLimit then Some(InvalidPvVelocityLimit)
    else if !(0.0 <= joint.drive.pvHoldVelocityLimit <= joint.pvVelocityLimit) then Some(InvalidPvHoldVelocity)
    else if r.trajectoryPv && (joint.velocityLimit < r.pvReferenceVelocity
                               || joint.accelerationLimit < r.pvReferenceAcceleration
                               || joint.velocityLimit < r.pvDriveVelocityLimit) then Some(PvLimitsExceedProduct)
    else None
  }

  function JointErrorFrom(r: Request, j: nat): Option<RequestError>
    requires j <= |r.joints|
    decreases |r.joints| - j
  {
    if j == |r.joints| then None
    else
      var error := JointError(r, j);
      if error.Some? then error else JointErrorFrom(r, j + 1)
  }

  function LayoutError(r: Request): Option<RequestError> {
    if |r.joints| != |r.arm| then Some(IncompleteLayout) else JointErrorFrom(r, 0)
  }

  method CheckJoints(r: Request) returns (error: Option<RequestError>)
    ensures error == LayoutError(r)
  {
    hide Abs;
    if |r.joints| != |r.arm| {
      return Some(IncompleteLayout);
    }
    var uniqueMotors := {};
    for j := 0 to |r.joints|
      invariant JointErrorFrom(r, j) == JointErrorFrom(r, 0)
      invariant forall k :: 0 <= k < j ==> r.joints[k].drive.motor in uniqueMotors
      invariant forall motor :: motor in uniqueMotors ==> exists k :: 0 <= k < j && r.joints[k].drive.motor == motor
    {
      var joint := r.joints[j];
      var drive := joint.drive;
      if drive.motor.None? || drive.motor.value !in r.arm || drive.motor in uniqueMotors {
        return Some(InvalidJoint);
      }
      uniqueMotors := uniqueMotors + {drive.motor};
      if Abs(drive.direction) != 1.0 || drive.velocityCommandScale <= 0.0 || drive.velocityFeedbackScale <= 0.0
         || drive.torqueCommandScale <= 0.0 || joint.lower >= joint.upper || joint.velocityLimit <= 0.0
         || joint.accelerationLimit <= 0.0 || drive.torqueLimit <= 0.0 {
        return Some(InvalidJoint);
      }
      if r.mode == Mit {
        if drive.mitKp < 0.0 || drive.mitKp > MAX_MIT_KP || drive.mitKd < 0.0 || drive.mitKd > MAX_MIT_KD
           || Abs(drive.mitFeedforwardTorque) > drive.torqueLimit {
          return Some(InvalidMitConfiguration);
        }
      } else {
        if joint.pvVelocityLimit <= 0.0 || joint.pvVelocityLimit > joint.velocityLimit {
          return Some(InvalidPvVelocityLimit);
        }
        if drive.pvHoldVelocityLimit < 0.0 || drive.pvHoldVelocityLimit > joint.pvVelocityLimit {
          return Some(InvalidPvHoldVelocity);
        }
        if r.trajectoryPv && (r.pvReferenceVelocity > joint.velocityLimit
                              || r.pvReferenceAcceleration > joint.accelerationLimit
                              || r.pvDriveVelocityLimit > joint.velocityLimit) {
          return Some(PvLimitsExceedProduct);
        }
      }
    }
    return None;
  }

  // ---------- Waypoints ----------

  predicate ShapedTo(r: Request, n: nat)
    requires n <= |r.waypoints|
  {
    forall i :: 0 <= i < n ==> WaypointShaped(r, r.waypoints[i])
  }

  predicate WaypointShaped(r: Request, w: Waypoint) {
    |w.positions| == |w.velocities| == |w.accelerations| == |r.joints|
  }

  /** The joint index j is named at waypoint i, and both exist. */
  predicate Names(r: Request, i: nat, j: nat) {
    i < |r.waypoints| && j < |r.joints| && ShapedTo(r, i + 1)
  }

  function PositionAt(r: Request, i: nat, j: nat): real
    requires Names(r, i, j)
  {
    r.waypoints[i].positions[j]
  }

  predicate Inside(r: Request, i: nat, j: nat)
    requires Names(r, i, j)
  {
    r.joints[j].lower <= PositionAt(r, i, j) <= r.joints[j].upper
  }

  /** Whether the joint starts outside its limits, and which way it then has to go. */
  function RecoveryOf(r: Request, j: nat): Recovery
    requires Names(r, 0, j)
  {
    if PositionAt(r, 0, j) < r.joints[j].lower then Upwards
    else if r.joints[j].upper < PositionAt(r, 0, j) then Downwards
    else NotRecovering
  }

  /** The joint has been inside its limits at a waypoint before i. */
  predicate RecoveredBefore(r: Request, i: nat, j: nat)
    requires Names(r, i, j)
  {
    RecoveryOf(r, j) != NotRecovering && exists k: nat :: 1 <= k < i && Inside(r, k, j)
  }

  predicate MovesInward(r: Request, i: nat, j: nat)
    requires 0 < i && Names(r, i, j)
  {
    if RecoveryOf(r, j) == Upwards then PositionAt(r, i - 1, j) - LIMIT_TOLERANCE <= PositionAt(r, i, j)
    else PositionAt(r, i, j) <= PositionAt(r, i - 1, j) + LIMIT_TOLERANCE
  }

  /** A position outside the limits is tolerated only on the way in from an outside start. */
  predicate PositionAccepted(r: Request, i: nat, j: nat)
    requires Names(r, i, j)
  {
    || Inside(r, i, j)
    || (i == 0 && r.allowRecovery)
    || (&& 0 < i < |r.waypoints| - 1 && r.allowRecovery && RecoveryOf(r, j) != NotRecovering
        && !RecoveredBefore(r, i, j) && MovesInward(r, i, j))
  }

  function PointError(r: Request, i: nat, j: nat): Option<RequestError>
    requires Names(r, i, j)
  {
    var w, joint := r.waypoints[i], r.joints[j];
    if !PositionAccepted(r, i, j) then Some(OutsideLimits)
    else if j in w.velocityMask && joint.velocityLimit < Abs(w.velocities[j]) then Some(InvalidVelocity)
    else if j in w.accelerationMask && joint.accelerationLimit < Abs(w.accelerations[j]) then Some(InvalidAcceleration)
    else None
  }

  function PointErrorFrom(r: Request, i: nat, j: nat): Option<RequestError>
    requires i < |r.waypoints| && ShapedTo(r, i + 1) && j <= |r.joints|
    decreases |r.joints| - j
  {
    if j == |r.joints| then None
    else
      var error := PointError(r, i, j);
      if error.Some? then error else PointErrorFrom(r, i, j + 1)
  }

  predicate MaskKnown(r: Request, mask: set<nat>) {
    forall bit :: bit in mask ==> bit < |r.joints|
  }

  function WaypointError(r: Request, i: nat): Option<RequestError>
    requires i < |r.waypoints| && ShapedTo(r, i)
  {
    var w := r.waypoints[i];
    if 0 < i && w.time <= r.waypoints[i - 1].time then Some(TimesNotIncreasing)
    else if !MaskKnown(r, w.velocityMask) || !MaskKnown(r, w.accelerationMask) then Some(UnknownMaskBit)
    else if !WaypointShaped(r, w) then Some(WaypointShape)
    else PointErrorFrom(r, i, 0)
  }

  function WaypointErrorFrom(r: Request, i: nat): Option<RequestError>
    requires i <= |r.waypoints| && ShapedTo(r, i)
    decreases |r.waypoints| - i
  {
    if i == |r.waypoints| then None
    else
      var error := WaypointError(r, i);
      if error.Some? then error else WaypointErrorFrom(r, i + 1)
  }

  /** What the walk over the waypoints remembers about joint j before waypoint i. */
  predicate Remembers(r: Request, i: nat, j: nat, recovery: Recovery, recovered: bool, previous: real)
    requires 0 < i && i <= |r.waypoints| && Names(r, i - 1, j)
  {
    && recovery == RecoveryOf(r, j)
    && recovered == (RecoveryOf(r, j) != NotRecovering && exists k: nat :: 1 <= k < i && Inside(r, k, j))
    && previous == PositionAt(r, i - 1, j)
  }

  /** One joint of one waypoint, in the order of the walk. */
  method CheckPoint(r: Request, i: nat, j: nat, recovery: Recovery, recovered: bool, previous: real)
    returns (error: Option<RequestError>, recovery': Recovery, recovered': bool)
    requires Names(r, i, j)
    requires if i == 0 then recovery == NotRecovering && !recovered
             else Remembers(r, i, j, recovery, recovered, previous)
    ensures error == PointError(r, i, j)
    ensures error.None? ==> Remembers(r, i + 1, j, recovery', recovered', PositionAt(r, i, j))
  {
    hide Abs;
    var w, joint := r.waypoints[i], r.joints[j];
    var position := w.positions[j];
    var below, above := position < joint.lower, position > joint.upper;
    recovery', recovered' := recovery, recovered;
    assert (below || above) <==> !Inside(r, i, j);
    if 0 < i {
      assert recovered == RecoveredBefore(r, i, j);
    }
    if i == 0 && (below || above) {
      if !r.allowRecovery {
        return Some(OutsideLimits), recovery', recovered';
      }
      recovery' := if below then Upwards else Downwards;
    } else if below || above {
      var finalWaypoint := i + 1 == |r.waypoints|;
      var canContinueRecovery := r.allowRecovery && recovery != NotRecovering && !recovered && !finalWaypoint;
      var movesInward := if recovery == Upwards then position >= previous - LIMIT_TOLERANCE
                         else position <= previous + LIMIT_TOLERANCE;
      if !canContinueRecovery || !movesInward {
        return Some(OutsideLimits), recovery', recovered';
      }
    } else if recovery != NotRecovering && i > 0 {
      recovered' := true;
    }
    assert PositionAccepted(r, i, j);
    assert recovery' == RecoveryOf(r, j);
    if j in w.velocityMask && Abs(w.velocities[j]) > joint.velocityLimit {
      return Some(InvalidVelocity), recovery', recovered';
    }
    if j in w.accelerationMask && Abs(w.accelerations[j]) > joint.accelerationLimit {
      return Some(InvalidAcceleration), recovery', recovered';
    }
    return None, recovery', recovered';
  }

  method CheckWaypoints(r: Request) returns (error: Option<RequestError>, recoveries: seq<Recovery>)
    requires |r.waypoints| > 0
    ensures error == WaypointErrorFrom(r, 0)
    ensures error.None? ==> |recoveries| == |r.joints| && ShapedTo(r, |r.waypoints|)
    ensures error.None? ==> forall j :: 0 <= j < |r.joints| ==> recoveries[j] == RecoveryOf(r, j)
  {
    hide PositionAccepted, Abs, Inside, RecoveryOf;
    recoveries := seq(|r.joints|, _ => NotRecovering);
    var recovered := seq(|r.joints|, _ => false);
    var previous := seq(|r.joints|, _ => 0.0);
    for i := 0 to |r.waypoints|
      invariant ShapedTo(r, i) && WaypointErrorFrom(r, i) == WaypointErrorFrom(r, 0)
      invariant |recoveries| == |recovered| == |previous| == |r.joints|
      invariant forall j :: 0 <= j < |r.joints| ==>
                  if i == 0 then recoveries[j] == NotRecovering && !recovered[j]
                  else Remembers(r, i, j, recoveries[j], recovered[j], previous[j])
    {
      var w := r.waypoints[i];
      if i > 0 && w.time <= r.waypoints[i - 1].time {
        return Some(TimesNotIncreasing), recoveries;
      }
      if (exists bit :: bit in w.velocityMask && bit >= |r.joints|)
         || (exists bit :: bit in w.accelerationMask && bit >= |r.joints|) {
        return Some(UnknownMaskBit), recoveries;
      }
      if |w.positions| != |r.joints| || |w.velocities| != |r.joints| || |w.accelerations| != |r.joints| {
        return Some(WaypointShape), recoveries;
      }
      assert WaypointShaped(r, r.waypoints[i]);
      assert ShapedTo(r, i + 1);
      for j := 0 to |r.joints|
        invariant |recoveries| == |recovered| == |previous| == |r.joints|
        invariant PointErrorFrom(r, i, j) == PointErrorFrom(r, i, 0)
        invariant forall k :: 0 <= k < j ==> Remembers(r, i + 1, k, recoveries[k], recovered[k], previous[k])
        invariant forall k :: j <= k < |r.joints| ==>
                    if i == 0 then recoveries[k] == NotRecovering && !recovered[k]
                    else Remembers(r, i, k, recoveries[k], recovered[k], previous[k])
      {
        var pointError, recovery, done := CheckPoint(r, i, j, recoveries[j], recovered[j], previous[j]);
        if pointError.Some? {
          return pointError, recoveries;
        }
        recoveries := recoveries[j := recovery];
        recovered := recovered[j := done];
        previous := previous[j := w.positions[j]];
      }
    }
    return None, recoveries;
  }

  // ---------- Schedule ----------

  /** Times are counted from the first waypoint. */
  function TimeAt(r: Request, i: nat): real
    requires i < |r.waypoints|
  {
    r.waypoints[i].time - r.waypoints[0].time
  }

  function ReferenceDuration(r: Request): real
    requires |r.waypoints| > 0
  {
    TimeAt(r, |r.waypoints| - 1)
  }

  function TotalDuration(r: Request): real
    requires |r.waypoints| > 0
  {
    if 0.0 < r.completionDeadline then r.completionDeadline else ReferenceDuration(r)
  }

  function ScheduleError(r: Request): Option<RequestError>
    requires |r.waypoints| > 0
  {
    if ReferenceDuration(r) <= 0.0 || MAX_TRAJECTORY_DURATION < ReferenceDuration(r) then Some(InvalidDuration)
    else if TotalDuration(r) + LIMIT_TOLERANCE < ReferenceDuration(r) || MAX_TRAJECTORY_DURATION < TotalDuration(r)
    then Some(InvalidCompletionDeadline)
    else if r.approachDeadline != 0.0 && (r.approachDeadline <= 0.0 || TotalDuration(r) <= r.approachDeadline)
    then Some(InvalidApproachDeadline)
    else None
  }

  // ---------- Derivatives and segments ----------

  /** All waypoints carry values for all joints, and times strictly increase. */
  predicate WellFormed(r: Request) {
    |r.waypoints| >= 2 && ShapedTo(r, |r.waypoints|)
    && forall i :: 0 < i < |r.waypoints| ==> r.waypoints[i - 1].time < r.waypoints[i].time
  }

  function MeanSlope(r: Request, i: nat, k: nat, j: nat): real
    requires WellFormed(r) && i < k < |r.waypoints| && j < |r.joints| && r.waypoints[i].time < r.waypoints[k].time
  {
    Ratio(PositionAt(r, k, j) - PositionAt(r, i, j), TimeAt(r, k) - TimeAt(r, i))
  }

  /** The given velocity, or zero at the ends, or the slope between the neighbours. */
  function VelocityAt(r: Request, i: nat, j: nat): real
    requires WellFormed(r) && i < |r.waypoints| && j < |r.joints|
  {
    if j in r.waypoints[i].velocityMask then r.waypoints[i].velocities[j]
    else if i == 0 || i + 1 == |r.waypoints| then 0.0
    else
      assert r.waypoints[i - 1].time < r.waypoints[i].time < r.waypoints[i + 1].time;
      MeanSlope(r, i - 1, i + 1, j)
  }

  function AccelerationAt(r: Request, i: nat, j: nat): real
    requires WellFormed(r) && i < |r.waypoints| && j < |r.joints|
  {
    if j in r.waypoints[i].accelerationMask then r.waypoints[i].accelerations[j]
    else if i == 0 || i + 1 == |r.waypoints| then 0.0
    else
      assert r.waypoints[i - 1].time < r.waypoints[i].time < r.waypoints[i + 1].time;
      Ratio(2.0 * (MeanSlope(r, i, i + 1, j) - MeanSlope(r, i - 1, i, j)), TimeAt(r, i + 1) - TimeAt(r, i - 1))
  }

  function KinematicsAt(r: Request, i: nat, j: nat): Kinematics
    requires WellFormed(r) && i < |r.waypoints| && j < |r.joints|
  {
    Kinematics(PositionAt(r, i, j), VelocityAt(r, i, j), AccelerationAt(r, i, j))
  }

  function SegmentDuration(r: Request, i: nat): (d: real)
    requires WellFormed(r) && i + 1 < |r.waypoints|
    ensures 0.0 < d
  {
    TimeAt(r, i + 1) - TimeAt(r, i)
  }

  function CoefficientsAt(r: Request, i: nat, j: nat): Coefficients
    requires WellFormed(r) && i + 1 < |r.waypoints| && j < |r.joints|
  {
    if r.trajectoryPv then LinearCoefficients(PositionAt(r, i, j), PositionAt(r, i + 1, j))
    else QuinticCoefficients(KinematicsAt(r, i, j), KinematicsAt(r, i + 1, j), SegmentDuration(r, i))
  }

  function SegmentAt(r: Request, i: nat): Segment
    requires WellFormed(r) && i + 1 < |r.waypoints|
  {
    Segment(TimeAt(r, i), SegmentDuration(r, i),
            seq(|r.joints|, j requires 0 <= j < |r.joints| => CoefficientsAt(r, i, j)))
  }

  function Recoveries(r: Request): seq<Recovery>
    requires WellFormed(r)
  {
    seq(|r.joints|, j requires 0 <= j < |r.joints| => RecoveryOf(r, j))
  }

  predicate SegmentWithin(r: Request, i: nat)
    requires WellFormed(r) && i + 1 < |r.waypoints|
  {
    ExtremaWithin(SegmentDuration(r, i), SegmentAt(r, i).coefficients, r.joints, Recoveries(r), !r.trajectoryPv)
  }

  lemma {:induction false} NoWaypointError(r: Request, i: nat)
    requires i <= |r.waypoints| && ShapedTo(r, i) && WaypointErrorFrom(r, i).None?
    ensures ShapedTo(r, |r.waypoints|)
    ensures forall k: nat :: i <= k < |r.waypoints| ==> WaypointError(r, k).None?
    decreases |r.waypoints| - i
  {
    hide PointErrorFrom;
    if i < |r.waypoints| {
      NoWaypointError(r, i + 1);
    }
  }

  lemma AcceptedIsWellFormed(r: Request)
    requires |r.waypoints| >= 2 && WaypointErrorFrom(r, 0).None?
    ensures WellFormed(r)
  {
    hide PointErrorFrom;
    NoWaypointError(r, 0);
    forall i: nat | 0 < i < |r.waypoints| ensures r.waypoints[i - 1].time < r.waypoints[i].time {
      assert WaypointError(r, i).None?;
    }
  }

  /** The plan of a request, or the first check it fails. */
  function Planned(r: Request): Result<Plan, RequestError> {
    if HeaderError(r).Some? then Failure(HeaderError(r).value)
    else if LayoutError(r).Some? then Failure(LayoutError(r).value)
    else if r.waypoints[0].time < 0.0 then Failure(NegativeTimeOrigin)
    else if WaypointErrorFrom(r, 0).Some? then Failure(WaypointErrorFrom(r, 0).value)
    else if ScheduleError(r).Some? then Failure(ScheduleError(r).value)
    else
      AcceptedIsWellFormed(r);
      var count := |r.waypoints| - 1;
      if exists i: nat :: i < count && !SegmentWithin(r, i) then Failure(SegmentExceedsLimits)
      else
        Success(Plan(r.joints, seq(count, i requires 0 <= i < count => SegmentAt(r, i)),
                     TotalDuration(r), ReferenceDuration(r), r.approachSegmentCount,
                     if r.approachSegmentCount == 0 then 0.0
                     else TimeAt(r, r.approachSegmentCount - 1) + SegmentDuration(r, r.approachSegmentCount - 1),
                     r.approachDeadline, r.trajectoryPv, r.pvReferenceVelocity, r.pvReferenceAcceleration))
  }

  /** The derivatives of every joint at waypoint i. */
  predicate FilledAt(r: Request, i: nat, velocities: seq<real>, accelerations: seq<real>)
    requires WellFormed(r) && i < |r.waypoints|
  {
    && |velocities| == |accelerations| == |r.joints|
    && forall j :: 0 <= j < |r.joints| ==>
         velocities[j] == VelocityAt(r, i, j) && accelerations[j] == AccelerationAt(r, i, j)
  }

  /** Give every joint a velocity and an acceleration at every waypoint. */
  method FillDerivatives(r: Request) returns (velocities: seq<seq<real>>, accelerations: seq<seq<real>>)
    requires WellFormed(r)
    ensures |velocities| == |accelerations| == |r.waypoints|
    ensures forall i :: 0 <= i < |r.waypoints| ==> FilledAt(r, i, velocities[i], accelerations[i])
  {
    hide FilledAt;
    velocities, accelerations := [], [];
    for i := 0 to |r.waypoints|
      invariant |velocities| == |accelerations| == i
      invariant forall k :: 0 <= k < i ==> FilledAt(r, k, velocities[k], accelerations[k])
    {
      var v, a := FillWaypoint(r, i);
      velocities, accelerations := velocities + [v], accelerations + [a];
    }
  }

  method FillWaypoint(r: Request, i: nat) returns (v: seq<real>, a: seq<real>)
    requires WellFormed(r) && i < |r.waypoints|
    ensures FilledAt(r, i, v, a)
  {
    hide Ratio;
    var w, atEnd := r.waypoints[i], i == 0 || i + 1 == |r.waypoints|;
    v, a := w.velocities, w.accelerations;
    for j := 0 to |r.joints|
      invariant |v| == |a| == |r.joints|
      invariant forall k :: 0 <= k < j ==> v[k] == VelocityAt(r, i, k) && a[k] == AccelerationAt(r, i, k)
      invariant forall k :: j <= k < |r.joints| ==> v[k] == w.velocities[k] && a[k] == w.accelerations[k]
    {
      if j !in w.velocityMask {
        if atEnd {
          v := v[j := 0.0];
        } else {
          var previous, next := r.waypoints[i - 1], r.waypoints[i + 1];
          assert previous.time < w.time < next.time;
          v := v[j := Ratio(next.positions[j] - previous.positions[j],
                            TimeAt(r, i + 1) - TimeAt(r, i - 1))];
        }
      }
      assert v[j] == VelocityAt(r, i, j);
      if j !in w.accelerationMask {
        if atEnd {
          a := a[j := 0.0];
        } else {
          var previous, next := r.waypoints[i - 1], r.waypoints[i + 1];
          assert previous.time < w.time < next.time;
          var previousSlope := Ratio(w.positions[j] - previous.positions[j], TimeAt(r, i) - TimeAt(r, i - 1));
          var nextSlope := Ratio(next.positions[j] - w.positions[j], TimeAt(r, i + 1) - TimeAt(r, i));
          a := a[j := Ratio(2.0 * (nextSlope - previousSlope), TimeAt(r, i + 1) - TimeAt(r, i - 1))];
        }
      }
      assert a[j] == AccelerationAt(r, i, j);
    }
  }

  /** The segment from waypoint i to the next. */
  method BuildSegment(r: Request, i: nat, velocities: seq<seq<real>>, accelerations: seq<seq<real>>)
    returns (segment: Segment)
    requires WellFormed(r) && i + 1 < |r.waypoints| && |velocities| == |accelerations| == |r.waypoints|
    requires !r.trajectoryPv ==> FilledAt(r, i, velocities[i], accelerations[i])
    requires !r.trajectoryPv ==> FilledAt(r, i + 1, velocities[i + 1], accelerations[i + 1])
    ensures segment == SegmentAt(r, i)
  {
    hide VelocityAt, AccelerationAt, LinearCoefficients, QuinticCoefficients;
    var start, end := r.waypoints[i], r.waypoints[i + 1];
    var duration := TimeAt(r, i + 1) - TimeAt(r, i);
    var coefficients: seq<Coefficients> := [];
    for j := 0 to |r.joints|
      invariant |coefficients| == j
      invariant forall k :: 0 <= k < j ==> coefficients[k] == CoefficientsAt(r, i, k)
    {
      if r.trajectoryPv {
        coefficients := coefficients + [LinearCoefficients(start.positions[j], end.positions[j])];
      } else {
        var from := Kinematics(start.positions[j], velocities[i][j], accelerations[i][j]);
        var to := Kinematics(end.positions[j], velocities[i + 1][j], accelerations[i + 1][j]);
        assert from == KinematicsAt(r, i, j) && to == KinematicsAt(r, i + 1, j);
        coefficients := coefficients + [QuinticCoefficients(from, to, duration)];
      }
    }
    segment := Segment(TimeAt(r, i), duration, coefficients);
    assert segment.coefficients == SegmentAt(r, i).coefficients;
  }

  method PlanTrajectory(r: Request) returns (plan: Result<Plan, RequestError>)
    ensures plan == Planned(r)
  {
    hide LayoutError, WaypointErrorFrom, FilledAt, CoefficientsAt, ExtremaWithin, RecoveryOf;
    if r.trajectoryPv && r.mode != Pv {
      return Failure(PvModeRequired);
    }
    if r.trajectoryPv && (r.pvReferenceVelocity <= 0.0 || r.pvReferenceAcceleration <= 0.0
                          || r.pvDriveVelocityLimit <= 0.0) {
      return Failure(PvLimitsRequired);
    }
    if |r.joints| == 0 || |r.joints| > MAX_JOINTS {
      return Failure(JointCount);
    }
    if |r.waypoints| < 2 || |r.waypoints| > MAX_WAYPOINTS {
      return Failure(WaypointCount);
    }
    if r.approachSegmentCount >= |r.waypoints| {
      return Failure(ApproachSegmentCount);
    }
    var jointError := CheckJoints(r);
    if jointError.Some? {
      return Failure(jointError.value);
    }
    if r.waypoints[0].time < 0.0 {
      return Failure(NegativeTimeOrigin);
    }
    var waypointError, recoveries := CheckWaypoints(r);
    if waypointError.Some? {
      return Failure(waypointError.value);
    }
    AcceptedIsWellFormed(r);
    assert recoveries == Recoveries(r);
    var referenceDuration := r.waypoints[|r.waypoints| - 1].time - r.waypoints[0].time;
    if referenceDuration <= 0.0 || referenceDuration > MAX_TRAJECTORY_DURATION {
      return Failure(InvalidDuration);
    }
    var duration := if r.completionDeadline > 0.0 then r.completionDeadline else referenceDuration;
    if duration + LIMIT_TOLERANCE < referenceDuration || duration > MAX_TRAJECTORY_DURATION {
      return Failure(InvalidCompletionDeadline);
    }
    if r.approachDeadline != 0.0 && (r.approachDeadline <= 0.0 || r.approachDeadline >= duration) {
      return Failure(InvalidApproachDeadline);
    }
    var velocities, accelerations: seq<seq<real>> := seq(|r.waypoints|, _ => []), seq(|r.waypoints|, _ => []);
    if !r.trajectoryPv {
      velocities, accelerations := FillDerivatives(r);
    }
    var segments := [];
    for i := 0 to |r.waypoints| - 1
      invariant |segments| == i
      invariant forall k: nat :: k < i ==> segments[k] == SegmentAt(r, k) && SegmentWithin(r, k)
    {
      var segment := BuildSegment(r, i, velocities, accelerations);
      var within := ValidateSegmentExtrema(segment.duration, segment.coefficients, r.joints, recoveries, !r.trajectoryPv);
      if !within {
        assert !SegmentWithin(r, i);
        return Failure(SegmentExceedsLimits);
      }
      segments := segments + [segment];
    }
    var count := |r.waypoints| - 1;
    assert segments == seq(count, i requires 0 <= i < count => SegmentAt(r, i));
    var approachDuration := 0.0;
    if r.approachSegmentCount != 0 {
      var last := segments[r.approachSegmentCount - 1];
      approachDuration := last.start + last.duration;
    }
    return Success(Plan(r.joints, segments, duration, referenceDuration, r.approachSegmentCount, approachDuration,
                        r.approachDeadline, r.trajectoryPv, r.pvReferenceVelocity, r.pvReferenceAcceleration));
  }
}
