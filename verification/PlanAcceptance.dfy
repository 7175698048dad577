/** Exactly which trajectory requests are accepted, and which segments their extrema check passes
    (runtime/src/runtime_trajectory.cpp). */
module PlanAcceptance {
  import opened RealArithmetic
  import opened Results
  import opened PolynomialRoots
  import opened PolynomialRootsProperties
  import opened TrajectorySegments
  import opened TrajectoryRequest
  import opened TrajectoryRequestProperties

  // ---------- The extrema check ----------

  /** At this moment of a segment the joint is within its limits, up to the tolerance. */
  predicate MomentWithin(c: Coefficients, joint: Joint, recovery: Recovery, duration: real, derivatives: bool, u: real)
    requires 0.0 < duration
  {
    var start, x := Position(c, 0.0), Position(c, u);
    var lowest := if recovery == Upwards && start < joint.lower then start else joint.lower;
    var highest := if recovery == Downwards && joint.upper < start then start else joint.upper;
    && lowest - 0.000001 <= x <= highest + 0.000001
    && (derivatives ==>
          var v, a := Velocity(c, u, duration), Acceleration(c, u, duration);
          && -joint.velocityLimit - 0.000001 <= v <= joint.velocityLimit + 0.000001
          && (0.0 < joint.pvVelocityLimit ==>
                -joint.pvVelocityLimit - 0.000001 <= v <= joint.pvVelocityLimit + 0.000001)
          && -joint.accelerationLimit - 0.000001 <= a <= joint.accelerationLimit + 0.000001)
  }

  lemma CandidatesInside(derivative: Polynomial)
    ensures forall i :: 0 <= i < |Candidates(derivative)| ==> 0.0 <= Candidates(derivative)[i] <= 1.0
  {
    RootsOrderedAndSpaced(derivative);
    hide Roots;
  }

  lemma MomentMeans(c: Coefficients, joint: Joint, recovery: Recovery, duration: real, u: real)
    requires 0.0 < duration
    ensures MomentWithin(c, joint, recovery, duration, false, u) <==> PositionAllowed(c, joint, recovery, u)
    ensures MomentWithin(c, joint, recovery, duration, true, u)
       <==> PositionAllowed(c, joint, recovery, u) && VelocityAllowed(c, joint, duration, u)
            && AccelerationAllowed(c, joint, duration, u)
  {
    hide Position, Velocity, Acceleration;
  }

  /** A segment on which a joint is within its limits at every moment passes. */
  lemma WithinPasses(c: Coefficients, joint: Joint, recovery: Recovery, duration: real, derivatives: bool)
    requires 0.0 < duration
    requires forall u :: 0.0 <= u <= 1.0 ==> MomentWithin(c, joint, recovery, duration, derivatives, u)
    ensures JointWithin(c, joint, recovery, duration, derivatives)
  {
    hide Candidates, PositionAllowed, VelocityAllowed, AccelerationAllowed, MomentWithin, Derivative;
    var v := Derivative(c);
    var a := Derivative(v);
    var jerk := Derivative(a);
    CandidatesInside(v);
    CandidatesInside(a);
    CandidatesInside(jerk);
    forall u | 0.0 <= u <= 1.0
      ensures PositionAllowed(c, joint, recovery, u)
      ensures derivatives ==> VelocityAllowed(c, joint, duration, u) && AccelerationAllowed(c, joint, duration, u)
    {
      assert MomentWithin(c, joint, recovery, duration, derivatives, u);
      MomentMeans(c, joint, recovery, duration, u);
    }
  }

  /** A refused segment takes some joint beyond its limits, by more than the tolerance, at one of its moments; and a
      passed one takes none beyond them at its ends. */
  lemma RefusalHasAMoment(duration: real, coefficients: seq<Coefficients>, joints: seq<Joint>,
                          recoveries: seq<Recovery>, derivatives: bool)
    requires 0.0 < duration && |coefficients| == |joints| == |recoveries|
    ensures !ExtremaWithin(duration, coefficients, joints, recoveries, derivatives) ==>
              exists j, u :: 0 <= j < |joints| && 0.0 <= u <= 1.0
                             && !MomentWithin(coefficients[j], joints[j], recoveries[j], duration, derivatives, u)
    ensures ExtremaWithin(duration, coefficients, joints, recoveries, derivatives) ==>
              forall j :: 0 <= j < |joints| ==>
                && MomentWithin(coefficients[j], joints[j], recoveries[j], duration, derivatives, 0.0)
                && MomentWithin(coefficients[j], joints[j], recoveries[j], duration, derivatives, 1.0)
  {
    hide MomentWithin, JointWithin;
    if !ExtremaWithin(duration, coefficients, joints, recoveries, derivatives) {
      var j :| 0 <= j < |joints| && !JointWithin(coefficients[j], joints[j], recoveries[j], duration, derivatives);
      if forall u :: 0.0 <= u <= 1.0 ==>
           MomentWithin(coefficients[j], joints[j], recoveries[j], duration, derivatives, u)
      {
        WithinPasses(coefficients[j], joints[j], recoveries[j], duration, derivatives);
      }
    } else {
      forall j | 0 <= j < |joints|
        ensures MomentWithin(coefficients[j], joints[j], recoveries[j], duration, derivatives, 0.0)
        ensures MomentWithin(coefficients[j], joints[j], recoveries[j], duration, derivatives, 1.0)
      {
        assert JointWithin(coefficients[j], joints[j], recoveries[j], duration, derivatives);
        EndsPass(coefficients[j], joints[j], recoveries[j], duration, derivatives);
      }
    }
  }

  lemma EndsPass(c: Coefficients, joint: Joint, recovery: Recovery, duration: real, derivatives: bool)
    requires 0.0 < duration && JointWithin(c, joint, recovery, duration, derivatives)
    ensures MomentWithin(c, joint, recovery, duration, derivatives, 0.0)
    ensures MomentWithin(c, joint, recovery, duration, derivatives, 1.0)
  {
    hide PositionAllowed, VelocityAllowed, AccelerationAllowed, MomentWithin, Derivative, Roots;
    var v := Derivative(c);
    var a := Derivative(v);
    var jerk := Derivative(a);
    assert Candidates(v)[0] == 0.0 && Candidates(v)[1] == 1.0;
    assert Candidates(a)[0] == 0.0 && Candidates(a)[1] == 1.0;
    assert Candidates(jerk)[0] == 0.0 && Candidates(jerk)[1] == 1.0;
    MomentMeans(c, joint, recovery, duration, 0.0);
    MomentMeans(c, joint, recovery, duration, 1.0);
  }

  // ---------- The request ----------

  predicate HeaderFits(r: Request) {
    && (r.trajectoryPv ==>
          r.mode == Pv && 0.0 < r.pvReferenceVelocity && 0.0 < r.pvReferenceAcceleration && 0.0 < r.pvDriveVelocityLimit)
    && 1 <= |r.joints| <= 32 && 2 <= |r.waypoints| <= 30000 && r.approachSegmentCount < |r.waypoints|
  }

  /** The joint drives an arm motor of its own, is configured soundly, and can follow the mode asked for. */
  predicate JointFits(r: Request, j: nat)
    requires j < |r.joints|
  {
    var joint, drive := r.joints[j], r.joints[j].drive;
    && drive.motor.Some? && drive.motor.value in r.arm
    && (forall k :: 0 <= k < j ==> r.joints[k].drive.motor != drive.motor)
    && (drive.direction == 1.0 || drive.direction == -1.0)
    && 0.0 < drive.velocityCommandScale && 0.0 < drive.velocityFeedbackScale && 0.0 < drive.torqueCommandScale
    && 0.0 < drive.torqueLimit && joint.lower < joint.upper && 0.0 < joint.velocityLimit && 0.0 < joint.accelerationLimit
    && (r.mode == Mit ==>
          && 0.0 <= drive.mitKp <= 500.0 && 0.0 <= drive.mitKd <= 5.0
          && -drive.torqueLimit <= drive.mitFeedforwardTorque <= drive.torqueLimit)
    && (r.mode == Pv ==>
          && 0.0 < joint.pvVelocityLimit <= joint.velocityLimit
          && 0.0 <= drive.pvHoldVelocityLimit <= joint.pvVelocityLimit
          && (r.trajectoryPv ==>
                && r.pvReferenceVelocity <= joint.velocityLimit
                && r.pvReferenceAcceleration <= joint.accelerationLimit
                && r.pvDriveVelocityLimit <= joint.velocityLimit))
  }

  /** A position outside the limits is accepted at the start, if recovering is allowed; and on the way in from there,
      before the joint has been inside and before the end. */
  predicate PositionFits(r: Request, i: nat, j: nat)
    requires Names(r, i, j)
  {
    var lower, upper, start, x := r.joints[j].lower, r.joints[j].upper, PositionAt(r, 0, j), PositionAt(r, i, j);
    || lower <= x <= upper
    || (r.allowRecovery
        && (i == 0
            || (&& 0 < i < |r.waypoints| - 1
                && (forall k: nat :: 1 <= k < i ==> !(lower <= PositionAt(r, k, j) <= upper))
                && (if start < lower then PositionAt(r, i - 1, j) - 0.000001 <= x
                    else upper < start && x <= PositionAt(r, i - 1, j) + 0.000001))))
  }

  predicate PointFits(r: Request, i: nat, j: nat)
    requires Names(r, i, j)
  {
    var w, joint := r.waypoints[i], r.joints[j];
    && PositionFits(r, i, j)
    && (j in w.velocityMask ==> -joint.velocityLimit <= w.velocities[j] <= joint.velocityLimit)
    && (j in w.accelerationMask ==> -joint.accelerationLimit <= w.accelerations[j] <= joint.accelerationLimit)
  }

  ghost predicate WaypointFits(r: Request, i: nat)
    requires i < |r.waypoints| && ShapedTo(r, i + 1)
  {
    && (0 < i ==> r.waypoints[i - 1].time < r.waypoints[i].time)
    && (forall bit :: bit in r.waypoints[i].velocityMask ==> bit < |r.joints|)
    && (forall bit :: bit in r.waypoints[i].accelerationMask ==> bit < |r.joints|)
    && (forall j: nat :: j < |r.joints| ==> PointFits(r, i, j))
  }

  ghost predicate WaypointsFit(r: Request) {
    && |r.waypoints| > 0 && 0.0 <= r.waypoints[0].time && ShapedTo(r, |r.waypoints|)
    && forall i: nat :: i < |r.waypoints| ==> WaypointFits(r, i)
  }

  predicate ScheduleFits(r: Request)
    requires |r.waypoints| > 0
  {
    var reference := r.waypoints[|r.waypoints| - 1].time - r.waypoints[0].time;
    var total := if 0.0 < r.completionDeadline then r.completionDeadline else reference;
    && 0.0 < reference <= 3600.0 && reference <= total + 0.000001 && total <= 3600.0
    && (r.approachDeadline == 0.0 || 0.0 < r.approachDeadline < total)
  }

  lemma JointExactly(r: Request, j: nat)
    requires j < |r.joints|
    ensures JointError(r, j).None? <==> JointFits(r, j)
  {
  }

  lemma {:induction false} JointsExactly(r: Request, j: nat)
    requires j <= |r.joints|
    ensures JointErrorFrom(r, j).None? <==> forall k: nat :: j <= k < |r.joints| ==> JointFits(r, k)
    decreases |r.joints| - j
  {
    hide JointError, JointFits;
    if j < |r.joints| {
      JointExactly(r, j);
      JointsExactly(r, j + 1);
    }
  }

  lemma PositionExactly(r: Request, i: nat, j: nat)
    requires Names(r, i, j)
    ensures PositionAccepted(r, i, j) <==> PositionFits(r, i, j)
  {
    if 0 < i && RecoveryOf(r, j) != NotRecovering {
      forall k: nat | 1 <= k < i
        ensures Inside(r, k, j) <==> r.joints[j].lower <= PositionAt(r, k, j) <= r.joints[j].upper
      {
      }
      if RecoveredBefore(r, i, j) {
        var k: nat :| 1 <= k < i && Inside(r, k, j);
        assert r.joints[j].lower <= PositionAt(r, k, j) <= r.joints[j].upper;
      }
    }
  }

  lemma PointExactly(r: Request, i: nat, j: nat)
    requires Names(r, i, j)
    ensures PointError(r, i, j).None? <==> PointFits(r, i, j)
  {
    PositionExactly(r, i, j);
    hide PositionAccepted, PositionFits;
  }

  lemma {:induction false} PointsExactly(r: Request, i: nat, j: nat)
    requires i < |r.waypoints| && ShapedTo(r, i + 1) && j <= |r.joints|
    ensures PointErrorFrom(r, i, j).None? <==> forall k: nat :: j <= k < |r.joints| ==> PointFits(r, i, k)
    decreases |r.joints| - j
  {
    hide PointError, PointFits;
    if j < |r.joints| {
      PointExactly(r, i, j);
      PointsExactly(r, i, j + 1);
    }
  }

  lemma {:induction false} WaypointsExactly(r: Request, i: nat)
    requires i <= |r.waypoints| && ShapedTo(r, i)
    ensures WaypointErrorFrom(r, i).None?
       <==> ShapedTo(r, |r.waypoints|) && forall k: nat :: i <= k < |r.waypoints| ==> WaypointFits(r, k)
    decreases |r.waypoints| - i
  {
    hide WaypointFits;
    if i < |r.waypoints| {
      if WaypointShaped(r, r.waypoints[i]) {
        WaypointExactly(r, i);
        WaypointsExactly(r, i + 1);
      }
    }
  }

  lemma WaypointExactly(r: Request, i: nat)
    requires i < |r.waypoints| && ShapedTo(r, i + 1)
    ensures WaypointError(r, i).None? <==> WaypointFits(r, i)
  {
    PointsExactly(r, i, 0);
    hide PointErrorFrom, PointFits;
  }

  /** A request is planned exactly if its header, every joint, every waypoint and the schedule fit, it moves all motors
      of the arm, and every segment passes the extrema check. */
  lemma PlannedExactly(r: Request)
    ensures Planned(r).Success? <==>
              && HeaderFits(r) && |r.joints| == |r.arm| && (forall j: nat :: j < |r.joints| ==> JointFits(r, j))
              && WaypointsFit(r) && ScheduleFits(r) && WellFormed(r)
              && forall i: nat :: i + 1 < |r.waypoints| ==> SegmentWithin(r, i)
  {
    JointsExactly(r, 0);
    if |r.waypoints| >= 2 {
      WaypointsExactly(r, 0);
      if WaypointErrorFrom(r, 0).None? {
        AcceptedIsWellFormed(r);
      }
    }
    hide JointErrorFrom, JointFits, WaypointErrorFrom, WaypointFits, SegmentWithin, SegmentAt, WellFormed;
  }
}
