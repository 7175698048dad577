/** A request that keeps one joint where it is for a second, for concrete runs of the trajectory engine
    (runtime/src/runtime_trajectory.cpp). */
module StillTrajectory {
  import opened RealArithmetic
  import opened Results
  import opened PolynomialRoots
  import opened TrajectorySegments
  import opened TrajectoryRequest
  import opened TrajectoryRequestProperties

  const JOINT: Joint := Joint(-1.0, 1.0, 1.0, 1.0, 1.0, Drive(Some(1), 1.0, 1.0, 1.0, 1.0, 1.0, 0.0, 0.0, 0.0, 0.0))

  function StillAt(time: real): Waypoint {
    Waypoint(time, [0.0], [0.0], [0.0], {}, {})
  }

  function StillRequest(completionDeadline: real): Request {
    Request([1], Pv, true, [JOINT], [StillAt(0.0), StillAt(1.0)], 0, 0.0, completionDeadline, false, 1.0, 1.0, 1.0)
  }

  lemma {:induction false} StillWaypoints(deadline: real, i: nat)
    requires i <= 2
    ensures ShapedTo(StillRequest(deadline), i) && WaypointErrorFrom(StillRequest(deadline), i).None?
    decreases 2 - i
  {
    var r := StillRequest(deadline);
    if i < 2 {
      assert r.waypoints[i].positions[0] == 0.0;
      assert PointError(r, i, 0).None?;
      assert PointErrorFrom(r, i, 1).None?;
      assert WaypointError(r, i).None?;
      StillWaypoints(deadline, i + 1);
    }
  }

  lemma ZeroIsWithin(c: Coefficients, duration: real)
    requires c == [0.0, 0.0, 0.0, 0.0, 0.0, 0.0] && 0.0 < duration
    ensures JointWithin(c, JOINT, NotRecovering, duration, false)
  {
    forall u ensures Position(c, u) == 0.0 {
      ZeroEvaluates(c, u);
    }
    hide Position, Roots, Derivative;
  }

  lemma StillSegment(deadline: real)
    requires WellFormed(StillRequest(deadline))
    ensures SegmentWithin(StillRequest(deadline), 0)
  {
    var r := StillRequest(deadline);
    var c := CoefficientsAt(r, 0, 0);
    assert Recoveries(r)[0] == NotRecovering && |r.joints| == 1 && r.joints[0] == JOINT;
    assert c == LinearCoefficients(0.0, 0.0);
    hide JointWithin, StillRequest, WellFormed, CoefficientsAt;
    ZeroIsWithin(c, SegmentDuration(r, 0));
  }

  lemma StillJoint(deadline: real)
    ensures HeaderError(StillRequest(deadline)).None? && LayoutError(StillRequest(deadline)).None?
  {
    assert NamesFreshMotor(StillRequest(deadline), 0) && Configured(JOINT);
    assert JointErrorFrom(StillRequest(deadline), 1).None?;
  }

  lemma StillSchedule(deadline: real)
    requires deadline <= 0.0 || 1.0 - LIMIT_TOLERANCE <= deadline <= MAX_TRAJECTORY_DURATION
    ensures var r := StillRequest(deadline);
            && |r.waypoints| == 2 && ScheduleError(r).None? && ReferenceDuration(r) == 1.0
            && TotalDuration(r) == if deadline <= 0.0 then 1.0 else deadline
  {
  }

  /** It is accepted with every deadline that is not more than the tolerance early. */
  lemma StillIsPlanned(completionDeadline: real)
    requires completionDeadline <= 0.0 || 1.0 - LIMIT_TOLERANCE <= completionDeadline <= MAX_TRAJECTORY_DURATION
    ensures var r := StillRequest(completionDeadline);
            && Planned(r).Success? && ReferenceDuration(r) == 1.0
            && Planned(r).value.referenceDuration == 1.0
            && Planned(r).value.duration == (if completionDeadline <= 0.0 then 1.0 else completionDeadline)
            && Planned(r).value.approachSegmentCount == 0
  {
    var r := StillRequest(completionDeadline);
    StillWaypoints(completionDeadline, 0);
    StillJoint(completionDeadline);
    StillSchedule(completionDeadline);
    assert r.waypoints[0].time == 0.0;
    assert |r.waypoints| == 2 && r.approachSegmentCount == 0;
    hide StillRequest, WaypointErrorFrom, LayoutError, HeaderError, ScheduleError, SegmentWithin, SegmentAt, WellFormed;
    AcceptedIsWellFormed(r);
    StillSegment(completionDeadline);
  }

  /** An accepted plan that is shorter than its own references: the deadline is half the tolerance early. */
  lemma PlanShorterThanReferences()
    ensures var r := StillRequest(1.0 - 0.5 * LIMIT_TOLERANCE);
            && Planned(r).Success? && !DeadlineCovers(r)
            && Planned(r).value.duration < Planned(r).value.referenceDuration
  {
    StillIsPlanned(1.0 - 0.5 * LIMIT_TOLERANCE);
  }
}
