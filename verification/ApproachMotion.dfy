/** How an accepted Cartesian plan moves where it starts and ends, where its approach meets it, and behind that
    (runtime/src/product_cartesian.cpp, runtime/src/runtime_trajectory.cpp). */
module ApproachMotion {
  import opened RealArithmetic
  import opened Results
  import opened CartesianPath
  import opened StretchFactor
  import opened CartesianTiming
  import opened CartesianTimingProperties
  import opened TrajectorySegments
  import opened TrajectoryRequest
  import opened CartesianApproach
  import opened WaypointMotion
  import Properties = CartesianApproachProperties

  /** The request is made with these waypoints for the joints of the product, not sampled from positions. */
  ghost predicate RequestsWaypoints(r: Request, waypoints: seq<Waypoint>) {
    r.waypoints == waypoints && |r.joints| == DOF && !r.trajectoryPv
  }

  lemma PassesResting(r: Request, i: nat, j: nat)
    requires Planned(r).Success? && !r.trajectoryPv && i < |r.waypoints| && j < |r.joints| == DOF && j in ALL_JOINTS
    requires var w := r.waypoints[i];
             w.velocityMask == w.accelerationMask == ALL_JOINTS && |w.velocities| == |w.accelerations| == |w.positions| == DOF
    ensures var w := r.waypoints[i];
            Passes(Planned(r).value, i, j, Kinematics(w.positions[j], w.velocities[j], w.accelerations[j]))
  {
    GivenIsKept(r, i, j);
    hide Planned, Passes;
    var motion :| Passes(Planned(r).value, i, j, motion);
    var w := r.waypoints[i];
    assert motion == Kinematics(w.positions[j], w.velocities[j], w.accelerations[j]);
  }

  lemma JointNamed(j: nat)
    requires j < DOF
    ensures j in ALL_JOINTS && AT_REST[j] == 0.0
  {
  }

  /** A plan over a timed path has a waypoint at every knot, at its time; it starts with the given derivatives and
      ends at rest. */
  lemma PlanStartsAndRests(r: Request, path: TimedPath, velocities: JointPoint, accelerations: JointPoint, j: nat)
    requires path.Shaped() && RequestsWaypoints(r, Assembled(path, velocities, accelerations))
    requires Planned(r).Success? && j < DOF
    ensures |r.waypoints| == |path.points|
    ensures forall i :: 0 <= i < |path.points| ==>
              r.waypoints[i].positions == path.points[i] && r.waypoints[i].time == path.timestamps[i]
    ensures Passes(Planned(r).value, 0, j, Kinematics(path.points[0][j], velocities[j], accelerations[j]))
    ensures var last := |path.points| - 1;
            Passes(Planned(r).value, last, j, Kinematics(path.points[last][j], 0.0, 0.0))
  {
    hide Planned, Passes;
    JointNamed(j);
    PassesResting(r, 0, j);
    PassesResting(r, |path.points| - 1, j);
  }

  /** Behind its approach a plan starts at rest at the first knot of the approach, and passes the point where the two
      meet at rest, at the time the approach takes. */
  lemma ApproachRests(r: Request, waypoints: seq<Waypoint>, approach: TimedPath, j: nat)
    requires Properties.Timed(waypoints) && approach.Shaped() && j < DOF
    requires approach.points[|approach.points| - 1] == waypoints[0].positions
    requires RequestsWaypoints(r, Prepended(waypoints, approach).waypoints) && Planned(r).Success?
    ensures var n := |approach.points| - 1;
            && n < |r.waypoints| && r.waypoints[n].time == Later(waypoints[0].time, Duration(approach))
            && Passes(Planned(r).value, 0, j, Kinematics(approach.points[0][j], 0.0, 0.0))
            && Passes(Planned(r).value, n, j, Kinematics(waypoints[0].positions[j], 0.0, 0.0))
  {
    var n := |approach.points| - 1;
    Properties.PrependedLength(waypoints, approach);
    Properties.PrependedWaypoint(waypoints, approach, 0);
    Properties.PrependedWaypoint(waypoints, approach, n);
    hide Planned, Passes, Prepended;
    JointNamed(j);
    PassesResting(r, 0, j);
    PassesResting(r, n, j);
  }

  /** A plan gets an approach exactly if it has waypoints, the reference names all joints, the way to the first waypoint
      can be timed, and both together stay within 30000 waypoints and 60 s. */
  lemma PrependedExactly(waypoints: seq<Waypoint>, reference: seq<real>, limits: Limits, sqrt: real -> real)
    requires |waypoints| > 0 ==> |waypoints[0].positions| == DOF
    ensures Approach(waypoints, reference, limits, sqrt).Success?
       <==> && |waypoints| > 0 && |reference| == DOF
            && var timed := Timing([reference, waypoints[0].positions], limits, sqrt);
            && timed.Success? && timed.value.Shaped()
            && var all := Prepended(waypoints, timed.value).waypoints;
            && 0 < |all| <= 30000 && all[|all| - 1].time <= 60.0
    ensures Approach(waypoints, reference, limits, sqrt).Success? ==>
              Timing([reference, waypoints[0].positions], limits, sqrt)
              == Success(Approach(waypoints, reference, limits, sqrt).value)
  {
    hide Timing;
    if |waypoints| > 0 && |reference| == DOF && Timing([reference, waypoints[0].positions], limits, sqrt).Success? {
      TimingShaped([reference, waypoints[0].positions], limits, sqrt);
    }
  }

  // ---------- Behind the approach ----------

  /** The same plan without and with an approach in front. */
  ghost predicate WithApproach(r: Request, s: Request, approach: TimedPath) {
    && WellFormed(r) && WellFormed(s) && approach.Shaped() && Properties.Timed(r.waypoints)
    && s.waypoints == Prepended(r.waypoints, approach).waypoints && s.joints == r.joints && s.trajectoryPv == r.trajectoryPv
    && approach.timestamps[0] == 0.0
  }

  lemma WaypointBehind(r: Request, s: Request, approach: TimedPath, i: nat)
    requires WithApproach(r, s, approach) && i < |r.waypoints|
    ensures var n := |approach.points| - 1;
            && |s.waypoints| == n + |r.waypoints|
            && s.waypoints[n + i].time == r.waypoints[i].time + Duration(approach)
            && s.waypoints[n + i].positions == r.waypoints[i].positions
            && (0 < i ==> s.waypoints[n + i] == r.waypoints[i].(time := r.waypoints[i].time + Duration(approach)))
            && TimeAt(s, n + i) == TimeAt(r, i) + Duration(approach)
  {
    Properties.PrependedLength(r.waypoints, approach);
    Properties.PrependedWaypoint(r.waypoints, approach, 0);
    Properties.PrependedWaypoint(r.waypoints, approach, |approach.points| - 1 + i);
    hide Prepended;
  }

  lemma SlopeBehind(r: Request, s: Request, approach: TimedPath, i: nat, k: nat, j: nat)
    requires WithApproach(r, s, approach) && i < k < |r.waypoints| && k <= i + 2 && j < |r.joints|
    ensures var n := |approach.points| - 1;
            && n + k < |s.waypoints| && r.waypoints[i].time < r.waypoints[k].time
            && s.waypoints[n + i].time < s.waypoints[n + k].time
            && MeanSlope(s, n + i, n + k, j) == MeanSlope(r, i, k, j)
  {
    WaypointBehind(r, s, approach, i);
    WaypointBehind(r, s, approach, k);
    hide Ratio, Prepended;
    assert r.waypoints[i].time < r.waypoints[i + 1].time <= r.waypoints[k].time;
  }

  lemma VelocityBehind(r: Request, s: Request, approach: TimedPath, i: nat, j: nat)
    requires WithApproach(r, s, approach) && 0 < i < |r.waypoints| && j < |r.joints|
    ensures var n := |approach.points| - 1;
            && |s.waypoints| == n + |r.waypoints| && VelocityAt(s, n + i, j) == VelocityAt(r, i, j)
  {
    WaypointBehind(r, s, approach, i);
    hide Prepended, MeanSlope;
    if i + 1 < |r.waypoints| {
      SlopeBehind(r, s, approach, i - 1, i + 1, j);
    }
  }

  lemma AccelerationBehind(r: Request, s: Request, approach: TimedPath, i: nat, j: nat)
    requires WithApproach(r, s, approach) && 0 < i < |r.waypoints| && j < |r.joints|
    ensures var n := |approach.points| - 1;
            && |s.waypoints| == n + |r.waypoints| && AccelerationAt(s, n + i, j) == AccelerationAt(r, i, j)
  {
    WaypointBehind(r, s, approach, i);
    hide Ratio, Prepended, MeanSlope;
    if i + 1 < |r.waypoints| {
      SlopeBehind(r, s, approach, i - 1, i, j);
      SlopeBehind(r, s, approach, i, i + 1, j);
      assert TimeAt(s, |approach.points| + i) - TimeAt(s, |approach.points| + i - 2) == TimeAt(r, i + 1) - TimeAt(r, i - 1) by {
        WaypointBehind(r, s, approach, i - 1);
        WaypointBehind(r, s, approach, i + 1);
      }
    }
  }

  lemma KinematicsBehind(r: Request, s: Request, approach: TimedPath, i: nat, j: nat)
    requires WithApproach(r, s, approach) && 0 < i < |r.waypoints| && j < |r.joints|
    ensures var n := |approach.points| - 1;
            && |s.waypoints| == n + |r.waypoints| && KinematicsAt(s, n + i, j) == KinematicsAt(r, i, j)
  {
    hide VelocityAt, AccelerationAt;
    VelocityBehind(r, s, approach, i, j);
    AccelerationBehind(r, s, approach, i, j);
    WaypointBehind(r, s, approach, i);
  }

  lemma CoefficientsBehind(r: Request, s: Request, approach: TimedPath, i: nat, j: nat)
    requires WithApproach(r, s, approach) && i + 1 < |r.waypoints| && (r.trajectoryPv || 0 < i) && j < |r.joints|
    ensures |approach.points| - 1 + i + 1 < |s.waypoints|
    ensures CoefficientsAt(s, |approach.points| - 1 + i, j) == CoefficientsAt(r, i, j)
  {
    WaypointBehind(r, s, approach, i);
    WaypointBehind(r, s, approach, i + 1);
    if 0 < i {
      KinematicsBehind(r, s, approach, i, j);
    }
    KinematicsBehind(r, s, approach, i + 1, j);
    hide KinematicsAt, LinearCoefficients, QuinticCoefficients, Prepended;
  }

  /** The approach only shifts the plan in time: segment by segment the motion of every joint is the same, for a
      quintic plan from its second waypoint on. */
  lemma BehindApproachUnchanged(r: Request, s: Request, approach: TimedPath, i: nat)
    requires WithApproach(r, s, approach) && i + 1 < |r.waypoints| && (r.trajectoryPv || 0 < i)
    ensures var n := |approach.points| - 1;
            && n + i + 1 < |s.waypoints|
            && SegmentAt(s, n + i) == SegmentAt(r, i).(start := SegmentAt(r, i).start + Duration(approach))
  {
    var n := |approach.points| - 1;
    WaypointBehind(r, s, approach, i);
    WaypointBehind(r, s, approach, i + 1);
    forall j: nat | j < |r.joints| ensures CoefficientsAt(s, n + i, j) == CoefficientsAt(r, i, j) {
      CoefficientsBehind(r, s, approach, i, j);
    }
    hide CoefficientsAt, WithApproach;
    assert SegmentAt(s, n + i).coefficients == SegmentAt(r, i).coefficients;
  }

  /** On the way to the plan a position-sampled approach runs straight from knot to knot, at the times of its timing. */
  lemma ApproachIsStraight(s: Request, waypoints: seq<Waypoint>, approach: TimedPath, i: nat, j: nat, u: real)
    requires Properties.Timed(waypoints) && approach.Shaped() && approach.timestamps[0] == 0.0
    requires approach.points[|approach.points| - 1] == waypoints[0].positions && i + 1 < |approach.points| && j < DOF
    requires WellFormed(s) && s.waypoints == Prepended(waypoints, approach).waypoints
    requires s.trajectoryPv && |s.joints| == DOF
    ensures i + 1 < |s.waypoints| && j < |SegmentAt(s, i).coefficients|
    ensures SegmentAt(s, i).start == approach.timestamps[i]
    ensures SegmentAt(s, i).duration == approach.timestamps[i + 1] - approach.timestamps[i]
    ensures Position(SegmentAt(s, i).coefficients[j], u) == Blend(approach.points[i][j], approach.points[i + 1][j], u)
  {
    Properties.PrependedLength(waypoints, approach);
    Properties.PrependedWaypoint(waypoints, approach, 0);
    Properties.PrependedWaypoint(waypoints, approach, i);
    Properties.PrependedWaypoint(waypoints, approach, i + 1);
    hide Prepended, Position, Blend;
    LinearIsStraight(PositionAt(s, i, j), PositionAt(s, i + 1, j), u);
  }
}
