/** The motion with which an accepted quintic plan passes its waypoints, as its samplers read it
    (runtime/src/runtime_trajectory.cpp). */
module WaypointMotion {
  import opened RealArithmetic
  import opened Results
  import opened TrajectorySegments
  import opened TrajectoryRequest
  import opened TrajectoryRequestProperties

  /** At waypoint i joint j of the plan reads as given, at the end of the segment before it and at the start of the
      segment after it. */
  ghost predicate Passes(plan: Plan, i: nat, j: nat, motion: Kinematics) {
    && i <= |plan.segments|
    && (0 < i ==> ReadsAs(plan.segments[i - 1], j, 1.0, motion))
    && (i < |plan.segments| ==> ReadsAs(plan.segments[i], j, 0.0, motion))
  }

  ghost predicate ReadsAs(s: Segment, j: nat, u: real, motion: Kinematics) {
    j < |s.coefficients| && 0.0 < s.duration && Sampled(s.coefficients[j], u, s.duration) == motion
  }

  /** A quintic plan of a request, and an inner waypoint of it. */
  ghost predicate Inner(r: Request, i: nat, j: nat) {
    Planned(r).Success? && !r.trajectoryPv && 0 < i && i + 1 < |r.waypoints| && j < |r.joints|
  }

  lemma PassesWaypoint(r: Request, i: nat, j: nat)
    requires Planned(r).Success? && !r.trajectoryPv && i < |r.waypoints| && j < |r.joints|
    ensures WellFormed(r) && Passes(Planned(r).value, i, j, KinematicsAt(r, i, j))
  {
    QuinticTrajectoryContinuous(r, i, j);
    hide Planned, KinematicsAt, Sampled;
  }

  // ---------- Waypoints whose derivatives are left open ----------

  function ParabolaAt(a: real, b: real, c: real, t: real): real {
    a + b * t + c * t * t
  }

  /** Waypoint i and its neighbours lie on a parabola over time. */
  ghost predicate OnParabola(r: Request, i: nat, j: nat, a: real, b: real, c: real)
    requires WellFormed(r) && 0 < i && i + 1 < |r.waypoints| && j < |r.joints|
  {
    && PositionAt(r, i - 1, j) == ParabolaAt(a, b, c, TimeAt(r, i - 1))
    && PositionAt(r, i, j) == ParabolaAt(a, b, c, TimeAt(r, i))
    && PositionAt(r, i + 1, j) == ParabolaAt(a, b, c, TimeAt(r, i + 1))
  }

  lemma Chord(a: real, b: real, c: real, s: real, t: real)
    requires s < t
    ensures Ratio(ParabolaAt(a, b, c, t) - ParabolaAt(a, b, c, s), t - s) == b + c * (s + t)
  {
    var slope := b + c * (s + t);
    assert ParabolaAt(a, b, c, t) - ParabolaAt(a, b, c, s) == slope * (t - s);
    DivMul(slope, t - s);
  }

  lemma ChordOfChords(b: real, c: real, s: real, t: real, u: real)
    requires s < u
    ensures Ratio(2.0 * ((b + c * (t + u)) - (b + c * (s + t))), u - s) == 2.0 * c
  {
    assert 2.0 * ((b + c * (t + u)) - (b + c * (s + t))) == 2.0 * c * (u - s);
    DivMul(2.0 * c, u - s);
  }

  lemma OpenDerivatives(r: Request, i: nat, j: nat, a: real, b: real, c: real)
    requires WellFormed(r) && 0 < i && i + 1 < |r.waypoints| && j < |r.joints| && OnParabola(r, i, j, a, b, c)
    ensures j !in r.waypoints[i].velocityMask ==> VelocityAt(r, i, j) == b + c * (TimeAt(r, i - 1) + TimeAt(r, i + 1))
    ensures j !in r.waypoints[i].accelerationMask ==> AccelerationAt(r, i, j) == 2.0 * c
  {
    assert r.waypoints[i - 1].time < r.waypoints[i].time < r.waypoints[i + 1].time;
    var s, t, u := TimeAt(r, i - 1), TimeAt(r, i), TimeAt(r, i + 1);
    Chord(a, b, c, s, u);
    Chord(a, b, c, s, t);
    Chord(a, b, c, t, u);
    ChordOfChords(b, c, s, t, u);
    hide ParabolaAt, Ratio;
  }

  /** An inner waypoint on a parabola with its neighbours, its derivatives left open: the plan passes it with the
      acceleration of the parabola, and with its velocity in the middle between the neighbours. */
  lemma ParabolaIsFollowed(r: Request, i: nat, j: nat, a: real, b: real, c: real)
    requires Inner(r, i, j) && WellFormed(r) && OnParabola(r, i, j, a, b, c)
    requires j !in r.waypoints[i].velocityMask && j !in r.waypoints[i].accelerationMask
    ensures var middle := (TimeAt(r, i - 1) + TimeAt(r, i + 1)) / 2.0;
            Passes(Planned(r).value, i, j, Kinematics(PositionAt(r, i, j), b + 2.0 * c * middle, 2.0 * c))
  {
    PassesWaypoint(r, i, j);
    hide Planned, Passes, ParabolaAt, VelocityAt, AccelerationAt;
    OpenDerivatives(r, i, j, a, b, c);
    var sum := TimeAt(r, i - 1) + TimeAt(r, i + 1);
    assert 2.0 * c * (sum / 2.0) == c * sum;
  }

  /** Waypoints on a line are passed with its slope and without acceleration. */
  lemma LineIsFollowed(r: Request, i: nat, j: nat, a: real, b: real)
    requires Inner(r, i, j) && WellFormed(r) && OnParabola(r, i, j, a, b, 0.0)
    requires j !in r.waypoints[i].velocityMask && j !in r.waypoints[i].accelerationMask
    ensures Passes(Planned(r).value, i, j, Kinematics(PositionAt(r, i, j), b, 0.0))
  {
    hide ParabolaAt, OnParabola;
    PassesWaypoint(r, i, j);
    hide Planned, Passes, VelocityAt, AccelerationAt;
    OpenDerivatives(r, i, j, a, b, 0.0);
  }

  /** At equal spacing the velocity is the parabola's own at the waypoint. */
  lemma EquallySpacedParabola(r: Request, i: nat, j: nat, a: real, b: real, c: real)
    requires Inner(r, i, j) && WellFormed(r) && OnParabola(r, i, j, a, b, c)
    requires j !in r.waypoints[i].velocityMask && j !in r.waypoints[i].accelerationMask
    requires SegmentDuration(r, i - 1) == SegmentDuration(r, i)
    ensures Passes(Planned(r).value, i, j, Kinematics(PositionAt(r, i, j), b + 2.0 * c * TimeAt(r, i), 2.0 * c))
  {
    hide ParabolaAt, OnParabola;
    PassesWaypoint(r, i, j);
    hide Planned, Passes, VelocityAt, AccelerationAt, TimeAt;
    EvenDerivatives(r, i, j, a, b, c);
  }

  lemma EvenDerivatives(r: Request, i: nat, j: nat, a: real, b: real, c: real)
    requires WellFormed(r) && 0 < i && i + 1 < |r.waypoints| && j < |r.joints| && OnParabola(r, i, j, a, b, c)
    requires SegmentDuration(r, i - 1) == SegmentDuration(r, i)
    ensures j !in r.waypoints[i].velocityMask ==> VelocityAt(r, i, j) == b + 2.0 * c * TimeAt(r, i)
    ensures j !in r.waypoints[i].accelerationMask ==> AccelerationAt(r, i, j) == 2.0 * c
  {
    OpenDerivatives(r, i, j, a, b, c);
    EqualSpacing(r, i, c);
    hide *;
  }

  lemma EqualSpacing(r: Request, i: nat, c: real)
    requires WellFormed(r) && 0 < i && i + 1 < |r.waypoints| && SegmentDuration(r, i - 1) == SegmentDuration(r, i)
    ensures c * (TimeAt(r, i - 1) + TimeAt(r, i + 1)) == 2.0 * c * TimeAt(r, i)
  {
    var t := TimeAt(r, i);
    assert TimeAt(r, i - 1) + TimeAt(r, i + 1) == 2.0 * t;
    assert c * (2.0 * t) == 2.0 * c * t;
  }

  // ---------- Given derivatives, and the ends ----------

  /** A derivative the request gives is the one the plan passes the waypoint with; one left open at an end is zero. */
  lemma GivenIsKept(r: Request, i: nat, j: nat)
    requires Planned(r).Success? && !r.trajectoryPv && i < |r.waypoints| && j < |r.joints|
    ensures WellFormed(r)
    ensures exists motion :: Passes(Planned(r).value, i, j, motion)
    ensures forall motion :: Passes(Planned(r).value, i, j, motion) ==>
              var w, atEnd := r.waypoints[i], i == 0 || i + 1 == |r.waypoints|;
              && motion.position == w.positions[j]
              && (j in w.velocityMask ==> motion.velocity == w.velocities[j])
              && (j in w.accelerationMask ==> motion.acceleration == w.accelerations[j])
              && (atEnd && j !in w.velocityMask ==> motion.velocity == 0.0)
              && (atEnd && j !in w.accelerationMask ==> motion.acceleration == 0.0)
  {
    PassesWaypoint(r, i, j);
    PlanHasSegments(r);
    hide Planned, Sampled, MeanSlope, Ratio;
  }

  lemma PlanHasSegments(r: Request)
    requires Planned(r).Success?
    ensures |Planned(r).value.segments| == |r.waypoints| - 1 >= 1
  {
    PlanIsScheduled(r);
    hide Planned;
  }
}
