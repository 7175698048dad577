/** Cartesian plans in several pieces, and the approach motion put in front of a plan
    (runtime/src/product_cartesian.cpp). */
module CartesianApproach {
  import opened RealArithmetic
  import opened Results
  import opened CartesianPath
  import opened StretchFactor
  import opened CartesianTiming
  import opened CartesianTimingProperties
  import opened TrajectoryRequest

  // ---------- Piecewise timing ----------

  function Later(time: real, offset: real): real {
    offset + time
  }

  function AllLater(times: seq<real>, offset: real): (later: seq<real>)
    ensures |later| == |times|
  {
    seq(|times|, i requires 0 <= i < |times| => Later(times[i], offset))
  }

  /** Append a piece that starts where the head ends; the shared knot appears once. */
  function Join(head: TimedPath, piece: TimedPath): (joined: TimedPath)
    requires head.Shaped() && piece.Shaped()
    ensures joined.Shaped() && |joined.points| == |head.points| + |piece.points| - 1
  {
    TimedPath(head.points + piece.points[1..],
              head.timestamps + AllLater(piece.timestamps[1..], Duration(head)))
  }

  predicate OnPath(path: seq<JointPoint>, indices: seq<nat>) {
    forall i :: 0 <= i < |indices| ==> indices[i] < |path|
  }

  /** Indices into a path, the last of them its end. */
  predicate ControlPoints(path: seq<JointPoint>, indices: seq<nat>) {
    |indices| >= 2 && indices[0] == 0 && indices[|indices| - 1] + 1 == |path|
  }

  function Geometry(path: seq<JointPoint>, first: nat, last: nat): seq<JointPoint>
    requires first <= last < |path|
  {
    path[first..last + 1]
  }

  /** The timing of one piece between two control points. */
  function Piece(path: seq<JointPoint>, first: nat, last: nat, limits: Limits, sqrt: real -> real)
    : Result<TimedPath, Error>
    requires first < |path| && last < |path|
  {
    if last <= first then Failure(EmptySegment) else Timing(Geometry(path, first, last), limits, sqrt)
  }

  lemma TimingShaped(points: seq<JointPoint>, limits: Limits, sqrt: real -> real)
    requires Timing(points, limits, sqrt).Success?
    ensures Timing(points, limits, sqrt).value.Shaped()
  {
    hide Retry;
    RetryShaped(points, limits, sqrt, FirstDuration(LargestVariation(points, DOF), limits, sqrt), 0);
  }

  lemma {:induction false} RetryShaped(path: JointPath, limits: Limits, sqrt: real -> real, duration: real, attempt: nat)
    requires limits.Positive() && attempt <= MAX_ATTEMPTS
    requires Retry(path, limits, sqrt, duration, attempt).Success?
    ensures Retry(path, limits, sqrt, duration, attempt).value.Shaped()
    decreases MAX_ATTEMPTS - attempt
  {
    hide SubdivideFrom, Factor, FirstDuration, TimedAt;
    var knots := Attempt(path, limits, sqrt, duration).value;
    if knots.scale <= SETTLED {
      KnotsGrow(path, duration, Knots([0.0], 1.0), 0);
    } else {
      RetryShaped(path, limits, sqrt, Stretched(duration, knots.scale), attempt + 1);
    }
  }

  /** The timing of the first n pieces. */
  function Pieces(path: seq<JointPoint>, indices: seq<nat>, limits: Limits, sqrt: real -> real, n: nat)
    : (r: Result<TimedPath, Error>)
    requires 1 <= n < |indices| && OnPath(path, indices)
    ensures r.Success? ==> r.value.Shaped()
    decreases n
  {
    if n == 1 then
      var piece :- Piece(path, indices[0], indices[1], limits, sqrt);
      TimingShaped(Geometry(path, indices[0], indices[1]), limits, sqrt);
      Success(piece)
    else
      var head :- Pieces(path, indices, limits, sqrt, n - 1);
      var piece :- Piece(path, indices[n - 1], indices[n], limits, sqrt);
      TimingShaped(Geometry(path, indices[n - 1], indices[n]), limits, sqrt);
      Success(Join(head, piece))
  }

  function PiecewiseTiming(path: seq<JointPoint>, indices: seq<nat>, limits: Limits, sqrt: real -> real)
    : Result<TimedPath, Error>
    requires OnPath(path, indices)
  {
    if !ControlPoints(path, indices) then Failure(InvalidControlPoints)
    else
      var timed :- Pieces(path, indices, limits, sqrt, |indices| - 1);
      if MAX_WAYPOINTS < |timed.points| then Failure(Capacity) else Success(timed)
  }

  method AppendPiece(head: TimedPath, piece: TimedPath) returns (joined: TimedPath)
    requires head.Shaped() && piece.Shaped()
    ensures joined == Join(head, piece)
  {
    var points, timestamps := head.points, head.timestamps;
    var offset := head.timestamps[|head.timestamps| - 1];
    for sample := 1 to |piece.points|
      invariant points == head.points + piece.points[1..sample]
      invariant timestamps == head.timestamps + AllLater(piece.timestamps[1..sample], offset)
    {
      points := points + [piece.points[sample]];
      timestamps := timestamps + [offset + piece.timestamps[sample]];
      assert piece.timestamps[1..sample + 1] == piece.timestamps[1..sample] + [piece.timestamps[sample]];
    }
    joined := TimedPath(points, timestamps);
  }

  method TimeParameterizePiecewise(path: seq<JointPoint>, indices: seq<nat>, limits: Limits, sqrt: real -> real)
    returns (r: Result<TimedPath, Error>)
    requires OnPath(path, indices)
    ensures r == PiecewiseTiming(path, indices, limits, sqrt)
  {
    hide Timing, Join;
    if |indices| < 2 || indices[0] != 0 || indices[|indices| - 1] + 1 != |path| {
      return Failure(InvalidControlPoints);
    }
    var result := TimedPath([], []);
    for segment := 0 to |indices| - 1
      invariant segment > 0 ==> Pieces(path, indices, limits, sqrt, segment) == Success(result)
    {
      var first, last := indices[segment], indices[segment + 1];
      if last <= first {
        FailsAlong(path, indices, limits, sqrt, segment + 1, |indices| - 1);
        return Failure(EmptySegment);
      }
      var timed := TimeParameterizeCartesianTrajectory(path[first..last + 1], limits, sqrt);
      if timed.Failure? {
        FailsAlong(path, indices, limits, sqrt, segment + 1, |indices| - 1);
        return Failure(timed.error);
      }
      TimingShaped(path[first..last + 1], limits, sqrt);
      if segment == 0 {
        result := timed.value;
      } else {
        result := AppendPiece(result, timed.value);
      }
    }
    if |result.points| > MAX_WAYPOINTS {
      return Failure(Capacity);
    }
    return Success(result);
  }

  lemma {:induction false} FailsAlong(path: seq<JointPoint>, indices: seq<nat>, limits: Limits, sqrt: real -> real,
                                      n: nat, m: nat)
    requires 1 <= n <= m < |indices| && OnPath(path, indices)
    requires Pieces(path, indices, limits, sqrt, n).Failure?
    ensures Pieces(path, indices, limits, sqrt, m) == Pieces(path, indices, limits, sqrt, n)
    decreases m
  {
    hide Timing;
    if n < m {
      FailsAlong(path, indices, limits, sqrt, n, m - 1);
    }
  }

  // ---------- Plans ----------

  const AT_REST: JointPoint := [0.0, 0.0, 0.0, 0.0, 0.0, 0.0, 0.0, 0.0, 0.0, 0.0, 0.0, 0.0, 0.0, 0.0]
  const ALL_JOINTS: set<nat> := {0, 1, 2, 3, 4, 5, 6, 7, 8, 9, 10, 11, 12, 13}

  /** A waypoint with zero derivatives, which the mask may pin. */
  function Resting(time: real, positions: seq<real>, mask: set<nat>): Waypoint {
    Waypoint(time, positions, AT_REST, AT_REST, mask, mask)
  }

  /** Waypoint i of a plan over a timed path. */
  function PlanWaypoint(path: TimedPath, startVelocities: JointPoint, startAccelerations: JointPoint, i: nat): Waypoint
    requires path.Shaped() && i < |path.points|
  {
    if i == 0 then Waypoint(path.timestamps[i], path.points[i], startVelocities, startAccelerations, ALL_JOINTS, ALL_JOINTS)
    else if i + 1 == |path.points| then Resting(path.timestamps[i], path.points[i], ALL_JOINTS)
    else Resting(path.timestamps[i], path.points[i], {})
  }

  function Assembled(path: TimedPath, startVelocities: JointPoint, startAccelerations: JointPoint)
    : (waypoints: seq<Waypoint>)
    requires path.Shaped()
    ensures |waypoints| == |path.points|
  {
    seq(|path.points|, i requires 0 <= i < |path.points| => PlanWaypoint(path, startVelocities, startAccelerations, i))
  }

  /** Waypoint i of the approach, at rest; only the first one pins its derivatives. */
  function ApproachWaypoint(approach: TimedPath, i: nat): Waypoint
    requires approach.Shaped() && i < |approach.points|
  {
    Resting(approach.timestamps[i], approach.points[i], if i == 0 then ALL_JOINTS else {})
  }

  function Leading(approach: TimedPath): (leading: seq<Waypoint>)
    requires approach.Shaped()
    ensures |leading| == |approach.points| - 1
  {
    seq(|approach.points| - 1, i requires 0 <= i < |approach.points| - 1 => ApproachWaypoint(approach, i))
  }

  /** Waypoint i of the path, moved behind the approach; the first, where the two meet, is at rest. */
  function MovedWaypoint(w: Waypoint, i: nat, offset: real): Waypoint {
    if i == 0 then Resting(Later(w.time, offset), w.positions, ALL_JOINTS)
    else Waypoint(Later(w.time, offset), w.positions, w.velocities, w.accelerations, w.velocityMask, w.accelerationMask)
  }

  function Following(waypoints: seq<Waypoint>, offset: real): (following: seq<Waypoint>)
    ensures |following| == |waypoints|
  {
    seq(|waypoints|, i requires 0 <= i < |waypoints| => MovedWaypoint(waypoints[i], i, offset))
  }

  datatype PrependError = IncompletePlan | TimingFailed(error: Error) | CapacityExceeded | UnsafeTotal

  /** The approach for a plan, or why there is none. */
  function Approach(waypoints: seq<Waypoint>, reference: seq<real>, limits: Limits, sqrt: real -> real)
    : (r: Result<TimedPath, PrependError>)
    requires |waypoints| > 0 ==> |waypoints[0].positions| == DOF
    ensures r.Success? ==> |waypoints| > 0 && r.value.Shaped()
  {
    if |waypoints| == 0 || |reference| != DOF then Failure(IncompletePlan)
    else
      match Timing([reference, waypoints[0].positions], limits, sqrt)
      case Failure(error) => Failure(TimingFailed(error))
      case Success(approach) =>
        TimingShaped([reference, waypoints[0].positions], limits, sqrt);
        if MAX_WAYPOINTS - (if |waypoints| < MAX_WAYPOINTS then |waypoints| else MAX_WAYPOINTS) < |approach.points| - 1
        then Failure(CapacityExceeded)
        else if MAX_DURATION < Duration(approach) + waypoints[|waypoints| - 1].time then Failure(UnsafeTotal)
        else Success(approach)
  }

  datatype PlanState = PlanState(waypoints: seq<Waypoint>, approachSegmentCount: nat, approachDeadline: real,
                                 completionDeadline: real, minimumDuration: real)

  /** A plan behind its approach. */
  function Prepended(waypoints: seq<Waypoint>, approach: TimedPath): PlanState
    requires |waypoints| > 0 && approach.Shaped()
  {
    var total := Duration(approach) + waypoints[|waypoints| - 1].time;
    PlanState(Leading(approach) + Following(waypoints, Duration(approach)), |approach.points| - 1,
              Duration(approach), total, total)
  }

  class CartesianPlan {
    var waypoints: seq<Waypoint>
    var approachSegmentCount: nat
    var approachDeadline: real
    var completionDeadline: real
    var minimumDuration: real

    function State(): PlanState
      reads this
    {
      PlanState(waypoints, approachSegmentCount, approachDeadline, completionDeadline, minimumDuration)
    }

    /** A plan over a timed path, without an approach. */
    constructor (path: TimedPath, startVelocities: JointPoint, startAccelerations: JointPoint)
      requires path.Shaped()
      ensures State() == PlanState(Assembled(path, startVelocities, startAccelerations), 0, 0.0,
                                   Duration(path), Duration(path))
    {
      approachSegmentCount, approachDeadline := 0, 0.0;
      completionDeadline, minimumDuration := Duration(path), Duration(path);
      var assembled: seq<Waypoint> := [];
      for i := 0 to |path.points|
        invariant |assembled| == i
        invariant forall k :: 0 <= k < i ==> assembled[k] == PlanWaypoint(path, startVelocities, startAccelerations, k)
      {
        var w := Waypoint(path.timestamps[i], path.points[i], AT_REST, AT_REST, {}, {});
        if i == 0 {
          w := w.(velocities := startVelocities, accelerations := startAccelerations,
                  velocityMask := ALL_JOINTS, accelerationMask := ALL_JOINTS);
        } else if i + 1 == |path.points| {
          w := w.(velocityMask := ALL_JOINTS, accelerationMask := ALL_JOINTS);
        }
        assembled := assembled + [w];
      }
      waypoints := assembled;
    }

    /** Put an approach from a reference position in front of the plan. A refusal changes nothing. */
    method Prepend(reference: seq<real>, limits: Limits, sqrt: real -> real) returns (error: Option<PrependError>)
      requires |waypoints| > 0 ==> |waypoints[0].positions| == DOF
      modifies this
      ensures match Approach(old(waypoints), reference, limits, sqrt)
              case Failure(e) => error == Some(e) && State() == old(State())
              case Success(approach) => error.None? && State() == Prepended(old(waypoints), approach)
    {
      hide Timing;
      if |waypoints| == 0 || |reference| != DOF {
        return Some(IncompletePlan);
      }
      var timed := TimeParameterizeCartesianTrajectory([reference, waypoints[0].positions], limits, sqrt);
      if timed.Failure? {
        return Some(TimingFailed(timed.error));
      }
      var approach := timed.value;
      TimingShaped([reference, waypoints[0].positions], limits, sqrt);
      var leadingCount := |approach.points| - 1;
      if leadingCount > MAX_WAYPOINTS - (if |waypoints| < MAX_WAYPOINTS then |waypoints| else MAX_WAYPOINTS) {
        return Some(CapacityExceeded);
      }
      var approachDuration := approach.timestamps[|approach.timestamps| - 1];
      var totalDuration := approachDuration + waypoints[|waypoints| - 1].time;
      if totalDuration > MAX_DURATION {
        return Some(UnsafeTotal);
      }
      var moved := waypoints;
      for i := 0 to |waypoints|
        invariant |moved| == |waypoints| && waypoints == old(waypoints)
        invariant forall k :: 0 <= k < i ==> moved[k] == waypoints[k].(time := Later(waypoints[k].time, approachDuration))
        invariant forall k :: i <= k < |moved| ==> moved[k] == waypoints[k]
      {
        moved := moved[i := moved[i].(time := Later(moved[i].time, approachDuration))];
      }
      moved := moved[0 := moved[0].(velocities := AT_REST, accelerations := AT_REST,
                                    velocityMask := ALL_JOINTS, accelerationMask := ALL_JOINTS)];
      var leading: seq<Waypoint> := [];
      for i := 0 to leadingCount
        invariant |leading| == i && waypoints == old(waypoints)
        invariant forall k :: 0 <= k < i ==> leading[k] == ApproachWaypoint(approach, k)
      {
        var w := Waypoint(approach.timestamps[i], approach.points[i], AT_REST, AT_REST, {}, {});
        if i == 0 {
          w := w.(velocityMask := ALL_JOINTS, accelerationMask := ALL_JOINTS);
        }
        leading := leading + [w];
      }
      assert leading == Leading(approach);
      assert moved == Following(old(waypoints), approachDuration);
      waypoints := leading + moved;
      approachSegmentCount := leadingCount;
      approachDeadline := approachDuration;
      minimumDuration := totalDuration;
      completionDeadline := totalDuration;
      return None;
    }
  }
}
