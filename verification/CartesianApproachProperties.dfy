/** What piecewise plans and approaches guarantee. */
module CartesianApproachProperties {
  import opened RealArithmetic
  import opened Results
  import opened CartesianPath
  import opened StretchFactor
  import opened CartesianTiming
  import opened CartesianTimingProperties
  import opened TrajectorySegments
  import opened TrajectoryRequest
  import opened CartesianApproach
  import TrajectoryRequestProperties

  // ---------- Piecewise plans ----------

  function AccelerationBound(limits: Limits): real {
    SETTLED * SETTLED * limits.acceleration
  }

  /** The bound on a change of speed; it doubles on the interval that leaves a joint of two pieces. */
  function KnotBound(limits: Limits, doubled: bool): real {
    if doubled then 2.0 * AccelerationBound(limits) else AccelerationBound(limits)
  }

  /** The interval that ends at knot k keeps the spacing, step and speed limits, and changes speed within the
      settled acceleration limit, or twice that if it leaves one of the joints. */
  ghost predicate KnotWithin(timed: TimedPath, limits: Limits, joints: set<nat>, k: nat)
    requires timed.Ends(k)
  {
    && MIN_INTERVAL - EPSILON <= timed.Interval(k) <= MAX_INTERVAL + EPSILON
    && forall j :: 0 <= j < DOF ==>
         && Abs(timed.points[k][j] - timed.points[k - 1][j]) <= MAX_STEP + EPSILON
         && Abs(timed.Velocity(k, j)) <= SETTLED * limits.velocity
         && Abs(timed.Acceleration(k, j)) <= KnotBound(limits, k - 1 in joints)
  }

  ghost predicate EndsWithin(timed: TimedPath, limits: Limits)
    requires timed.Shaped() && timed.Increasing()
  {
    forall j :: 0 <= j < DOF ==>
      && Abs(timed.Acceleration(1, j)) <= AccelerationBound(limits)
      && Abs(timed.StoppingAcceleration(j)) <= AccelerationBound(limits)
  }

  /** A timed path from rest to rest, joined at the given knots. */
  ghost predicate Respects(timed: TimedPath, limits: Limits, joints: set<nat>) {
    && timed.Shaped() && timed.Increasing() && timed.timestamps[0] == 0.0 && 0.10 <= Duration(timed)
    && (forall joint :: joint in joints ==> 0 < joint < |timed.points| - 1)
    && (forall k :: 1 <= k < |timed.points| ==> KnotWithin(timed, limits, joints, k))
    && EndsWithin(timed, limits)
  }

  lemma AcceptedKnot(path: JointPath, limits: Limits, timed: TimedPath, k: nat)
    requires limits.Positive() && Accepted(path, limits, timed) && 1 <= k < |timed.points|
    ensures KnotWithin(timed, limits, {}, k)
  {
    hide SamplePath, Abs;
    hide TimedPath.Velocity, TimedPath.Acceleration, TimedPath.StoppingAcceleration;
    assert SpacingHolds(path, timed, k);
  }

  lemma AcceptedRespects(path: JointPath, limits: Limits, timed: TimedPath)
    requires limits.Positive() && Accepted(path, limits, timed)
    ensures Respects(timed, limits, {})
  {
    hide SamplePath, Abs, KnotWithin, SpacingHolds;
    hide TimedPath.Velocity, TimedPath.Acceleration, TimedPath.StoppingAcceleration;
    forall k | 1 <= k < |timed.points| ensures KnotWithin(timed, limits, {}, k) {
      AcceptedKnot(path, limits, timed, k);
    }
  }

  lemma AbsRatio(x: real, y: real, bound: real)
    requires 0.0 < y
    ensures Abs(Ratio(x, y)) <= bound <==> Abs(x) <= bound * y
  {
    DivMul(x, y);
    var q := Ratio(x, y);
    if Abs(q) <= bound {
      MulMonotone(q, bound, y);
      MulMonotone(-bound, q, y);
    } else if bound < q {
      MulStrictlyMonotone(bound, q, y);
    } else {
      MulStrictlyMonotone(q, -bound, y);
    }
  }

  /** Coming to rest within a bound, then leaving from rest within it, doubles it at most. */
  lemma JunctionBound(v: real, d: real, v': real, d': real, bound: real)
    requires 0.0 < d && 0.0 < d'
    requires Abs(Ratio(v, d)) <= bound && Abs(Ratio(v', d')) <= bound
    ensures Abs(Ratio(v' - v, 0.5 * (d' + d))) <= 2.0 * bound
  {
    hide Ratio;
    AbsRatio(v, d, bound);
    AbsRatio(v', d', bound);
    AbsRatio(v' - v, 0.5 * (d' + d), 2.0 * bound);
    assert 2.0 * bound * (0.5 * (d' + d)) == bound * d' + bound * d;
  }

  lemma JoinTimes(head: TimedPath, piece: TimedPath, k: nat)
    requires head.Shaped() && piece.Shaped() && piece.timestamps[0] == 0.0 && k < |Join(head, piece).points|
    requires head.points[|head.points| - 1] == piece.points[0]
    ensures k < |head.points| ==>
              && Join(head, piece).timestamps[k] == head.timestamps[k]
              && Join(head, piece).points[k] == head.points[k]
    ensures |head.points| - 1 <= k ==>
              && Join(head, piece).timestamps[k] == Duration(head) + piece.timestamps[k - (|head.points| - 1)]
              && Join(head, piece).points[k] == piece.points[k - (|head.points| - 1)]
  {
  }

  lemma JoinIncreases(head: TimedPath, piece: TimedPath)
    requires head.Shaped() && piece.Shaped() && piece.timestamps[0] == 0.0
    requires head.points[|head.points| - 1] == piece.points[0]
    requires head.Increasing() && piece.Increasing()
    ensures Join(head, piece).Increasing()
    ensures forall k :: 1 <= k < |Join(head, piece).points| ==> Join(head, piece).Ends(k)
    ensures forall k :: 1 <= k < |head.points| ==> head.Ends(k)
    ensures forall k :: 1 <= k < |piece.points| ==> piece.Ends(k)
  {
    hide Join;
    var joined := Join(head, piece);
    forall k | 1 <= k < |joined.points| ensures joined.timestamps[k - 1] < joined.timestamps[k] {
      JoinTimes(head, piece, k - 1);
      JoinTimes(head, piece, k);
      if |head.points| <= k {
        var i := k - (|head.points| - 1);
        assert piece.timestamps[i - 1] < piece.timestamps[i];
      }
    }
  }

  /** Speeds are those of the part an interval comes from. */
  lemma JoinVelocity(head: TimedPath, piece: TimedPath, k: nat, j: nat)
    requires head.Shaped() && piece.Shaped() && piece.timestamps[0] == 0.0 && j < DOF
    requires head.points[|head.points| - 1] == piece.points[0]
    requires head.Increasing() && piece.Increasing() && 1 <= k < |Join(head, piece).points|
    ensures Join(head, piece).Ends(k)
    ensures k < |head.points| ==>
              && head.Ends(k) && Join(head, piece).Interval(k) == head.Interval(k)
              && Join(head, piece).Velocity(k, j) == head.Velocity(k, j)
    ensures |head.points| <= k ==>
              var i := k - (|head.points| - 1);
              && piece.Ends(i) && Join(head, piece).Interval(k) == piece.Interval(i)
              && Join(head, piece).Velocity(k, j) == piece.Velocity(i, j)
  {
    JoinIncreases(head, piece);
    JoinTimes(head, piece, k - 1);
    JoinTimes(head, piece, k);
    hide Join, Ratio;
    hide TimedPath.IncreasingTo;
  }

  /** The bounds of a motor at a knot, and from and to rest. */
  lemma RespectsAt(timed: TimedPath, limits: Limits, joints: set<nat>, k: nat, j: nat)
    requires Respects(timed, limits, joints) && 1 <= k < |timed.points| && j < DOF
    ensures timed.Ends(k) && Abs(timed.Acceleration(k, j)) <= KnotBound(limits, k - 1 in joints)
    ensures timed.Ends(1) && Abs(Ratio(timed.Velocity(1, j), timed.Interval(1))) <= AccelerationBound(limits)
    ensures timed.Ends(|timed.points| - 1)
    ensures Abs(Ratio(timed.Velocity(|timed.points| - 1, j), timed.Interval(|timed.points| - 1)))
            <= AccelerationBound(limits)
  {
    hide Ratio, Abs, AccelerationBound, KnotBound;
    hide TimedPath.Velocity, TimedPath.Interval;
    assert KnotWithin(timed, limits, joints, k);
    assert timed.Velocity(1, j) - 0.0 == timed.Velocity(1, j);
    assert timed.Acceleration(1, j) == Ratio(timed.Velocity(1, j), timed.Interval(1));
  }

  /** Where the two parts meet the speed changes from one part's last to the other's first. */
  lemma AccelerationInside(head: TimedPath, piece: TimedPath, k: nat, j: nat)
    requires head.Shaped() && piece.Shaped() && piece.timestamps[0] == 0.0 && j < DOF
    requires head.points[|head.points| - 1] == piece.points[0]
    requires head.Increasing() && piece.Increasing() && 1 <= k < |Join(head, piece).points|
    ensures Join(head, piece).Ends(k)
    ensures var joined, last := Join(head, piece), |head.points| - 1;
            && (k <= last ==> head.Ends(k) && joined.Acceleration(k, j) == head.Acceleration(k, j))
            && (last + 1 < k ==> piece.Ends(k - last) && joined.Acceleration(k, j) == piece.Acceleration(k - last, j))
            && (k == last + 1 ==>
                  && piece.Ends(1) && head.Ends(last)
                  && joined.Acceleration(k, j) == Ratio(piece.Velocity(1, j) - head.Velocity(last, j),
                                                        0.5 * (piece.Interval(1) + head.Interval(last))))
  {
    JoinVelocity(head, piece, k, j);
    if 1 < k {
      JoinVelocity(head, piece, k - 1, j);
    }
    hide Join, Ratio;
    hide TimedPath.IncreasingTo, TimedPath.Velocity, TimedPath.Interval;
  }

  /** The knots where a joined path is joined: those of its head, and the new one. */
  function Joined(head: TimedPath, joints: set<nat>): set<nat>
    requires head.Shaped()
  {
    joints + {|head.points| - 1}
  }

  lemma JoinAcceleration(head: TimedPath, joints: set<nat>, piece: TimedPath, limits: Limits, k: nat, j: nat)
    requires Respects(head, limits, joints) && Respects(piece, limits, {})
    requires j < DOF && 1 <= k < |Join(head, piece).points|
    requires head.points[|head.points| - 1] == piece.points[0]
    ensures Join(head, piece).Ends(k)
    ensures Abs(Join(head, piece).Acceleration(k, j)) <= KnotBound(limits, k - 1 in Joined(head, joints))
    ensures k == 1 ==> Join(head, piece).Acceleration(1, j) == head.Acceleration(1, j)
  {
    hide Join, Ratio, Abs, AccelerationBound, KnotWithin, EndsWithin;
    hide TimedPath.IncreasingTo, TimedPath.Velocity, TimedPath.Interval, TimedPath.Acceleration;
    var last := |head.points| - 1;
    AccelerationInside(head, piece, k, j);
    RespectsAt(head, limits, joints, if k <= last then k else last, j);
    RespectsAt(piece, limits, {}, if last < k then k - last else 1, j);
    if k == last + 1 {
      JunctionBound(head.Velocity(last, j), head.Interval(last), piece.Velocity(1, j), piece.Interval(1),
                    AccelerationBound(limits));
    }
  }

  lemma JoinKnot(head: TimedPath, joints: set<nat>, piece: TimedPath, limits: Limits, k: nat)
    requires Respects(head, limits, joints) && Respects(piece, limits, {}) && 1 <= k < |Join(head, piece).points|
    requires head.points[|head.points| - 1] == piece.points[0]
    ensures Join(head, piece).Ends(k) && KnotWithin(Join(head, piece), limits, Joined(head, joints), k)
  {
    var joined, last := Join(head, piece), |head.points| - 1;
    JoinTimes(head, piece, k - 1);
    JoinTimes(head, piece, k);
    forall j: nat | j < DOF
      ensures joined.Ends(k) && Abs(joined.Acceleration(k, j)) <= KnotBound(limits, k - 1 in Joined(head, joints))
      ensures k <= last ==> head.Ends(k) && joined.Interval(k) == head.Interval(k)
                            && joined.Velocity(k, j) == head.Velocity(k, j)
      ensures last < k ==> piece.Ends(k - last) && joined.Interval(k) == piece.Interval(k - last)
                           && joined.Velocity(k, j) == piece.Velocity(k - last, j)
    {
      JoinAcceleration(head, joints, piece, limits, k, j);
      JoinVelocity(head, piece, k, j);
    }
    hide Join, Ratio, Abs, AccelerationBound, KnotBound, Joined;
    hide TimedPath.IncreasingTo, TimedPath.Velocity, TimedPath.Interval, TimedPath.Acceleration;
    assert joined.Ends(k);
    if k <= last {
      assert KnotWithin(head, limits, joints, k);
    } else {
      assert KnotWithin(piece, limits, {}, k - last);
    }
  }

  /** Joining keeps every limit at every knot; only the interval that leaves the new joint may change speed by
      up to twice the acceleration. */
  lemma JoinRespects(head: TimedPath, joints: set<nat>, piece: TimedPath, limits: Limits)
    requires Respects(head, limits, joints) && Respects(piece, limits, {})
    requires head.points[|head.points| - 1] == piece.points[0]
    ensures var joined := Join(head, piece);
            && Respects(joined, limits, Joined(head, joints))
            && joined.points[0] == head.points[0]
            && joined.points[|joined.points| - 1] == piece.points[|piece.points| - 1]
            && Duration(joined) == Duration(head) + Duration(piece)
  {
    var joined, last := Join(head, piece), |Join(head, piece).points| - 1;
    JoinIncreases(head, piece);
    JoinTimes(head, piece, 0);
    JoinTimes(head, piece, last);
    forall k | 1 <= k < |joined.points| ensures KnotWithin(joined, limits, Joined(head, joints), k) {
      JoinKnot(head, joints, piece, limits, k);
    }
    forall j: nat | j < DOF
      ensures Abs(joined.Acceleration(1, j)) <= AccelerationBound(limits)
      ensures Abs(joined.StoppingAcceleration(j)) <= AccelerationBound(limits)
    {
      JoinVelocity(head, piece, last, j);
      JoinAcceleration(head, joints, piece, limits, 1, j);
      hide Join, Ratio, Abs, AccelerationBound, KnotWithin;
      hide TimedPath.IncreasingTo, TimedPath.Velocity, TimedPath.Interval, TimedPath.Acceleration;
      assert EndsWithin(head, limits) && EndsWithin(piece, limits);
      RespectsAt(piece, limits, {}, 1, j);
    }
  }

  // ---------- The pieces of a joined path ----------

  /** The knots at which the first n pieces start and end. */
  function ControlKnots(path: seq<JointPoint>, indices: seq<nat>, limits: Limits, sqrt: real -> real, n: nat)
    : (knots: seq<nat>)
    requires n < |indices| && OnPath(path, indices)
    ensures |knots| == n + 1 && knots[0] == 0
  {
    if n == 0 then [0]
    else
      var knots := ControlKnots(path, indices, limits, sqrt, n - 1);
      var piece := Piece(path, indices[n - 1], indices[n], limits, sqrt);
      knots + [knots[n - 1] + if piece.Success? && piece.value.Shaped() then |piece.value.points| - 1 else 0]
  }

  /** The inner ones of them. */
  function JointKnots(knots: seq<nat>): set<nat> {
    set i | 0 < i < |knots| - 1 :: knots[i]
  }

  /** From knot from on, the path is an accepted timing of its stretch of points, started later: all its spacing,
      step and linearisation limits hold there. */
  ghost predicate HoldsPiece(timed: TimedPath, from: nat, points: seq<JointPoint>, piece: TimedPath, limits: Limits) {
    && timed.Shaped() && |points| >= 2 && Accepted(points, limits, piece) && from + |piece.points| <= |timed.points|
    && forall k :: 0 <= k < |piece.points| ==>
         && timed.points[from + k] == piece.points[k]
         && timed.timestamps[from + k] == timed.timestamps[from] + piece.timestamps[k]
  }

  /** The i-th piece stands between its control knots. */
  ghost predicate PieceStands(path: seq<JointPoint>, indices: seq<nat>, limits: Limits, sqrt: real -> real,
                              timed: TimedPath, knots: seq<nat>, i: nat)
    requires 1 <= i < |indices| && OnPath(path, indices) && i < |knots|
  {
    && indices[i - 1] < indices[i]
    && var piece := Piece(path, indices[i - 1], indices[i], limits, sqrt);
    && piece.Success? && piece.value.Shaped() && knots[i] == knots[i - 1] + |piece.value.points| - 1
    && HoldsPiece(timed, knots[i - 1], Geometry(path, indices[i - 1], indices[i]), piece.value, limits)
  }

  lemma PieceStaysInHead(head: TimedPath, next: TimedPath, from: nat, points: seq<JointPoint>, piece: TimedPath,
                         limits: Limits)
    requires HoldsPiece(head, from, points, piece, limits) && next.Shaped()
    ensures HoldsPiece(Join(head, next), from, points, piece, limits)
  {
    AcceptedEnds(points, limits, piece);
    hide Accepted;
    var joined := Join(head, next);
    forall k | 0 <= k < |piece.points|
      ensures joined.points[from + k] == piece.points[k]
      ensures joined.timestamps[from + k] == joined.timestamps[from] + piece.timestamps[k]
    {
      assert joined.points[from + k] == head.points[from + k];
      assert joined.timestamps[from + k] == head.timestamps[from + k] && joined.timestamps[from] == head.timestamps[from];
    }
  }

  lemma PieceIsJoined(head: TimedPath, points: seq<JointPoint>, piece: TimedPath, limits: Limits)
    requires head.Shaped() && |points| >= 2 && Accepted(points, limits, piece)
    requires head.points[|head.points| - 1] == piece.points[0]
    ensures HoldsPiece(Join(head, piece), |head.points| - 1, points, piece, limits)
  {
    hide Accepted, Join;
    AcceptedEnds(points, limits, piece);
    var last := |head.points| - 1;
    forall k | 0 <= k < |piece.points|
      ensures Join(head, piece).points[last + k] == piece.points[k]
      ensures Join(head, piece).timestamps[last + k] == Join(head, piece).timestamps[last] + piece.timestamps[k]
    {
      JoinTimes(head, piece, last + k);
      JoinTimes(head, piece, last);
    }
  }

  /** The path point of every control point up to the n-th stands at its control knot. */
  ghost predicate PassesControlPoints(path: seq<JointPoint>, indices: seq<nat>, timed: TimedPath, knots: seq<nat>)
    requires |knots| <= |indices| && OnPath(path, indices)
  {
    forall i :: 0 <= i < |knots| ==> knots[i] < |timed.points| && timed.points[knots[i]] == path[indices[i]]
  }

  /** What the timing of the first n pieces guarantees. */
  ghost predicate PiecesHold(path: seq<JointPoint>, indices: seq<nat>, limits: Limits, sqrt: real -> real,
                             timed: TimedPath, n: nat)
    requires 1 <= n < |indices| && OnPath(path, indices)
  {
    var knots := ControlKnots(path, indices, limits, sqrt, n);
    && limits.Positive() && Respects(timed, limits, JointKnots(knots))
    && knots[n] == |timed.points| - 1 && PassesControlPoints(path, indices, timed, knots)
    && forall i :: 1 <= i <= n ==> PieceStands(path, indices, limits, sqrt, timed, knots, i)
  }

  /** The timing of a piece runs between its control points, within the limits. */
  lemma PieceSound(path: seq<JointPoint>, first: nat, last: nat, limits: Limits, sqrt: real -> real)
    requires first < |path| && last < |path| && IsSquareRoot(sqrt)
    requires Piece(path, first, last, limits, sqrt).Success?
    ensures first < last && limits.Positive()
    ensures var geometry, piece := Geometry(path, first, last), Piece(path, first, last, limits, sqrt).value;
            && |geometry| >= 2 && Accepted(geometry, limits, piece) && Respects(piece, limits, {})
            && piece.Shaped() && piece.timestamps[0] == 0.0
            && piece.points[0] == path[first] && piece.points[|piece.points| - 1] == path[last]
  {
    hide Timing, Accepted, Respects;
    var geometry := Geometry(path, first, last);
    TimingSound(geometry, limits, sqrt);
    var piece := Timing(geometry, limits, sqrt).value;
    AcceptedRespects(geometry, limits, piece);
    AcceptedEnds(geometry, limits, piece);
  }

  lemma HoldsItself(points: seq<JointPoint>, piece: TimedPath, limits: Limits)
    requires |points| >= 2 && Accepted(points, limits, piece) && piece.Shaped() && piece.timestamps[0] == 0.0
    ensures HoldsPiece(piece, 0, points, piece, limits)
  {
    hide Accepted;
  }

  lemma FirstPieceHolds(path: seq<JointPoint>, indices: seq<nat>, limits: Limits, sqrt: real -> real)
    requires 1 < |indices| && OnPath(path, indices) && IsSquareRoot(sqrt)
    requires Piece(path, indices[0], indices[1], limits, sqrt).Success?
    ensures PiecesHold(path, indices, limits, sqrt, Piece(path, indices[0], indices[1], limits, sqrt).value, 1)
  {
    hide Piece, Geometry, Accepted, Respects, HoldsPiece, IsSquareRoot;
    PieceSound(path, indices[0], indices[1], limits, sqrt);
    var geometry := Geometry(path, indices[0], indices[1]);
    var piece := Piece(path, indices[0], indices[1], limits, sqrt).value;
    HoldsItself(geometry, piece, limits);
    NextKnots(path, indices, limits, sqrt, 1);
    assert ControlKnots(path, indices, limits, sqrt, 0) == [0];
    var knots := ControlKnots(path, indices, limits, sqrt, 1);
    hide ControlKnots;
    assert knots == [0, |piece.points| - 1];
    assert JointKnots(knots) == {};
    assert PieceStands(path, indices, limits, sqrt, piece, knots, 1);
  }

  lemma NextPieceHolds(path: seq<JointPoint>, indices: seq<nat>, limits: Limits, sqrt: real -> real, head: TimedPath,
                       n: nat)
    requires 1 < n < |indices| && OnPath(path, indices) && IsSquareRoot(sqrt)
    requires PiecesHold(path, indices, limits, sqrt, head, n - 1)
    requires Piece(path, indices[n - 1], indices[n], limits, sqrt).Success?
    ensures head.Shaped() && Piece(path, indices[n - 1], indices[n], limits, sqrt).value.Shaped()
    ensures PiecesHold(path, indices, limits, sqrt,
                       Join(head, Piece(path, indices[n - 1], indices[n], limits, sqrt).value), n)
  {
    hide Piece, Geometry, Accepted, Respects, Join, HoldsPiece, ControlKnots, PieceStands, PassesControlPoints,
      JointKnots, Joined, IsSquareRoot;
    PieceSound(path, indices[n - 1], indices[n], limits, sqrt);
    var geometry := Geometry(path, indices[n - 1], indices[n]);
    var piece := Piece(path, indices[n - 1], indices[n], limits, sqrt).value;
    var before := ControlKnots(path, indices, limits, sqrt, n - 1);
    var knots := ControlKnots(path, indices, limits, sqrt, n);
    RespectsShape(head, limits, JointKnots(before));
    NextKnots(path, indices, limits, sqrt, n);
    assert head.points[before[n - 1]] == path[indices[n - 1]] by { PassesAt(path, indices, head, before, n - 1); }
    JoinRespects(head, JointKnots(before), piece, limits);
    assert JointKnots(knots) == Joined(head, JointKnots(before)) by { NextJoints(head, before, |piece.points| - 1); }
    PieceIsJoined(head, geometry, piece, limits);
    NextStands(path, indices, limits, sqrt, head, piece, before, knots, n);
    NextPasses(path, indices, head, piece, before, knots, n);
  }

  lemma PassesAt(path: seq<JointPoint>, indices: seq<nat>, timed: TimedPath, knots: seq<nat>, i: nat)
    requires i < |knots| <= |indices| && OnPath(path, indices) && PassesControlPoints(path, indices, timed, knots)
    ensures knots[i] < |timed.points| && timed.points[knots[i]] == path[indices[i]]
  {
  }

  lemma RespectsShape(timed: TimedPath, limits: Limits, joints: set<nat>)
    requires Respects(timed, limits, joints)
    ensures timed.Shaped()
  {
  }

  lemma NextKnots(path: seq<JointPoint>, indices: seq<nat>, limits: Limits, sqrt: real -> real, n: nat)
    requires 1 <= n < |indices| && OnPath(path, indices)
    requires var piece := Piece(path, indices[n - 1], indices[n], limits, sqrt); piece.Success? && piece.value.Shaped()
    ensures var before := ControlKnots(path, indices, limits, sqrt, n - 1);
            ControlKnots(path, indices, limits, sqrt, n)
            == before + [before[n - 1] + |Piece(path, indices[n - 1], indices[n], limits, sqrt).value.points| - 1]
  {
    hide Piece, Geometry;
  }

  lemma NextJoints(head: TimedPath, before: seq<nat>, more: nat)
    requires |before| >= 2 && head.Shaped() && before[|before| - 1] == |head.points| - 1
    ensures JointKnots(before + [before[|before| - 1] + more]) == Joined(head, JointKnots(before))
  {
    var knots := before + [before[|before| - 1] + more];
    assert knots[|before| - 1] == before[|before| - 1];
    forall k | k in JointKnots(before) + {before[|before| - 1]} ensures k in JointKnots(knots) {
      if k != before[|before| - 1] {
        var i :| 0 < i < |before| - 1 && before[i] == k;
        assert knots[i] == k;
      }
    }
  }

  lemma NextStands(path: seq<JointPoint>, indices: seq<nat>, limits: Limits, sqrt: real -> real, head: TimedPath,
                   piece: TimedPath, before: seq<nat>, knots: seq<nat>, n: nat)
    requires 1 < n < |indices| && OnPath(path, indices) && |before| == n && head.Shaped() && piece.Shaped()
    requires Piece(path, indices[n - 1], indices[n], limits, sqrt) == Success(piece) && before[n - 1] == |head.points| - 1
    requires knots == before + [before[n - 1] + |piece.points| - 1]
    requires forall i :: 1 <= i < n ==> PieceStands(path, indices, limits, sqrt, head, before, i)
    requires indices[n - 1] < indices[n]
    requires HoldsPiece(Join(head, piece), |head.points| - 1, Geometry(path, indices[n - 1], indices[n]), piece, limits)
    ensures forall i :: 1 <= i <= n ==> PieceStands(path, indices, limits, sqrt, Join(head, piece), knots, i)
  {
    hide Piece, HoldsPiece, Join, Geometry;
    forall i | 1 <= i <= n ensures PieceStands(path, indices, limits, sqrt, Join(head, piece), knots, i) {
      if i < n {
        assert PieceStands(path, indices, limits, sqrt, head, before, i);
        PieceStaysInHead(head, piece, before[i - 1], Geometry(path, indices[i - 1], indices[i]),
                         Piece(path, indices[i - 1], indices[i], limits, sqrt).value, limits);
      }
    }
  }

  lemma NextPasses(path: seq<JointPoint>, indices: seq<nat>, head: TimedPath, piece: TimedPath, before: seq<nat>,
                   knots: seq<nat>, n: nat)
    requires 1 < n < |indices| && OnPath(path, indices) && |before| == n && head.Shaped() && piece.Shaped()
    requires piece.timestamps[0] == 0.0 && head.points[|head.points| - 1] == piece.points[0]
    requires before[n - 1] == |head.points| - 1 && knots == before + [before[n - 1] + |piece.points| - 1]
    requires PassesControlPoints(path, indices, head, before)
    requires piece.points[|piece.points| - 1] == path[indices[n]]
    ensures PassesControlPoints(path, indices, Join(head, piece), knots)
  {
    hide Join;
    forall i | 0 <= i < |knots|
      ensures knots[i] < |Join(head, piece).points| && Join(head, piece).points[knots[i]] == path[indices[i]]
    {
      if i < n {
        assert knots[i] == before[i];
      }
      JoinTimes(head, piece, knots[i]);
    }
  }

  lemma {:induction false} PiecesSound(path: seq<JointPoint>, indices: seq<nat>, limits: Limits, sqrt: real -> real, n: nat)
    requires 1 <= n < |indices| && OnPath(path, indices) && IsSquareRoot(sqrt)
    requires Pieces(path, indices, limits, sqrt, n).Success?
    ensures PiecesHold(path, indices, limits, sqrt, Pieces(path, indices, limits, sqrt, n).value, n)
    decreases n
  {
    hide Piece, PiecesHold, Join;
    if n > 1 {
      PiecesSound(path, indices, limits, sqrt, n - 1);
      NextPieceHolds(path, indices, limits, sqrt, Pieces(path, indices, limits, sqrt, n - 1).value, n);
    } else {
      FirstPieceHolds(path, indices, limits, sqrt);
    }
  }

  lemma AcceptedEnds(path: JointPath, limits: Limits, timed: TimedPath)
    requires Accepted(path, limits, timed)
    ensures timed.Shaped() && timed.Increasing() && timed.timestamps[0] == 0.0
    ensures 0.10 <= Duration(timed) <= MAX_DURATION && |timed.points| <= MAX_SEGMENTS + 1
    ensures timed.points[0] == path[0] && timed.points[|timed.points| - 1] == path[|path| - 1]
  {
  }

  /** Whenever piecewise timing succeeds, the result runs from the first path point to the last, from rest to rest,
      and fits the engine. Every control point has its knot, between two of them stands an accepted timing of their
      stretch, and only the intervals that leave an inner control knot may exceed the acceleration, up to twice. */
  lemma PiecewiseSound(path: seq<JointPoint>, indices: seq<nat>, limits: Limits, sqrt: real -> real)
    requires OnPath(path, indices) && IsSquareRoot(sqrt)
    requires PiecewiseTiming(path, indices, limits, sqrt).Success?
    ensures var timed := PiecewiseTiming(path, indices, limits, sqrt).value;
            && |indices| >= 2 && timed.Shaped() && |timed.points| <= MAX_WAYPOINTS
            && timed.points[0] == path[0] && timed.points[|timed.points| - 1] == path[|path| - 1]
            && PiecesHold(path, indices, limits, sqrt, timed, |indices| - 1)
  {
    hide Pieces, Respects, PieceStands, ControlKnots;
    var n := |indices| - 1;
    PiecesSound(path, indices, limits, sqrt, n);
    var knots := ControlKnots(path, indices, limits, sqrt, n);
    var timed := PiecewiseTiming(path, indices, limits, sqrt).value;
    RespectsShape(timed, limits, JointKnots(knots));
    assert timed.points[knots[0]] == path[indices[0]] && timed.points[knots[n]] == path[indices[n]];
  }

  /** Piece k runs forward and can be timed by itself. */
  predicate Runs(path: seq<JointPoint>, indices: seq<nat>, limits: Limits, sqrt: real -> real, k: nat)
    requires 1 <= k < |indices| && OnPath(path, indices)
  {
    indices[k - 1] < indices[k] && Timing(path[indices[k - 1]..indices[k] + 1], limits, sqrt).Success?
  }

  ghost predicate EachRuns(path: seq<JointPoint>, indices: seq<nat>, limits: Limits, sqrt: real -> real, n: nat)
    requires n < |indices| && OnPath(path, indices)
  {
    forall k: nat :: 1 <= k <= n ==> Runs(path, indices, limits, sqrt, k)
  }

  lemma PieceRuns(path: seq<JointPoint>, indices: seq<nat>, limits: Limits, sqrt: real -> real, n: nat)
    requires 1 <= n < |indices| && OnPath(path, indices)
    ensures Runs(path, indices, limits, sqrt, n) <==> Piece(path, indices[n - 1], indices[n], limits, sqrt).Success?
    ensures Piece(path, indices[n - 1], indices[n], limits, sqrt).Success? ==>
              Piece(path, indices[n - 1], indices[n], limits, sqrt).value.Shaped()
  {
    hide Timing;
    if Piece(path, indices[n - 1], indices[n], limits, sqrt).Success? {
      TimingShaped(Geometry(path, indices[n - 1], indices[n]), limits, sqrt);
    }
  }

  lemma {:induction false} PiecesTimed(path: seq<JointPoint>, indices: seq<nat>, limits: Limits, sqrt: real -> real, n: nat)
    requires 1 <= n < |indices| && OnPath(path, indices)
    ensures Pieces(path, indices, limits, sqrt, n).Success? <==> EachRuns(path, indices, limits, sqrt, n)
    ensures Pieces(path, indices, limits, sqrt, n).Success? ==>
              |Pieces(path, indices, limits, sqrt, n).value.points| == ControlKnots(path, indices, limits, sqrt, n)[n] + 1
  {
    hide Runs, Piece, Join;
    PieceRuns(path, indices, limits, sqrt, n);
    if n > 1 {
      PiecesTimed(path, indices, limits, sqrt, n - 1);
    }
  }

  /** A piecewise path is timed exactly if its control points run forward from its first point to its last, every piece
      can be timed by itself, and the pieces have at most 30000 knots together. */
  lemma PiecewiseExactly(path: seq<JointPoint>, indices: seq<nat>, limits: Limits, sqrt: real -> real)
    requires OnPath(path, indices)
    ensures PiecewiseTiming(path, indices, limits, sqrt).Success?
       <==> && |indices| >= 2 && indices[0] == 0 && indices[|indices| - 1] == |path| - 1
            && EachRuns(path, indices, limits, sqrt, |indices| - 1)
            && ControlKnots(path, indices, limits, sqrt, |indices| - 1)[|indices| - 1] < 30000
  {
    hide EachRuns, Pieces, ControlKnots;
    if |indices| >= 2 {
      PiecesTimed(path, indices, limits, sqrt, |indices| - 1);
    }
  }

  // ---------- Keeping the single limit ----------

  lemma HalvedKnot(timed: TimedPath, half: Limits, limits: Limits, joints: set<nat>, k: nat)
    requires timed.Ends(k) && KnotWithin(timed, half, joints, k)
    requires half.velocity == limits.velocity && 0.0 < half.acceleration && limits.acceleration == 2.0 * half.acceleration
    ensures KnotWithin(timed, limits, {}, k)
  {
    hide Abs;
    hide TimedPath.Velocity, TimedPath.Acceleration, TimedPath.Interval;
  }

  /** A path that respects half an acceleration keeps the whole of it at every knot, joints included. */
  lemma HalvedRespects(timed: TimedPath, half: Limits, limits: Limits, joints: set<nat>)
    requires Respects(timed, half, joints)
    requires half.velocity == limits.velocity && 0.0 < half.acceleration && limits.acceleration == 2.0 * half.acceleration
    ensures Respects(timed, limits, {})
  {
    assert EndsWithin(timed, limits) by {
      hide Abs;
      hide TimedPath.Velocity, TimedPath.Acceleration, TimedPath.StoppingAcceleration, TimedPath.Interval;
    }
    hide KnotWithin, EndsWithin;
    forall k | 1 <= k < |timed.points| ensures KnotWithin(timed, limits, {}, k) {
      HalvedKnot(timed, half, limits, joints, k);
    }
  }

  /** So a plan made with half the acceleration limit keeps the limit everywhere, */
  lemma HalfLimitKeepsLimit(path: seq<JointPoint>, indices: seq<nat>, half: Limits, limits: Limits, sqrt: real -> real)
    requires OnPath(path, indices) && IsSquareRoot(sqrt) && PiecewiseTiming(path, indices, half, sqrt).Success?
    requires half.velocity == limits.velocity && limits.acceleration == 2.0 * half.acceleration
    ensures Respects(PiecewiseTiming(path, indices, half, sqrt).value, limits, {})
  {
    PiecewiseSound(path, indices, half, sqrt);
    var timed, n := PiecewiseTiming(path, indices, half, sqrt).value, |indices| - 1;
    assert half.Positive() && Respects(timed, half, JointKnots(ControlKnots(path, indices, half, sqrt, n))) by {
      hide Respects, JointKnots, ControlKnots, PieceStands, PassesControlPoints, PiecewiseTiming;
    }
    hide PiecesHold, PiecewiseTiming, Respects, JointKnots, ControlKnots;
    HalvedRespects(timed, half, limits, JointKnots(ControlKnots(path, indices, half, sqrt, n)));
  }

  /** and one with two control points keeps its own. */
  lemma OnePieceKeepsLimit(path: seq<JointPoint>, indices: seq<nat>, limits: Limits, sqrt: real -> real)
    requires OnPath(path, indices) && IsSquareRoot(sqrt) && PiecewiseTiming(path, indices, limits, sqrt).Success?
    requires |indices| == 2
    ensures Respects(PiecewiseTiming(path, indices, limits, sqrt).value, limits, {})
  {
    PiecewiseSound(path, indices, limits, sqrt);
    hide Respects, PieceStands, PassesControlPoints, PiecewiseTiming, ControlKnots;
    assert JointKnots(ControlKnots(path, indices, limits, sqrt, 1)) == {};
  }

  // ---------- Approaches ----------

  /** Waypoints whose times strictly increase from zero. */
  ghost predicate Timed(waypoints: seq<Waypoint>) {
    && |waypoints| >= 2 && waypoints[0].time == 0.0
    && (forall i :: 0 < i < |waypoints| ==> waypoints[i - 1].time < waypoints[i].time)
    && (forall i :: 0 <= i < |waypoints| ==> |waypoints[i].positions| == DOF)
  }

  lemma AssembledIsTimed(path: TimedPath, startVelocities: JointPoint, startAccelerations: JointPoint, limits: Limits,
                         joints: set<nat>)
    requires Respects(path, limits, joints)
    ensures Timed(Assembled(path, startVelocities, startAccelerations))
  {
    hide KnotWithin, EndsWithin;
  }

  lemma {:induction false} TimesGrow(waypoints: seq<Waypoint>, i: nat, k: nat)
    requires Timed(waypoints) && i < k < |waypoints|
    ensures waypoints[i].time < waypoints[k].time
    decreases k
  {
    if i + 1 < k {
      TimesGrow(waypoints, i, k - 1);
    }
  }

  lemma ApproachIsAccepted(waypoints: seq<Waypoint>, reference: seq<real>, limits: Limits, sqrt: real -> real)
    requires IsSquareRoot(sqrt) && Timed(waypoints) && Approach(waypoints, reference, limits, sqrt).Success?
    ensures |reference| == DOF
    ensures var approach := Approach(waypoints, reference, limits, sqrt).value;
            && approach.Shaped() && approach.Increasing() && approach.timestamps[0] == 0.0
            && 0.10 <= Duration(approach) && Duration(approach) + waypoints[|waypoints| - 1].time <= MAX_DURATION
            && |approach.points| - 1 + |waypoints| <= MAX_WAYPOINTS
            && approach.points[0] == reference
            && approach.points[|approach.points| - 1] == waypoints[0].positions
  {
    hide Timing, Accepted;
    var path := [reference, waypoints[0].positions];
    TimingSound(path, limits, sqrt);
    AcceptedEnds(path, limits, Timing(path, limits, sqrt).value);
  }

  /** Waypoint k of a plan behind its approach. */
  lemma PrependedWaypoint(waypoints: seq<Waypoint>, approach: TimedPath, k: nat)
    requires |waypoints| > 0 && approach.Shaped() && k < |Prepended(waypoints, approach).waypoints|
    ensures var w, n := Prepended(waypoints, approach).waypoints[k], |approach.points| - 1;
            && (k < n ==> w == ApproachWaypoint(approach, k))
            && (n <= k ==> w == MovedWaypoint(waypoints[k - n], k - n, Duration(approach)))
  {
  }

  lemma PrependedTimed(waypoints: seq<Waypoint>, approach: TimedPath)
    requires Timed(waypoints) && approach.Shaped() && approach.Increasing() && approach.timestamps[0] == 0.0
    ensures Timed(Prepended(waypoints, approach).waypoints)
  {
    hide Prepended;
    var ws, n := Prepended(waypoints, approach).waypoints, |approach.points| - 1;
    PrependedLength(waypoints, approach);
    forall k | 0 <= k < |ws| ensures |ws[k].positions| == DOF {
      PrependedWaypoint(waypoints, approach, k);
    }
    forall k | 0 < k < |ws| ensures ws[k - 1].time < ws[k].time {
      PrependedWaypoint(waypoints, approach, k - 1);
      PrependedWaypoint(waypoints, approach, k);
      if n < k {
        assert waypoints[k - n - 1].time < waypoints[k - n].time;
      }
    }
    PrependedWaypoint(waypoints, approach, 0);
  }

  lemma PrependedLength(waypoints: seq<Waypoint>, approach: TimedPath)
    requires |waypoints| > 0 && approach.Shaped()
    ensures |Prepended(waypoints, approach).waypoints| == |approach.points| - 1 + |waypoints|
  {
  }

  /** A plan with an approach passes every count, timestamp and deadline check of the trajectory
      engine, and its deadline is the time of the waypoint where approach and path meet: the
      approach ends there at rest, exactly where the declared path starts. */
  lemma ApproachPassesSchedule(r: Request, waypoints: seq<Waypoint>, reference: seq<real>, limits: Limits,
                               sqrt: real -> real)
    requires IsSquareRoot(sqrt) && Timed(waypoints) && Approach(waypoints, reference, limits, sqrt).Success?
    requires var state := Prepended(waypoints, Approach(waypoints, reference, limits, sqrt).value);
             && r.waypoints == state.waypoints && r.approachSegmentCount == state.approachSegmentCount
             && r.approachDeadline == state.approachDeadline && r.completionDeadline == state.completionDeadline
    ensures 2 <= |r.waypoints| <= MAX_WAYPOINTS && 0 < r.approachSegmentCount < |r.waypoints|
    ensures Timed(r.waypoints) && ScheduleError(r).None?
    ensures TotalDuration(r) == ReferenceDuration(r) == r.completionDeadline
    ensures TimeAt(r, r.approachSegmentCount) == r.approachDeadline
    ensures Planned(r).Success? ==> Planned(r).value.approachDuration == r.approachDeadline
    ensures var meeting := r.waypoints[r.approachSegmentCount];
            && meeting.positions == waypoints[0].positions && meeting.velocities == AT_REST
            && meeting.accelerations == AT_REST && meeting.velocityMask == ALL_JOINTS == meeting.accelerationMask
    ensures r.waypoints[0].positions == reference
  {
    hide Approach, Prepended, MovedWaypoint, ApproachWaypoint, WaypointErrorFrom, LayoutError, SegmentWithin,
      SegmentAt;
    ApproachIsAccepted(waypoints, reference, limits, sqrt);
    var approach := Approach(waypoints, reference, limits, sqrt).value;
    var n := |approach.points| - 1;
    PrependedFields(waypoints, approach);
    PrependedTimed(waypoints, approach);
    TimesGrow(waypoints, 0, |waypoints| - 1);
    if Planned(r).Success? {
      TrajectoryRequestProperties.PlanIsWellFormed(r);
      assert TimeAt(r, n - 1) + SegmentDuration(r, n - 1) == TimeAt(r, n);
    }
  }

  lemma PrependedFields(waypoints: seq<Waypoint>, approach: TimedPath)
    requires Timed(waypoints) && approach.Shaped() && approach.timestamps[0] == 0.0
    ensures var state := Prepended(waypoints, approach);
            var n := |approach.points| - 1;
            && |state.waypoints| == n + |waypoints| && state.approachSegmentCount == n
            && state.approachDeadline == Duration(approach)
            && state.completionDeadline == Duration(approach) + waypoints[|waypoints| - 1].time
            && state.waypoints[0].time == 0.0 && state.waypoints[0].positions == approach.points[0]
            && state.waypoints[n] == Resting(Duration(approach), waypoints[0].positions, ALL_JOINTS)
            && state.waypoints[n + |waypoints| - 1].time == Duration(approach) + waypoints[|waypoints| - 1].time
  {
    PrependedWaypoint(waypoints, approach, 0);
    PrependedWaypoint(waypoints, approach, |approach.points| - 1);
    PrependedWaypoint(waypoints, approach, |approach.points| - 1 + |waypoints| - 1);
  }
}
