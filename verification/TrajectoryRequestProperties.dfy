/** What an accepted trajectory request guarantees about its segments and every sample of them. */
module TrajectoryRequestProperties {
  import opened RealArithmetic
  import opened Results
  import opened PolynomialRoots
  import opened TrajectorySegments
  import opened TrajectoryRequest

  // ---------- Sampling a plan ----------

  function End(s: Segment): real {
    s.start + s.duration
  }

  /** The segment being executed at a time, searched from the one last known active. */
  function SegmentFor(segments: seq<Segment>, active: nat, elapsed: real): (i: nat)
    requires active < |segments|
    ensures active <= i < |segments|
    decreases |segments| - active
  {
    if active + 1 < |segments| && End(segments[active]) <= elapsed then SegmentFor(segments, active + 1, elapsed)
    else active
  }

  function LocalTime(s: Segment, elapsed: real): (u: real)
    requires 0.0 < s.duration
    ensures 0.0 <= u <= 1.0
  {
    var local := Clamp(elapsed - s.start, 0.0, s.duration);
    RatioNonNegative(local, s.duration);
    RatioAtMostOne(local, s.duration);
    Ratio(local, s.duration)
  }

  lemma RatioAtMostOne(x: real, y: real)
    requires x <= y && 0.0 < y
    ensures Ratio(x, y) <= 1.0
  {
    RatioNonNegative(y - x, y);
    assert (y - x) / y == y / y - x / y;
  }

  /** Segments follow one another without gaps, from time zero. */
  ghost predicate Contiguous(segments: seq<Segment>) {
    && |segments| > 0 && segments[0].start == 0.0
    && (forall i :: 0 <= i < |segments| ==> 0.0 < segments[i].duration)
    && (forall i :: 0 < i < |segments| ==> segments[i].start == End(segments[i - 1]))
  }

  method FindSegment(segments: seq<Segment>, active: nat, elapsed: real) returns (segmentIndex: nat, u: real)
    requires active < |segments| && forall i :: 0 <= i < |segments| ==> 0.0 < segments[i].duration
    ensures segmentIndex == SegmentFor(segments, active, elapsed)
    ensures u == LocalTime(segments[segmentIndex], elapsed)
  {
    segmentIndex := active;
    while segmentIndex + 1 < |segments|
          && elapsed >= segments[segmentIndex].start + segments[segmentIndex].duration
      invariant active <= segmentIndex < |segments|
      invariant SegmentFor(segments, segmentIndex, elapsed) == SegmentFor(segments, active, elapsed)
    {
      segmentIndex := segmentIndex + 1;
    }
    var segment := segments[segmentIndex];
    var local := Clamp(elapsed - segment.start, 0.0, segment.duration);
    u := Ratio(local, segment.duration);
  }

  /** Searching from any segment already begun finds the one that spans the time. */
  lemma {:induction false} SegmentSpansTime(segments: seq<Segment>, active: nat, elapsed: real)
    requires Contiguous(segments) && active < |segments|
    requires segments[active].start <= elapsed <= End(segments[|segments| - 1])
    ensures var s := segments[SegmentFor(segments, active, elapsed)]; s.start <= elapsed <= End(s)
    decreases |segments| - active
  {
    if active + 1 < |segments| && End(segments[active]) <= elapsed {
      SegmentSpansTime(segments, active + 1, elapsed);
    }
  }

  /** The position a plan gives a joint at a time. */
  function SampledPosition(plan: Plan, active: nat, elapsed: real, j: nat): real
    requires active < |plan.segments|
    requires forall i :: 0 <= i < |plan.segments| ==>
               0.0 < plan.segments[i].duration && |plan.segments[i].coefficients| == |plan.joints|
    requires j < |plan.joints|
  {
    var s := plan.segments[SegmentFor(plan.segments, active, elapsed)];
    Position(s.coefficients[j], LocalTime(s, elapsed))
  }

  // ---------- The schedule of a plan ----------

  lemma PlanIsWellFormed(r: Request)
    requires Planned(r).Success?
    ensures WellFormed(r) && r.approachSegmentCount < |r.waypoints| && |r.joints| > 0
    ensures Planned(r).value.segments == seq(|r.waypoints| - 1, i requires 0 <= i < |r.waypoints| - 1 => SegmentAt(r, i))
    ensures forall i: nat :: i + 1 < |r.waypoints| ==> SegmentWithin(r, i)
  {
    hide SegmentWithin, WaypointErrorFrom, LayoutError, CoefficientsAt;
    AcceptedIsWellFormed(r);
  }

  // ---------- The arm layout ----------

  /** The first n joints name different motors of the arm. */
  predicate FreshMotors(r: Request, n: nat)
    requires n <= |r.joints|
  {
    && (forall k :: 0 <= k < n ==> r.joints[k].drive.motor.Some? && r.joints[k].drive.motor.value in r.arm)
    && (forall j, k :: 0 <= j < k < n ==> r.joints[j].drive.motor != r.joints[k].drive.motor)
  }

  lemma {:induction false} NoJointError(r: Request, j: nat)
    requires j <= |r.joints| && JointErrorFrom(r, j).None? && FreshMotors(r, j)
    ensures FreshMotors(r, |r.joints|)
    decreases |r.joints| - j
  {
    hide Configured, MitConfigured;
    if j < |r.joints| {
      assert NamesFreshMotor(r, j);
      NoJointError(r, j + 1);
    }
  }

  /** The motors named by the first n joints. */
  function Motors(r: Request, n: nat): (motors: set<nat>)
    requires n <= |r.joints| && FreshMotors(r, n)
  {
    set k | 0 <= k < n :: r.joints[k].drive.motor.value
  }

  lemma {:induction false} FreshMotorsCount(r: Request, n: nat)
    requires n <= |r.joints| && FreshMotors(r, n)
    ensures |Motors(r, n)| == n && forall m :: m in Motors(r, n) ==> m in r.arm
  {
    if n > 0 {
      FreshMotorsCount(r, n - 1);
      var motor := r.joints[n - 1].drive.motor.value;
      assert motor !in Motors(r, n - 1);
      assert Motors(r, n) == Motors(r, n - 1) + {motor};
    }
  }

  function Elements(s: seq<nat>): set<nat> {
    set m | m in s
  }

  lemma {:induction false} ElementsCount(s: seq<nat>)
    ensures |Elements(s)| <= |s|
  {
    if |s| > 0 {
      ElementsCount(s[1..]);
      assert s == [s[0]] + s[1..];
      assert Elements(s) == Elements(s[1..]) + {s[0]};
    }
  }

  lemma SameSize(a: set<nat>, b: set<nat>)
    requires a <= b && |b| <= |a|
    ensures a == b
  {
    assert b == a + (b - a);
    assert |b - a| == 0;
  }

  /** An accepted request moves the complete arm: every arm motor is driven by exactly one of its joints. */
  lemma JointsCoverArm(r: Request)
    requires Planned(r).Success?
    ensures |r.joints| == |r.arm| && FreshMotors(r, |r.joints|)
    ensures forall m :: m in r.arm ==> exists j :: 0 <= j < |r.joints| && r.joints[j].drive.motor == Some(m)
  {
    assert LayoutError(r).None? by {
      hide LayoutError, WaypointErrorFrom, SegmentWithin;
    }
    NoJointError(r, 0);
    hide Planned;
    FreshMotorsCount(r, |r.joints|);
    ElementsCount(r.arm);
    assert Motors(r, |r.joints|) <= Elements(r.arm);
    SameSize(Motors(r, |r.joints|), Elements(r.arm));
    forall m | m in r.arm ensures exists j :: 0 <= j < |r.joints| && r.joints[j].drive.motor == Some(m) {
      assert m in Elements(r.arm);
      var j :| 0 <= j < |r.joints| && r.joints[j].drive.motor.value == m;
      assert r.joints[j].drive.motor == Some(m);
    }
  }

  /** Segments run gap-free from zero to the reference duration; the approach ends with its last
      segment; and the whole is not estimated shorter than its references, up to the tolerance. */
  lemma PlanIsScheduled(r: Request)
    requires Planned(r).Success?
    ensures var p := Planned(r).value;
            && Contiguous(p.segments) && |p.segments| == |r.waypoints| - 1
            && End(p.segments[|p.segments| - 1]) == p.referenceDuration <= p.duration + LIMIT_TOLERANCE
            && p.approachSegmentCount <= |p.segments|
            && p.approachDuration ==
               (if p.approachSegmentCount == 0 then 0.0 else End(p.segments[p.approachSegmentCount - 1]))
            && (p.approachDeadline == 0.0 || 0.0 < p.approachDeadline < p.duration)
            && (forall i :: 0 <= i < |p.segments| ==> |p.segments[i].coefficients| == |p.joints|)
  {
    hide SegmentWithin, WaypointErrorFrom, LayoutError, CoefficientsAt;
    PlanIsWellFormed(r);
  }

  /** The caller gave no completion deadline, or one no earlier than the last waypoint. */
  predicate DeadlineCovers(r: Request) {
    |r.waypoints| > 0 && (r.completionDeadline <= 0.0 || ReferenceDuration(r) <= r.completionDeadline)
  }

  /** An accepted plan is at least as long as its references exactly if the deadline covers them. */
  lemma DurationCoversReferences(r: Request)
    requires Planned(r).Success?
    ensures Planned(r).value.referenceDuration <= Planned(r).value.duration <==> DeadlineCovers(r)
  {
    hide SegmentWithin, SegmentAt, WaypointErrorFrom, LayoutError;
    AcceptedIsWellFormed(r);
  }

  // ---------- Continuity of a quintic trajectory ----------

  /** The samplers read the waypoint's motion from the segment before it and from the one after
      it: position, velocity and acceleration are continuous everywhere. */
  lemma QuinticTrajectoryContinuous(r: Request, i: nat, j: nat)
    requires Planned(r).Success? && !r.trajectoryPv && i < |r.waypoints| && j < |r.joints|
    ensures WellFormed(r)
    ensures var segments := Planned(r).value.segments;
            && |segments| == |r.waypoints| - 1
            && (i + 1 < |r.waypoints| ==>
                  && j < |segments[i].coefficients| && 0.0 < segments[i].duration
                  && Sampled(segments[i].coefficients[j], 0.0, segments[i].duration) == KinematicsAt(r, i, j))
            && (0 < i ==>
                  && j < |segments[i - 1].coefficients| && 0.0 < segments[i - 1].duration
                  && Sampled(segments[i - 1].coefficients[j], 1.0, segments[i - 1].duration) == KinematicsAt(r, i, j))
  {
    PlanIsWellFormed(r);
    hide Sampled, QuinticCoefficients, KinematicsAt, Planned, SegmentWithin;
    if i + 1 < |r.waypoints| {
      QuinticMeetsBoundary(KinematicsAt(r, i, j), KinematicsAt(r, i + 1, j), SegmentDuration(r, i));
    }
    if 0 < i {
      QuinticMeetsBoundary(KinematicsAt(r, i - 1, j), KinematicsAt(r, i, j), SegmentDuration(r, i - 1));
    }
  }

  // ---------- Limit containment of a sampled PV trajectory ----------

  /** The first waypoint at which the joint is inside its limits. */
  ghost predicate FirstInside(r: Request, j: nat, first: nat)
    requires WellFormed(r) && first < |r.waypoints| && j < |r.joints|
  {
    Inside(r, first, j) && forall k: nat :: k < first ==> !Inside(r, k, j)
  }

  lemma PointAccepted(r: Request, i: nat, j: nat)
    requires Planned(r).Success? && i < |r.waypoints| && j < |r.joints|
    ensures WellFormed(r) && PositionAccepted(r, i, j)
  {
    hide SegmentWithin, LayoutError, CoefficientsAt;
    PlanIsWellFormed(r);
    NoWaypointError(r, 0);
    assert WaypointError(r, i).None?;
    NoPointError(r, i, 0, j);
  }

  lemma {:induction false} NoPointError(r: Request, i: nat, from: nat, j: nat)
    requires i < |r.waypoints| && ShapedTo(r, i + 1) && from <= j < |r.joints|
    requires PointErrorFrom(r, i, from).None?
    ensures PointError(r, i, j).None?
    decreases j - from
  {
    hide PointError;
    if from < j {
      NoPointError(r, i, from + 1, j);
    }
  }

  /** Every joint gets inside its limits, and ends there. */
  lemma ReachesInside(r: Request, j: nat) returns (first: nat)
    requires Planned(r).Success? && j < |r.joints|
    ensures WellFormed(r) && first < |r.waypoints| && FirstInside(r, j, first)
    ensures Inside(r, |r.waypoints| - 1, j)
  {
    PointAccepted(r, |r.waypoints| - 1, j);
    hide Planned, Inside;
    first := 0;
    while !Inside(r, first, j)
      invariant first < |r.waypoints| && forall k: nat :: k < first ==> !Inside(r, k, j)
      decreases |r.waypoints| - first
    {
      assert first != |r.waypoints| - 1;
      first := first + 1;
    }
  }

  /** Once inside, a joint is inside at every later waypoint. */
  lemma StaysInside(r: Request, j: nat, first: nat, i: nat)
    requires Planned(r).Success? && j < |r.joints|
    requires WellFormed(r) && first <= i < |r.waypoints| && FirstInside(r, j, first)
    ensures Inside(r, i, j)
  {
    PointAccepted(r, i, j);
    hide Planned;
    assert 0 < first < i ==> Inside(r, first, j);
  }

  /** Until then it moves outward by at most the tolerance from waypoint to waypoint. */
  lemma {:induction false} OutwardDrift(r: Request, j: nat, first: nat, i: nat)
    requires Planned(r).Success? && j < |r.joints|
    requires WellFormed(r) && i < first < |r.waypoints| && FirstInside(r, j, first)
    ensures RecoveryOf(r, j) != NotRecovering
    ensures RecoveryOf(r, j) == Upwards ==>
              && (0 < i ==> PositionAt(r, i - 1, j) - LIMIT_TOLERANCE <= PositionAt(r, i, j))
              && PositionAt(r, 0, j) - i as real * LIMIT_TOLERANCE <= PositionAt(r, i, j)
    ensures RecoveryOf(r, j) == Downwards ==>
              && (0 < i ==> PositionAt(r, i, j) <= PositionAt(r, i - 1, j) + LIMIT_TOLERANCE)
              && PositionAt(r, i, j) <= PositionAt(r, 0, j) + i as real * LIMIT_TOLERANCE
    decreases i
  {
    PointAccepted(r, i, j);
    hide Planned;
    assert !Inside(r, 0, j) && !Inside(r, i, j);
    if 0 < i {
      OutwardDrift(r, j, first, i - 1);
      assert MovesInward(r, i, j);
    }
  }

  /** Both ends of a segment pass the extrema check. */
  lemma SegmentEndsAllowed(r: Request, j: nat, i: nat)
    requires Planned(r).Success? && r.trajectoryPv && j < |r.joints| && i + 1 < |r.waypoints|
    ensures WellFormed(r)
    ensures var c := CoefficientsAt(r, i, j);
            && PositionAllowed(c, r.joints[j], RecoveryOf(r, j), 0.0)
            && PositionAllowed(c, r.joints[j], RecoveryOf(r, j), 1.0)
  {
    PlanIsWellFormed(r);
    hide Planned, PositionAllowed, Roots, Derivative, CoefficientsAt;
    assert SegmentWithin(r, i);
    var c := CoefficientsAt(r, i, j);
    assert SegmentAt(r, i).coefficients[j] == c && Recoveries(r)[j] == RecoveryOf(r, j);
    assert JointWithin(c, r.joints[j], RecoveryOf(r, j), SegmentDuration(r, i), false);
    var candidates := Candidates(Derivative(c));
    assert candidates[0] == 0.0 && candidates[1] == 1.0;
  }

  /** How far a reference between waypoints i and i + 1 may lie outside. */
  ghost predicate Contained(r: Request, j: nat, first: nat, i: nat, x: real)
    requires WellFormed(r) && j < |r.joints| && first < |r.waypoints| && i + 1 < |r.waypoints|
  {
    var joint, start, before := r.joints[j], PositionAt(r, 0, j), PositionAt(r, i, j);
    && (first <= i ==> joint.lower <= x <= joint.upper)
    && (i < first && start < joint.lower ==>
          && Min(before, joint.lower) - LIMIT_TOLERANCE <= x <= joint.upper + LIMIT_TOLERANCE
          && start - (i + 1) as real * LIMIT_TOLERANCE <= x)
    && (i < first && joint.upper < start ==>
          && joint.lower - LIMIT_TOLERANCE <= x <= Max(before, joint.upper) + LIMIT_TOLERANCE
          && x <= start + (i + 1) as real * LIMIT_TOLERANCE)
    && (i < first ==> start < joint.lower || joint.upper < start)
  }

  /** Every reference on every segment is inside the limits from the joint's first inside waypoint
      on; before that it is on the way in from an outside start, and overshoots neither way. */
  lemma SegmentContained(r: Request, j: nat, first: nat, i: nat, u: real)
    requires Planned(r).Success? && r.trajectoryPv && j < |r.joints| && 0.0 <= u <= 1.0
    requires WellFormed(r) && first < |r.waypoints| && i + 1 < |r.waypoints| && FirstInside(r, j, first)
    ensures Contained(r, j, first, i, Position(CoefficientsAt(r, i, j), u))
  {
    var joint, from, to := r.joints[j], PositionAt(r, i, j), PositionAt(r, i + 1, j);
    hide Planned, Evaluate, LinearCoefficients, Blend, Inside;
    LinearIsStraight(from, to, u);
    if first <= i {
      StaysInside(r, j, first, i);
      StaysInside(r, j, first, i + 1);
      InsideBounds(r, j, i);
      InsideBounds(r, j, i + 1);
      BlendBetween(from, to, u, joint.lower, joint.upper);
    } else {
      OutsideEnds(r, j, first, i);
      DriftGrows(i);
      var drift := (i + 1) as real * LIMIT_TOLERANCE;
      if RecoveryOf(r, j) == Upwards {
        BlendBetween(from, to, u, Min(from, joint.lower) - LIMIT_TOLERANCE, joint.upper + LIMIT_TOLERANCE);
        BlendBetween(from, to, u, PositionAt(r, 0, j) - drift, joint.upper + LIMIT_TOLERANCE);
      } else {
        BlendBetween(from, to, u, joint.lower - LIMIT_TOLERANCE, Max(from, joint.upper) + LIMIT_TOLERANCE);
        BlendBetween(from, to, u, joint.lower - LIMIT_TOLERANCE, PositionAt(r, 0, j) + drift);
      }
    }
  }

  lemma InsideBounds(r: Request, j: nat, i: nat)
    requires Names(r, i, j) && Inside(r, i, j)
    ensures r.joints[j].lower <= PositionAt(r, i, j) <= r.joints[j].upper
  {
  }

  /** Where the two waypoints of a segment before the first inside one may lie. */
  lemma OutsideEnds(r: Request, j: nat, first: nat, i: nat)
    requires Planned(r).Success? && r.trajectoryPv && j < |r.joints|
    requires WellFormed(r) && i < first < |r.waypoints| && FirstInside(r, j, first)
    ensures RecoveryOf(r, j) != NotRecovering
    ensures RecoveryOf(r, j) == Upwards ==>
              && PositionAt(r, 0, j) - i as real * LIMIT_TOLERANCE <= PositionAt(r, i, j)
              && PositionAt(r, i, j) <= r.joints[j].upper + LIMIT_TOLERANCE
              && Min(PositionAt(r, i, j) - LIMIT_TOLERANCE, r.joints[j].lower) <= PositionAt(r, i + 1, j)
              && PositionAt(r, i + 1, j) <= r.joints[j].upper + LIMIT_TOLERANCE
    ensures RecoveryOf(r, j) == Downwards ==>
              && PositionAt(r, i, j) <= PositionAt(r, 0, j) + i as real * LIMIT_TOLERANCE
              && r.joints[j].lower - LIMIT_TOLERANCE <= PositionAt(r, i, j)
              && PositionAt(r, i + 1, j) <= Max(PositionAt(r, i, j) + LIMIT_TOLERANCE, r.joints[j].upper)
              && r.joints[j].lower - LIMIT_TOLERANCE <= PositionAt(r, i + 1, j)
  {
    hide Planned, LinearCoefficients, Evaluate;
    OutwardDrift(r, j, first, i);
    if i + 1 < first {
      OutwardDrift(r, j, first, i + 1);
    }
    SegmentEndsAllowed(r, j, i);
    LinearIsStraight(PositionAt(r, i, j), PositionAt(r, i + 1, j), 0.0);
    LinearIsStraight(PositionAt(r, i, j), PositionAt(r, i + 1, j), 1.0);
  }

  lemma DriftGrows(i: nat)
    ensures 0.0 <= i as real * LIMIT_TOLERANCE
    ensures (i + 1) as real * LIMIT_TOLERANCE == i as real * LIMIT_TOLERANCE + LIMIT_TOLERANCE
  {
  }

  /** At any time, from any segment the search starts at: the sampled reference is contained, and
      it is inside the limits once the time of the first inside waypoint has come. */
  lemma SampledReferenceContained(r: Request, j: nat, first: nat, active: nat, elapsed: real)
    requires Planned(r).Success? && r.trajectoryPv && j < |r.joints|
    requires WellFormed(r) && first < |r.waypoints| && active + 1 < |r.waypoints| && FirstInside(r, j, first)
    ensures var plan := Planned(r).value;
            && |plan.segments| == |r.waypoints| - 1 && plan.joints == r.joints
            && (forall k :: 0 <= k < |plan.segments| ==>
                  0.0 < plan.segments[k].duration && |plan.segments[k].coefficients| == |plan.joints|)
            && var x := SampledPosition(plan, active, elapsed, j);
            && Contained(r, j, first, SegmentFor(plan.segments, active, elapsed), x)
            && (TimeAt(r, active) <= elapsed <= plan.referenceDuration && TimeAt(r, first) <= elapsed ==>
                  r.joints[j].lower <= x <= r.joints[j].upper)
  {
    PlanIsWellFormed(r);
    PlanIsScheduled(r);
    var plan := Planned(r).value;
    hide Planned, Contained, Position, CoefficientsAt, Inside, LocalTime, SegmentWithin;
    var i := SegmentFor(plan.segments, active, elapsed);
    var s := plan.segments[i];
    assert s == SegmentAt(r, i);
    SegmentContained(r, j, first, i, LocalTime(s, elapsed));
    if TimeAt(r, active) <= elapsed <= plan.referenceDuration && TimeAt(r, first) <= elapsed {
      SegmentSpansTime(plan.segments, active, elapsed);
      InsideInTime(r, j, first, i, elapsed);
    }
  }

  lemma {:induction false} TimesOrdered(r: Request, i: nat, k: nat)
    requires WellFormed(r) && i < k < |r.waypoints|
    ensures TimeAt(r, i) < TimeAt(r, k)
    decreases k
  {
    if i + 1 < k {
      TimesOrdered(r, i, k - 1);
    }
  }

  lemma InsideInTime(r: Request, j: nat, first: nat, i: nat, elapsed: real)
    requires Planned(r).Success? && r.trajectoryPv && j < |r.joints|
    requires WellFormed(r) && first < |r.waypoints| && i + 1 < |r.waypoints| && FirstInside(r, j, first)
    requires TimeAt(r, first) <= elapsed && TimeAt(r, i) <= elapsed <= TimeAt(r, i + 1)
    ensures var x := Position(CoefficientsAt(r, i, j), LocalTime(SegmentAt(r, i), elapsed));
            r.joints[j].lower <= x <= r.joints[j].upper
  {
    var u := LocalTime(SegmentAt(r, i), elapsed);
    hide Planned, Evaluate, LinearCoefficients;
    if first <= i {
      SegmentContained(r, j, first, i, u);
    } else {
      if i + 1 < first {
        TimesOrdered(r, i + 1, first);
      }
      assert elapsed - TimeAt(r, i) == SegmentDuration(r, i);
      DivMul(1.0, SegmentDuration(r, i));
      assert u == 1.0;
      LinearIsStraight(PositionAt(r, i, j), PositionAt(r, i + 1, j), 1.0);
    }
  }

  // ---------- The control cycle, and the hold at the end of an approach ----------

  /** The reference time at a wall time since the start. */
  function ReferenceTime(plan: Plan, wall: real): real
    requires 0.0 <= plan.duration
  {
    Min(Clamp(wall, 0.0, plan.duration), plan.referenceDuration)
  }

  /** The approach has been sampled to its end but has not been confirmed complete. */
  predicate HoldsApproach(plan: Plan, wall: real, complete: bool)
    requires 0.0 <= plan.duration
  {
    !complete && plan.approachSegmentCount != 0 && plan.approachDuration <= ReferenceTime(plan, wall)
  }

  function CycleTime(plan: Plan, wall: real, complete: bool): real
    requires 0.0 <= plan.duration
  {
    if HoldsApproach(plan, wall, complete) then plan.approachDuration else ReferenceTime(plan, wall)
  }

  function CycleSegment(plan: Plan, active: nat, wall: real, complete: bool): (i: nat)
    requires 0.0 <= plan.duration && active < |plan.segments| && plan.approachSegmentCount <= |plan.segments|
    ensures i < |plan.segments|
  {
    if HoldsApproach(plan, wall, complete) then plan.approachSegmentCount - 1
    else SegmentFor(plan.segments, active, ReferenceTime(plan, wall))
  }

  method CycleSample(plan: Plan, active: nat, wall: real, complete: bool) returns (segmentIndex: nat, u: real)
    requires 0.0 <= plan.duration && active < |plan.segments| && plan.approachSegmentCount <= |plan.segments|
    requires forall i :: 0 <= i < |plan.segments| ==> 0.0 < plan.segments[i].duration
    ensures segmentIndex == CycleSegment(plan, active, wall, complete)
    ensures u == LocalTime(plan.segments[segmentIndex], CycleTime(plan, wall, complete))
  {
    var wallElapsed := Clamp(wall, 0.0, plan.duration);
    var elapsed := Min(wallElapsed, plan.referenceDuration);
    var atApproachReference := !complete && plan.approachSegmentCount != 0 && elapsed >= plan.approachDuration;
    if atApproachReference {
      elapsed := plan.approachDuration;
    }
    segmentIndex, u := FindSegment(plan.segments, active, elapsed);
    if atApproachReference {
      segmentIndex := plan.approachSegmentCount - 1;
      var segment := plan.segments[segmentIndex];
      u := Ratio(Clamp(elapsed - segment.start, 0.0, segment.duration), segment.duration);
    }
  }

  /** Whether the joint has to be inside at the time sampled. */
  predicate PastFirstInside(r: Request, first: nat, active: nat, plan: Plan, wall: real, complete: bool)
    requires WellFormed(r) && first < |r.waypoints| && active < |r.waypoints| && 0.0 <= plan.duration
  {
    && TimeAt(r, first) <= CycleTime(plan, wall, complete)
    && (HoldsApproach(plan, wall, complete) || TimeAt(r, active) <= CycleTime(plan, wall, complete))
  }

  /** Every reference of a control cycle is contained in the same way, also while it is held where the approach
      ends: that is the waypoint there, whatever segment was active. */
  lemma CycleReferenceContained(r: Request, j: nat, first: nat, active: nat, wall: real, complete: bool)
    requires Planned(r).Success? && r.trajectoryPv && j < |r.joints|
    requires WellFormed(r) && first < |r.waypoints| && active + 1 < |r.waypoints| && FirstInside(r, j, first)
    ensures var plan := Planned(r).value;
            && 0.0 <= plan.duration && |plan.segments| == |r.waypoints| - 1
            && plan.approachSegmentCount <= |plan.segments|
            && var i := CycleSegment(plan, active, wall, complete);
            && 0.0 < plan.segments[i].duration && j < |plan.segments[i].coefficients|
            && var x := Position(plan.segments[i].coefficients[j],
                                 LocalTime(plan.segments[i], CycleTime(plan, wall, complete)));
            && Contained(r, j, first, i, x)
            && (HoldsApproach(plan, wall, complete) ==> x == PositionAt(r, plan.approachSegmentCount, j))
            && (PastFirstInside(r, first, active, plan, wall, complete) ==>
                  r.joints[j].lower <= x <= r.joints[j].upper)
  {
    PlanIsWellFormed(r);
    PlanIsScheduled(r);
    var plan := Planned(r).value;
    PlanLasts(r);
    hide Planned, Contained, Position, CoefficientsAt, Inside, LocalTime, SegmentWithin, FirstInside;
    if HoldsApproach(plan, wall, complete) {
      HeldReference(r, j, first);
      if TimeAt(r, first) <= plan.approachDuration {
        InsideInTime(r, j, first, plan.approachSegmentCount - 1, plan.approachDuration);
      }
    } else {
      SampledReferenceContained(r, j, first, active, ReferenceTime(plan, wall));
    }
  }

  lemma PlanLasts(r: Request)
    requires Planned(r).Success?
    ensures 0.0 <= Planned(r).value.duration
  {
    hide SegmentWithin, SegmentAt, WaypointErrorFrom, LayoutError;
    AcceptedIsWellFormed(r);
  }

  /** The end of the approach is the waypoint after its last segment. */
  lemma HeldReference(r: Request, j: nat, first: nat)
    requires Planned(r).Success? && r.trajectoryPv && j < |r.joints| && 0 < r.approachSegmentCount
    requires WellFormed(r) && first < |r.waypoints| && FirstInside(r, j, first)
    ensures var plan, c := Planned(r).value, r.approachSegmentCount;
            && plan.approachSegmentCount == c < |r.waypoints| && |plan.segments| == |r.waypoints| - 1
            && plan.segments[c - 1] == SegmentAt(r, c - 1)
            && plan.approachDuration == TimeAt(r, c)
            && LocalTime(plan.segments[c - 1], plan.approachDuration) == 1.0
            && Position(CoefficientsAt(r, c - 1, j), 1.0) == PositionAt(r, c, j)
            && Contained(r, j, first, c - 1, PositionAt(r, c, j))
  {
    PlanIsWellFormed(r);
    var c := r.approachSegmentCount;
    hide SegmentWithin, WaypointErrorFrom, LayoutError, Contained, FirstInside, Evaluate;
    DivMul(1.0, SegmentDuration(r, c - 1));
    SegmentContained(r, j, first, c - 1, 1.0);
    LinearIsStraight(PositionAt(r, c - 1, j), PositionAt(r, c, j), 1.0);
  }
}
