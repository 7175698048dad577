/** What a planned trajectory guarantees about every reference it yields, between its waypoints too
    (runtime/src/runtime_trajectory.cpp). */
module ReferenceBounds {
  import opened RealArithmetic
  import opened Results
  import opened TrajectorySegments
  import opened TrajectoryRequest
  import opened TrajectoryRequestProperties
  import opened SegmentBounds

  lemma JointPasses(r: Request, i: nat, j: nat)
    requires WellFormed(r) && i + 1 < |r.waypoints| && j < |r.joints| && SegmentWithin(r, i)
    ensures JointWithin(CoefficientsAt(r, i, j), r.joints[j], RecoveryOf(r, j), SegmentDuration(r, i), !r.trajectoryPv)
  {
    hide JointWithin, CoefficientsAt, WellFormed;
    assert JointWithin(SegmentAt(r, i).coefficients[j], r.joints[j], Recoveries(r)[j], SegmentDuration(r, i),
                       !r.trajectoryPv);
  }

  /** Every moment of every segment of a plan is within the limits of every joint. */
  lemma PlannedSegmentBounded(r: Request, i: nat, j: nat, u: real)
    requires Planned(r).Success? && WellFormed(r) && i + 1 < |r.waypoints| && j < |r.joints| && 0.0 <= u <= 1.0
    ensures Bounded(CoefficientsAt(r, i, j), r.joints[j], RecoveryOf(r, j), SegmentDuration(r, i), !r.trajectoryPv, u)
  {
    hide Planned, Bounded, JointWithin, CoefficientsAt, SegmentWithin;
    PlanIsWellFormed(r);
    JointPasses(r, i, j);
    PassedSegmentBounded(CoefficientsAt(r, i, j), r.joints[j], RecoveryOf(r, j), SegmentDuration(r, i),
                         !r.trajectoryPv, u);
  }

  /** At any elapsed time, the reference a plan yields is within the limits: positions always, speeds and
      accelerations for quintic segments. */
  lemma SampledReferenceBounded(r: Request, j: nat, active: nat, elapsed: real)
    requires Planned(r).Success? && WellFormed(r) && j < |r.joints| && active + 1 < |r.waypoints|
    ensures var plan := Planned(r).value;
            && |plan.segments| == |r.waypoints| - 1 && plan.joints == r.joints
            && (forall k :: 0 <= k < |plan.segments| ==> 0.0 < plan.segments[k].duration)
            && var i := SegmentFor(plan.segments, active, elapsed);
            && plan.segments[i] == SegmentAt(r, i)
            && Bounded(plan.segments[i].coefficients[j], r.joints[j], RecoveryOf(r, j), plan.segments[i].duration,
                       !r.trajectoryPv, LocalTime(plan.segments[i], elapsed))
  {
    PlanIsWellFormed(r);
    var plan := Planned(r).value;
    hide Planned, Bounded, CoefficientsAt, LocalTime, WellFormed;
    var i := SegmentFor(plan.segments, active, elapsed);
    PlannedSegmentBounded(r, i, j, LocalTime(plan.segments[i], elapsed));
  }
}
