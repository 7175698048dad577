/** What a motion that is moved to a new place in the queue keeps: how long its approach takes, and that it then yields
    the very references it yielded before (runtime/src/runtime_trajectory.cpp). */
module Rebinding {
  import opened RealArithmetic
  import opened Results
  import opened TrajectorySegments
  import opened TrajectoryRequest
  import opened TrajectoryRequestProperties
  import opened MotionQueue
  import opened MotionQueueProperties
  import TimingExactness

  // ---------- How long the approach takes ----------

  /** The speed a joint may use for the approach. */
  function ApproachSpeed(plan: Plan, joint: Joint): (v: real)
    ensures 0.01 <= v
  {
    var other := if plan.trajectoryPv then plan.pvReferenceVelocity
                 else if 0.0 < joint.pvVelocityLimit then joint.pvVelocityLimit else joint.velocityLimit;
    var limit := if other < joint.velocityLimit then other else joint.velocityLimit;
    if limit < 0.01 then 0.01 else limit
  }

  function ApproachAcceleration(plan: Plan, joint: Joint): (a: real)
    ensures 0.01 <= a
  {
    var limit := if plan.trajectoryPv then plan.pvReferenceAcceleration else joint.accelerationLimit;
    if limit < 0.01 then 0.01 else limit
  }

  /** The joint gets through the step in this time: with its speed at the steepest of the curve where MIT commands follow
      it, and with an eighth of the acceleration. */
  predicate GetsThrough(mode: Mode, plan: Plan, joint: Joint, step: real, duration: real) {
    && (if mode == Mit then 1.875 else 1.0) * step <= duration * ApproachSpeed(plan, joint)
    && 8.0 * step <= duration * duration * ApproachAcceleration(plan, joint)
  }

  /** The step of joint j from the end of the predecessor to the start of the plan. */
  function StepOf(plan: Plan, from: seq<real>, j: nat): (step: real)
    requires Startable(plan) && |from| == |plan.joints| && j < |plan.joints|
    ensures 0.0 <= step
  {
    Abs(InitialPositions(plan)[j] - from[j])
  }

  lemma LeastOfTwo(sqrt: real -> real, x: real, v: real, y: real, a: real, duration: real)
    requires IsSquareRoot(sqrt) && 0.0 <= y && 0.0 < v && 0.0 < a && 0.0 < duration
    ensures Max(Ratio(x, v), sqrt(Ratio(y, a))) <= duration <==> x <= duration * v && y <= duration * duration * a
  {
    hide IsSquareRoot, Ratio;
    if Max(Ratio(x, v), sqrt(Ratio(y, a))) <= duration {
      RatioBound(x, v, duration);
      RootBound(sqrt, y, a, duration);
    }
    if x <= duration * v && y <= duration * duration * a {
      TimingExactness.RatioAtMost(x, v, duration);
      TimingExactness.RootAtMost(sqrt, y, a, duration);
    }
  }

  lemma StepDurationLeast(mode: Mode, plan: Plan, joint: Joint, step: real, sqrt: real -> real, duration: real)
    requires IsSquareRoot(sqrt) && 0.0 <= step && 0.0 < duration
    ensures StepDuration(mode, plan, joint, step, sqrt) <= duration <==> GetsThrough(mode, plan, joint, step, duration)
  {
    hide IsSquareRoot, Ratio;
    var v, a := ApproachSpeed(plan, joint), ApproachAcceleration(plan, joint);
    assert v == Max(SLOWEST, RebindVelocity(plan, joint)) && a == Max(SLOWEST, RebindAcceleration(plan, joint));
    hide ApproachSpeed, ApproachAcceleration, RebindVelocity, RebindAcceleration, Max;
    LeastOfTwo(sqrt, (if mode == Mit then 1.875 else 1.0) * step, v, 8.0 * step, a, duration);
  }

  lemma {:induction false} DurationLeast(mode: Mode, plan: Plan, from: seq<real>, sqrt: real -> real, n: nat,
                                         duration: real)
    requires Startable(plan) && |from| == |plan.joints| && n <= |plan.joints| && IsSquareRoot(sqrt) && 0.10 <= duration
    ensures RebindDuration(mode, plan, from, sqrt, n) <= duration
       <==> forall j :: 0 <= j < n ==> GetsThrough(mode, plan, plan.joints[j], StepOf(plan, from, j), duration)
    decreases n
  {
    hide IsSquareRoot, StepDuration, GetsThrough, InitialPositions, Abs;
    if n > 0 {
      DurationLeast(mode, plan, from, sqrt, n - 1, duration);
      StepDurationLeast(mode, plan, plan.joints[n - 1], StepOf(plan, from, n - 1), sqrt, duration);
    }
  }

  /** The approach of a rebound motion takes the least time, from 0.1 s on, in which every joint gets through its step. */
  lemma ApproachTakesLeast(mode: Mode, plan: Plan, predecessor: Plan, sqrt: real -> real, duration: real)
    requires IsSquareRoot(sqrt) && 0.10 <= duration && Rebind(mode, plan, predecessor, sqrt).Success?
    ensures Sampleable(predecessor) && Startable(plan) && |predecessor.joints| == |plan.joints|
    ensures var approach := Rebind(mode, plan, predecessor, sqrt).value.segments[0];
            && approach.start == 0.0 && 0.10 <= approach.duration
            && (approach.duration <= duration <==>
                  forall j :: 0 <= j < |plan.joints| ==>
                    GetsThrough(mode, plan, plan.joints[j], StepOf(plan, FinalPositions(predecessor), j), duration))
  {
    hide IsSquareRoot, RebindDuration, GetsThrough, StepOf, ExtremaWithin, FinalPositions, AllDelayed;
    DurationLeast(mode, plan, FinalPositions(predecessor), sqrt, |plan.joints|, duration);
  }

  // ---------- What follows the approach ----------

  /** Everything about the plan but its segments is as before, later by the approach. */
  lemma ScheduleShifts(mode: Mode, plan: Plan, predecessor: Plan, sqrt: real -> real)
    requires Rebind(mode, plan, predecessor, sqrt).Success?
    ensures var rebound := Rebind(mode, plan, predecessor, sqrt).value;
            && |rebound.segments| == |plan.segments| + 1
            && var d := rebound.segments[0].duration;
            && rebound.duration == plan.duration + d && rebound.referenceDuration == plan.referenceDuration + d
            && rebound.approachDuration == plan.approachDuration + d
            && rebound.approachDeadline == (if 0.0 < plan.approachDeadline then plan.approachDeadline + d
                                            else plan.approachDeadline)
            && rebound.approachSegmentCount == plan.approachSegmentCount + 1
            && rebound.joints == plan.joints && rebound.trajectoryPv == plan.trajectoryPv
            && rebound.pvReferenceVelocity == plan.pvReferenceVelocity
            && rebound.pvReferenceAcceleration == plan.pvReferenceAcceleration
            && forall i :: 0 <= i < |plan.segments| ==>
                 && rebound.segments[i + 1].start == plan.segments[i].start + d
                 && rebound.segments[i + 1].duration == plan.segments[i].duration
                 && rebound.segments[i + 1].coefficients == plan.segments[i].coefficients
  {
    hide RebindDuration, RebindCoefficients, ExtremaWithin, FinalPositions;
  }

  /** These segments are those, later by a delay, from place k on. */
  ghost predicate Replays(late: seq<Segment>, segments: seq<Segment>, delay: real) {
    && |late| == |segments| + 1
    && forall i :: 0 <= i < |segments| ==>
         && late[i + 1].start == segments[i].start + delay && late[i + 1].duration == segments[i].duration
         && late[i + 1].coefficients == segments[i].coefficients
  }

  lemma {:induction false} SearchShifts(late: seq<Segment>, segments: seq<Segment>, delay: real, active: nat, elapsed: real)
    requires Replays(late, segments, delay) && active < |segments|
    ensures SegmentFor(late, active + 1, elapsed + delay) == SegmentFor(segments, active, elapsed) + 1
    decreases |segments| - active
  {
    if active + 1 < |segments| && End(segments[active]) <= elapsed {
      SearchShifts(late, segments, delay, active + 1, elapsed);
    }
  }

  /** After its approach a rebound motion yields at every time, for every joint, the very reference it would have
      yielded before, only later: whether the search starts in the approach or in a segment behind it. */
  lemma ReboundReplays(mode: Mode, plan: Plan, predecessor: Plan, sqrt: real -> real, rebound: Plan, active: nat,
                       elapsed: real, j: nat)
    requires PlanSound(plan) && Rebind(mode, plan, predecessor, sqrt) == Success(rebound)
    requires active < |plan.segments| && 0.0 <= elapsed && j < |plan.joints|
    ensures SamplesAll(plan) && SamplesAll(rebound) && rebound.joints == plan.joints
    ensures |rebound.segments| == |plan.segments| + 1
    ensures var later := elapsed + rebound.segments[0].duration;
            && SampledPosition(rebound, active + 1, later, j) == SampledPosition(plan, active, elapsed, j)
            && SampledPosition(rebound, 0, later, j) == SampledPosition(plan, 0, elapsed, j)
  {
    hide SampledPosition, Rebind, LocalTime;
    ReboundIsSound(mode, plan, predecessor, sqrt);
    ScheduleShifts(mode, plan, predecessor, sqrt);
    SoundSamples(plan);
    SoundSamples(rebound);
    hide PlanSound;
    ReplayedAt(rebound, plan, active, active + 1, elapsed, j);
    FirstIsApproach(rebound, plan, elapsed);
    ReplayedAt(rebound, plan, 0, 0, elapsed, j);
  }

  lemma SoundSamples(plan: Plan)
    requires PlanSound(plan)
    ensures SamplesAll(plan) && plan.segments[0].start == 0.0
    ensures forall i :: 0 <= i < |plan.segments| ==>
              0.0 < plan.segments[i].duration && |plan.segments[i].coefficients| == |plan.joints|
  {
  }

  ghost predicate SamplesAll(plan: Plan) {
    |plan.segments| > 0 && forall i :: 0 <= i < |plan.segments| ==>
      0.0 < plan.segments[i].duration && |plan.segments[i].coefficients| == |plan.joints|
  }

  /** The search that starts in the approach goes on behind it. */
  lemma FirstIsApproach(late: Plan, plan: Plan, elapsed: real)
    requires SamplesAll(late) && SamplesAll(plan) && late.segments[0].start == 0.0 && 0.0 <= elapsed
    requires Replays(late.segments, plan.segments, late.segments[0].duration)
    ensures SegmentFor(late.segments, 0, elapsed + late.segments[0].duration)
         == SegmentFor(late.segments, 1, elapsed + late.segments[0].duration)
  {
  }

  lemma ReplayedAt(late: Plan, plan: Plan, active: nat, from: nat, elapsed: real, j: nat)
    requires SamplesAll(late) && SamplesAll(plan) && late.joints == plan.joints && j < |plan.joints|
    requires Replays(late.segments, plan.segments, late.segments[0].duration) && active < |plan.segments|
    requires from < |late.segments|
    requires SegmentFor(late.segments, from, elapsed + late.segments[0].duration)
          == SegmentFor(late.segments, active + 1, elapsed + late.segments[0].duration)
    ensures SampledPosition(late, from, elapsed + late.segments[0].duration, j) == SampledPosition(plan, active, elapsed, j)
  {
    hide Position, SegmentFor, Ratio;
    var d := late.segments[0].duration;
    SearchShifts(late.segments, plan.segments, d, active, elapsed);
    var i := SegmentFor(plan.segments, active, elapsed);
    assert late.segments[i + 1].start == plan.segments[i].start + d;
    assert LocalTime(late.segments[i + 1], elapsed + d) == LocalTime(plan.segments[i], elapsed);
  }
}
