/** Adaptive timing of a sparse joint path: subdivision into knots, and retries with a stretched
    duration until every knot limit holds (runtime/src/product_cartesian.cpp). */
module CartesianTiming {
  import opened RealArithmetic
  import opened Results
  import opened QuinticProgress
  import opened CartesianPath
  import opened StretchFactor
  import TrajectoryRequest

  const MIN_INTERVAL: real := 0.004
  const MAX_INTERVAL: real := 0.050
  const MAX_STEP: real := 0.020
  const LINEARIZATION_TOLERANCE: real := 0.001
  const EPSILON: real := 0.000000000001
  const MAX_SEGMENTS: nat := TrajectoryRequest.MAX_WAYPOINTS - 3
  const MAX_DEPTH: nat := 32
  const MAX_ATTEMPTS: nat := 20
  const MAX_DURATION: real := 60.0

  /** A stretch this close to one is accepted as settled. */
  const SETTLED: real := 1.0001

  // ---------- One interval ----------

  /** The largest joint step over the first n joints. */
  function LargestStep(start: JointPoint, end: JointPoint, n: nat): (m: real)
    requires n <= DOF
    ensures forall j :: 0 <= j < n ==> Abs(end[j] - start[j]) <= m
  {
    if n == 0 then 0.0 else Max(LargestStep(start, end, n - 1), Abs(end[n - 1] - start[n - 1]))
  }

  /** How far the path bulges from the chord, over the first n joints. */
  function LargestBulge(start: JointPoint, middle: JointPoint, end: JointPoint, n: nat): (m: real)
    requires n <= DOF
    ensures forall j :: 0 <= j < n ==> Abs(middle[j] - 0.5 * (start[j] + end[j])) <= m
  {
    if n == 0 then 0.0
    else Max(LargestBulge(start, middle, end, n - 1), Abs(middle[n - 1] - 0.5 * (start[n - 1] + end[n - 1])))
  }

  /** The interval between two normalised times is too long, too steep or too bent for one knot. */
  predicate NeedsSplit(path: JointPath, duration: real, a: real, b: real) {
    || (b - a) * duration > MAX_INTERVAL + EPSILON
    || LargestStep(SamplePath(path, a), SamplePath(path, b), DOF) > MAX_STEP + EPSILON
    || LargestBulge(SamplePath(path, a), SamplePath(path, 0.5 * (a + b)), SamplePath(path, b), DOF)
       > LINEARIZATION_TOLERANCE + EPSILON
  }

  /** What every interval between adjacent knots of a finished path satisfies. */
  predicate Admissible(path: JointPath, duration: real, a: real, b: real) {
    var start, middle, end := SamplePath(path, a), SamplePath(path, 0.5 * (a + b)), SamplePath(path, b);
    && MIN_INTERVAL - EPSILON <= (b - a) * duration <= MAX_INTERVAL + EPSILON
    && (forall j :: 0 <= j < DOF ==> Abs(end[j] - start[j]) <= MAX_STEP + EPSILON)
    && (forall j :: 0 <= j < DOF ==>
          Abs(middle[j] - 0.5 * (start[j] + end[j])) <= LINEARIZATION_TOLERANCE + EPSILON)
  }

  method MaximumStep(start: JointPoint, end: JointPoint) returns (maximumStep: real)
    ensures maximumStep == LargestStep(start, end, DOF)
  {
    maximumStep := 0.0;
    for joint := 0 to DOF
      invariant maximumStep == LargestStep(start, end, joint)
    {
      maximumStep := Max(maximumStep, Abs(end[joint] - start[joint]));
    }
  }

  method MaximumLinearizationError(start: JointPoint, middle: JointPoint, end: JointPoint)
    returns (maximumError: real)
    ensures maximumError == LargestBulge(start, middle, end, DOF)
  {
    maximumError := 0.0;
    for joint := 0 to DOF
      invariant maximumError == LargestBulge(start, middle, end, joint)
    {
      maximumError := Max(maximumError, Abs(middle[joint] - 0.5 * (start[joint] + end[joint])));
    }
  }

  // ---------- Subdivision ----------

  /** Normalised times of the knots so far, and the stretch the rejected intervals ask for. */
  datatype Knots = Knots(amounts: seq<real>, scale: real) {
    function Append(amount: real): Knots {
      Knots(amounts + [amount], scale)
    }

    function Stretch(needed: real): Knots {
      Knots(amounts, Max(scale, needed))
    }
  }

  /** The stretch that brings a short interval back above its minimum. */
  function ShortIntervalStretch(needed: real, interval: real): real {
    Ratio(needed, Max(interval, EPSILON)) * 1.01
  }

  function Subdivide(path: JointPath, duration: real, knots: Knots, a: real, b: real, depth: nat)
    : Result<Knots, Error>
    requires depth <= MAX_DEPTH
    decreases MAX_DEPTH - depth
  {
    var interval := (b - a) * duration;
    var middle := 0.5 * (a + b);
    if |knots.amounts| > MAX_SEGMENTS then Failure(Capacity)
    else if NeedsSplit(path, duration, a, b) then
      if depth >= MAX_DEPTH then Failure(NotConverged)
      else if 0.5 * interval + EPSILON < MIN_INTERVAL then
        Success(knots.Stretch(ShortIntervalStretch(2.0 * MIN_INTERVAL, interval)).Append(b))
      else
        var left :- Subdivide(path, duration, knots, a, middle, depth + 1);
        Subdivide(path, duration, left, middle, b, depth + 1)
    else if interval + EPSILON < MIN_INTERVAL then
      Success(knots.Stretch(ShortIntervalStretch(MIN_INTERVAL, interval)).Append(b))
    else
      Success(knots.Append(b))
  }

  /** The normalised time at which path point i is due, on a path of so many segments. */
  function MandatoryAmount(segments: nat, i: nat): real
    requires 0 < segments && i <= segments
  {
    if i == 0 then 0.0
    else if i == segments then 1.0
    else Inverse(Ratio(i as real, segments as real))
  }

  /** Subdivide every path segment from the given one on. */
  function SubdivideFrom(path: JointPath, duration: real, knots: Knots, segment: nat): Result<Knots, Error>
    requires segment <= |path| - 1
    decreases |path| - segment
  {
    if segment == |path| - 1 then Success(knots)
    else
      var extended :- Subdivide(path, duration, knots, MandatoryAmount(|path| - 1, segment),
                                MandatoryAmount(|path| - 1, segment + 1), 0);
      SubdivideFrom(path, duration, extended, segment + 1)
  }

  /** When a normalised time is due. */
  function KnotTime(duration: real, amount: real): real {
    amount * duration
  }

  /** The knots at the given normalised times. */
  function TimedAt(path: JointPath, duration: real, amounts: seq<real>): (timed: TimedPath)
    ensures |timed.points| == |timed.timestamps| == |amounts|
  {
    TimedPath(seq(|amounts|, i requires 0 <= i < |amounts| => SamplePath(path, amounts[i])),
              seq(|amounts|, i requires 0 <= i < |amounts| => KnotTime(duration, amounts[i])))
  }

  lemma KnotTimeEnds(duration: real)
    ensures KnotTime(duration, 0.0) == 0.0 && KnotTime(duration, 1.0) == duration
  {
  }

  lemma TimedAtAppend(path: JointPath, duration: real, amounts: seq<real>, amount: real)
    ensures TimedAt(path, duration, amounts + [amount]).points
         == TimedAt(path, duration, amounts).points + [SamplePath(path, amount)]
    ensures TimedAt(path, duration, amounts + [amount]).timestamps
         == TimedAt(path, duration, amounts).timestamps + [KnotTime(duration, amount)]
  {
    hide SamplePath, KnotTime;
  }

  /** The result object that the recursive subdivision fills. */
  class KnotBuilder {
    const path: JointPath
    const duration: real
    var points: seq<JointPoint>
    var timestamps: seq<real>
    var requiredDurationScale: real

    constructor (path: JointPath, duration: real)
      ensures this.path == path && this.duration == duration
      ensures Holds(Knots([0.0], 1.0))
    {
      this.path, this.duration := path, duration;
      points, timestamps, requiredDurationScale := [path[0]], [0.0], 1.0;
    }

    ghost predicate Holds(knots: Knots)
      reads this
    {
      && TimedPath(points, timestamps) == TimedAt(path, duration, knots.amounts)
      && requiredDurationScale == knots.scale
    }

    method Push(ghost knots: Knots, amount: real, point: JointPoint)
      requires Holds(knots) && point == SamplePath(path, amount)
      modifies this
      ensures Holds(knots.Append(amount))
    {
      points := points + [point];
      timestamps := timestamps + [amount * duration];
      TimedAtAppend(path, duration, knots.amounts, amount);
    }

    method AppendInterval(ghost knots: Knots, startAmount: real, start: JointPoint,
                          endAmount: real, end: JointPoint, depth: nat)
      returns (error: Option<Error>)
      requires Holds(knots) && depth <= MAX_DEPTH
      requires start == SamplePath(path, startAmount) && end == SamplePath(path, endAmount)
      modifies this
      ensures match Subdivide(path, duration, knots, startAmount, endAmount, depth)
              case Success(extended) => error.None? && Holds(extended)
              case Failure(e) => error == Some(e)
      decreases MAX_DEPTH - depth
    {
      hide SamplePath, Ratio;
      if |points| > MAX_SEGMENTS {
        return Some(Capacity);
      }
      var interval := (endAmount - startAmount) * duration;
      var maximumStep := MaximumStep(start, end);
      var middleAmount := 0.5 * (startAmount + endAmount);
      var middle := SampleCartesianJointPath(path, middleAmount);
      var maximumLinearizationError := MaximumLinearizationError(start, middle, end);
      var split := interval > MAX_INTERVAL + EPSILON || maximumStep > MAX_STEP + EPSILON
                   || maximumLinearizationError > LINEARIZATION_TOLERANCE + EPSILON;
      assert split == NeedsSplit(path, duration, startAmount, endAmount);
      if split {
        if depth >= MAX_DEPTH {
          return Some(NotConverged);
        }
        if 0.5 * interval + EPSILON < MIN_INTERVAL {
          requiredDurationScale :=
            Max(requiredDurationScale, Ratio(2.0 * MIN_INTERVAL, Max(interval, EPSILON)) * 1.01);
          Push(knots.Stretch(ShortIntervalStretch(2.0 * MIN_INTERVAL, interval)), endAmount, end);
          return None;
        }
        ghost var left := Subdivide(path, duration, knots, startAmount, middleAmount, depth + 1);
        error := AppendInterval(knots, startAmount, start, middleAmount, middle, depth + 1);
        if error.None? {
          error := AppendInterval(left.value, middleAmount, middle, endAmount, end, depth + 1);
        }
        return;
      }
      ghost var stretched := knots;
      if interval + EPSILON < MIN_INTERVAL {
        requiredDurationScale :=
          Max(requiredDurationScale, Ratio(MIN_INTERVAL, Max(interval, EPSILON)) * 1.01);
        stretched := knots.Stretch(ShortIntervalStretch(MIN_INTERVAL, interval));
      }
      Push(stretched, endAmount, end);
      return None;
    }
  }

  // ---------- Retrying with a stretched duration ----------

  /** Total travel of a joint over the first n points. */
  function Variation(path: JointPath, joint: nat, n: nat): real
    requires joint < DOF && n <= |path|
  {
    if n <= 1 then 0.0 else Variation(path, joint, n - 1) + Abs(path[n - 1][joint] - path[n - 2][joint])
  }

  /** The largest total travel among the first n joints. */
  function LargestVariation(path: JointPath, joints: nat): real
    requires joints <= DOF
  {
    if joints == 0 then 0.0
    else Max(LargestVariation(path, joints - 1), Variation(path, joints - 1, |path|))
  }

  function FirstDuration(variation: real, limits: Limits, sqrt: real -> real): (d: real)
    requires limits.Positive()
    ensures 0.10 <= d
  {
    Max(0.10, Max(Ratio(1.875 * variation, limits.velocity), sqrt(Ratio(6.0 * variation, limits.acceleration))))
  }

  function Stretched(duration: real, scale: real): real {
    duration * scale
  }

  /** One attempt: the knots at a duration, and the stretch still required. */
  function Attempt(path: JointPath, limits: Limits, sqrt: real -> real, duration: real): Result<Knots, Error>
    requires limits.Positive()
  {
    if duration > MAX_DURATION then Failure(TooLong)
    else
      var knots :- SubdivideFrom(path, duration, Knots([0.0], 1.0), 0);
      KnotsGrow(path, duration, Knots([0.0], 1.0), 0);
      var factor :- Factor(TimedAt(path, duration, knots.amounts), limits, sqrt);
      Success(if factor > SETTLED then knots.Stretch(factor * 1.01) else knots)
  }

  function Retry(path: JointPath, limits: Limits, sqrt: real -> real, duration: real, attempt: nat)
    : Result<TimedPath, Error>
    requires limits.Positive() && attempt <= MAX_ATTEMPTS
    decreases MAX_ATTEMPTS - attempt
  {
    if attempt == MAX_ATTEMPTS then Failure(Unsettled)
    else
      var knots :- Attempt(path, limits, sqrt, duration);
      if knots.scale <= SETTLED then Success(TimedAt(path, duration, knots.amounts))
      else Retry(path, limits, sqrt, Stretched(duration, knots.scale), attempt + 1)
  }

  /** The timing of a joint path, for every input the planner can be given. */
  function Timing(points: seq<JointPoint>, limits: Limits, sqrt: real -> real): Result<TimedPath, Error> {
    if !limits.Positive() then Failure(InvalidLimits)
    else if |points| < 2 then Failure(TooFewPoints)
    else Retry(points, limits, sqrt, FirstDuration(LargestVariation(points, DOF), limits, sqrt), 0)
  }

  /** Subdivision only ever adds knots, and never lowers the stretch. */
  lemma {:induction false} SubdivideGrows(path: JointPath, duration: real, knots: Knots, a: real, b: real, depth: nat)
    requires depth <= MAX_DEPTH
    requires Subdivide(path, duration, knots, a, b, depth).Success?
    ensures var extended := Subdivide(path, duration, knots, a, b, depth).value;
            && |knots.amounts| < |extended.amounts| <= MAX_SEGMENTS + 1
            && knots.amounts == extended.amounts[..|knots.amounts|]
            && extended.amounts[|extended.amounts| - 1] == b
            && knots.scale <= extended.scale
    decreases MAX_DEPTH - depth
  {
    hide NeedsSplit, ShortIntervalStretch;
    var interval, middle := (b - a) * duration, 0.5 * (a + b);
    if NeedsSplit(path, duration, a, b) && !(0.5 * interval + EPSILON < MIN_INTERVAL) {
      var left := Subdivide(path, duration, knots, a, middle, depth + 1).value;
      SubdivideGrows(path, duration, knots, a, middle, depth + 1);
      SubdivideGrows(path, duration, left, middle, b, depth + 1);
    }
  }

  lemma {:induction false} KnotsGrow(path: JointPath, duration: real, knots: Knots, segment: nat)
    requires segment <= |path| - 1
    requires SubdivideFrom(path, duration, knots, segment).Success?
    ensures var extended := SubdivideFrom(path, duration, knots, segment).value;
            && |knots.amounts| <= |extended.amounts|
            && (segment < |path| - 1 ==> |knots.amounts| < |extended.amounts| <= MAX_SEGMENTS + 1)
            && knots.amounts == extended.amounts[..|knots.amounts|]
            && (segment < |path| - 1 ==> extended.amounts[|extended.amounts| - 1] == 1.0)
            && knots.scale <= extended.scale
    decreases |path| - segment
  {
    hide Subdivide;
    if segment < |path| - 1 {
      var a, b := MandatoryAmount(|path| - 1, segment), MandatoryAmount(|path| - 1, segment + 1);
      SubdivideGrows(path, duration, knots, a, b, 0);
      KnotsGrow(path, duration, Subdivide(path, duration, knots, a, b, 0).value, segment + 1);
    }
  }

  method MaximumJointVariation(path: JointPath) returns (maximum: real)
    ensures maximum == LargestVariation(path, DOF)
  {
    maximum := 0.0;
    for joint := 0 to DOF
      invariant maximum == LargestVariation(path, joint)
    {
      var variation := 0.0;
      for sample := 1 to |path|
        invariant variation == Variation(path, joint, sample)
      {
        variation := variation + Abs(path[sample][joint] - path[sample - 1][joint]);
      }
      maximum := Max(maximum, variation);
    }
  }

  method MandatoryAmounts(path: JointPath) returns (amounts: seq<real>)
    ensures |amounts| == |path|
    ensures forall i :: 0 <= i < |path| ==> amounts[i] == MandatoryAmount(|path| - 1, i)
  {
    amounts := [0.0];
    for sample := 1 to |path| - 1
      invariant |amounts| == sample
      invariant forall i :: 0 <= i < sample ==> amounts[i] == MandatoryAmount(|path| - 1, i)
    {
      var amount := InverseQuinticProgress(Ratio(sample as real, (|path| - 1) as real));
      amounts := amounts + [amount];
    }
    amounts := amounts + [1.0];
  }

  /** The timed knots, and the scale they ask for. */
  function Built(path: JointPath, duration: real, knots: Result<Knots, Error>): Result<(TimedPath, real), Error> {
    if knots.Failure? then Failure(knots.error)
    else Success((TimedAt(path, duration, knots.value.amounts), knots.value.scale))
  }

  /** Fill a fresh builder with the knots of every path segment. */
  method BuildKnots(path: JointPath, duration: real, amounts: seq<real>)
    returns (r: Result<(TimedPath, real), Error>)
    requires |amounts| == |path|
    requires forall i :: 0 <= i < |path| ==> amounts[i] == MandatoryAmount(|path| - 1, i)
    ensures r == Built(path, duration, SubdivideFrom(path, duration, Knots([0.0], 1.0), 0))
  {
    hide Subdivide, SamplePath, KnotTime, Inverse;
    SampleEnds(path);
    assert KnotTime(duration, 0.0) == 0.0 && KnotTime(duration, 1.0) == duration by { KnotTimeEnds(duration); }
    var builder := new KnotBuilder(path, duration);
    ghost var knots := Knots([0.0], 1.0);
    for segment := 0 to |amounts| - 1
      invariant builder.path == path && builder.duration == duration && builder.Holds(knots)
      invariant SubdivideFrom(path, duration, knots, segment) == SubdivideFrom(path, duration, Knots([0.0], 1.0), 0)
    {
      var startAmount, endAmount := amounts[segment], amounts[segment + 1];
      var start, end := path[0], path[|path| - 1];
      if segment != 0 {
        start := SampleCartesianJointPath(path, startAmount);
      }
      if segment + 2 != |amounts| {
        end := SampleCartesianJointPath(path, endAmount);
      }
      ghost var extended := Subdivide(path, duration, knots, startAmount, endAmount, 0);
      var error := builder.AppendInterval(knots, startAmount, start, endAmount, end, 0);
      if error.Some? {
        return Failure(error.value);
      }
      knots := extended.value;
    }
    KnotsGrow(path, duration, Knots([0.0], 1.0), 0);
    var points, timestamps, last := builder.points, builder.timestamps, |builder.points| - 1;
    points := points[0 := path[0]][last := path[|path| - 1]];
    timestamps := timestamps[0 := 0.0][last := duration];
    assert points == builder.points && timestamps == builder.timestamps;
    return Success((TimedPath(points, timestamps), builder.requiredDurationScale));
  }

  method TimeParameterizeCartesianTrajectory(path: seq<JointPoint>, limits: Limits, sqrt: real -> real)
    returns (r: Result<TimedPath, Error>)
    ensures r == Timing(path, limits, sqrt)
  {
    hide SubdivideFrom, TimedAt, Factor, Stretched, FirstDuration, LargestVariation, MandatoryAmount;
    if !(limits.velocity > 0.0 && limits.acceleration > 0.0) {
      return Failure(InvalidLimits);
    }
    if |path| < 2 {
      return Failure(TooFewPoints);
    }
    var variation := MaximumJointVariation(path);
    var duration := FirstDuration(variation, limits, sqrt);
    var amounts := MandatoryAmounts(path);
    for attempt := 0 to MAX_ATTEMPTS
      invariant Retry(path, limits, sqrt, duration, attempt) == Timing(path, limits, sqrt)
    {
      if duration > MAX_DURATION {
        return Failure(TooLong);
      }
      var built :- BuildKnots(path, duration, amounts);
      var (timed, required) := built;
      KnotsGrow(path, duration, Knots([0.0], 1.0), 0);
      var factor :- VariablePathStretchFactor(timed, limits, sqrt);
      if factor > SETTLED {
        required := Max(required, factor * 1.01);
      }
      assert Attempt(path, limits, sqrt, duration).value.scale == required;
      if required <= SETTLED {
        return Success(timed);
      }
      duration := Stretched(duration, required);
    }
    return Failure(Unsettled);
  }
}
