/** Sampling of a sparse joint path under the quintic time law
    (runtime/src/product_cartesian.cpp). */
module CartesianPath {
  import opened RealArithmetic
  import opened QuinticProgress

  /** Joints of the dual-arm product. */
  const DOF: nat := 14

  type JointPoint = p: seq<real> | |p| == DOF witness seq(DOF, _ => 0.0)

  const ORIGIN: JointPoint := seq(DOF, _ => 0.0)

  /** Sparse geometry: at least a start and an end. */
  type JointPath = p: seq<JointPoint> | |p| >= 2 witness [ORIGIN, ORIGIN]

  lemma ProgressClamps(amount: real)
    ensures Progress(Clamp(amount, 0.0, 1.0)) == Progress(amount)
  {
  }

  lemma ProgressRange(amount: real)
    ensures 0.0 <= Progress(amount) <= 1.0
  {
    assert Progress(0.0) == 0.0 && Progress(1.0) == 1.0;
    ProgressClamps(amount);
    hide Progress;
    ProgressIncrement(0.0, Clamp(amount, 0.0, 1.0));
    ProgressIncrement(Clamp(amount, 0.0, 1.0), 1.0);
  }

  /** How far along the path, counted in path segments. */
  function PathPosition(path: JointPath, amount: real): (p: real)
    ensures 0.0 <= p <= (|path| - 1) as real
  {
    var progress, segments := Progress(amount), (|path| - 1) as real;
    ProgressRange(amount);
    ScaledIntoRange(progress, segments);
    progress * segments
  }

  /** The path segment a position falls into. */
  function LowerIndex(path: JointPath, amount: real): (i: nat)
    ensures i + 1 < |path|
  {
    var floor := PathPosition(path, amount).Floor;
    if floor < |path| - 2 then floor else |path| - 2
  }

  /** The place inside that segment. */
  function Local(path: JointPath, amount: real): (u: real)
    ensures 0.0 <= u <= 1.0
  {
    if 1.0 <= amount then 1.0 else PathPosition(path, amount) - LowerIndex(path, amount) as real
  }

  function SamplePath(path: JointPath, amount: real): JointPoint {
    if amount <= 0.0 then path[0]
    else if 1.0 <= amount then path[|path| - 1]
    else
      var lower, u := LowerIndex(path, amount), Local(path, amount);
      seq(DOF, joint requires 0 <= joint < DOF => Blend(path[lower][joint], path[lower + 1][joint], u))
  }

  lemma SampleEnds(path: JointPath)
    ensures SamplePath(path, 0.0) == path[0] && SamplePath(path, 1.0) == path[|path| - 1]
  {
  }

  method SampleCartesianJointPath(path: JointPath, timeAmount: real) returns (point: JointPoint)
    ensures point == SamplePath(path, timeAmount)
  {
    hide Progress, Blend;
    ProgressClamps(timeAmount);
    var amount := Clamp(timeAmount, 0.0, 1.0);
    var pathPosition := Progress(amount) * (|path| - 1) as real;
    var lower := if pathPosition.Floor < |path| - 2 then pathPosition.Floor else |path| - 2;
    assert pathPosition == PathPosition(path, timeAmount) && lower == LowerIndex(path, timeAmount);
    var local := if 1.0 <= amount then 1.0 else pathPosition - lower as real;
    hide PathPosition, LowerIndex;
    var values := [];
    for joint := 0 to DOF
      invariant |values| == joint
      invariant forall j :: 0 <= j < joint ==> values[j] == Blend(path[lower][j], path[lower + 1][j], local)
    {
      values := values + [Blend(path[lower][joint], path[lower + 1][joint], local)];
    }
    point := values;
    if amount <= 0.0 {
      point := path[0];
    }
    if 1.0 <= amount {
      point := path[|path| - 1];
    }
  }

  /** Sampling never leaves the box that holds the path. */
  lemma SampleStaysInBox(path: JointPath, amount: real, joint: nat, low: real, high: real)
    requires joint < DOF
    requires forall i :: 0 <= i < |path| ==> low <= path[i][joint] <= high
    ensures low <= SamplePath(path, amount)[joint] <= high
  {
    if 0.0 < amount < 1.0 {
      var i := LowerIndex(path, amount);
      BlendBetween(path[i][joint], path[i + 1][joint], Local(path, amount), low, high);
    }
  }

  lemma PositionEnds(path: JointPath, amount: real)
    ensures amount <= 0.0 ==> PathPosition(path, amount) == 0.0
    ensures 1.0 <= amount ==> PathPosition(path, amount) == (|path| - 1) as real
  {
    assert amount <= 0.0 ==> Progress(amount) == 0.0;
    assert 1.0 <= amount ==> Progress(amount) == 1.0;
  }

  /** Inside a path segment the sample lies on the line through its two points, as far along as the progress is. */
  lemma SampleInSegment(path: JointPath, amount: real, i: nat, joint: nat)
    requires i + 1 < |path| && joint < DOF
    requires i as real <= PathPosition(path, amount) <= (i + 1) as real
    ensures SamplePath(path, amount)[joint]
         == Blend(path[i][joint], path[i + 1][joint], PathPosition(path, amount) - i as real)
  {
    PositionEnds(path, amount);
    hide PathPosition, Product;
    var position := PathPosition(path, amount);
    BlendEnds(path[i][joint], path[i + 1][joint]);
    if i + 2 < |path| {
      BlendEnds(path[i + 1][joint], path[i + 2][joint]);
    }
    if position < (i + 1) as real {
      assert position.Floor == i;
    } else {
      assert position.Floor == i + 1;
    }
  }

  lemma BlendEnds(from: real, to: real)
    ensures Blend(from, to, 0.0) == from && Blend(from, to, 1.0) == to
  {
  }

  lemma BlendDifference(from: real, to: real, u: real, v: real)
    ensures Blend(from, to, v) - Blend(from, to, u) == Product(v - u, to - from)
  {
  }

  /** Within one path segment, every joint moves by the segment's step times the progress made, counted in segments. */
  lemma SampleIsProportional(path: JointPath, a: real, b: real, i: nat, joint: nat)
    requires i + 1 < |path| && joint < DOF
    requires i as real <= Progress(a) * (|path| - 1) as real <= (i + 1) as real
    requires i as real <= Progress(b) * (|path| - 1) as real <= (i + 1) as real
    ensures SamplePath(path, b)[joint] - SamplePath(path, a)[joint]
         == (Progress(b) - Progress(a)) * (|path| - 1) as real * (path[i + 1][joint] - path[i][joint])
  {
    hide *;
    PositionDifference(path, a, b);
    SampleInSegment(path, a, i, joint);
    SampleInSegment(path, b, i, joint);
    BlendDifference(path[i][joint], path[i + 1][joint], PathPosition(path, a) - i as real, PathPosition(path, b) - i as real);
    var made := PathPosition(path, b) - PathPosition(path, a);
    assert Product(made, path[i + 1][joint] - path[i][joint]) == made * (path[i + 1][joint] - path[i][joint]) by {
      ProductIs(made, path[i + 1][joint] - path[i][joint]);
    }
  }

  lemma ProductIs(x: real, y: real)
    ensures Product(x, y) == x * y
  {
  }

  lemma PositionDifference(path: JointPath, a: real, b: real)
    ensures PathPosition(path, a) == Progress(a) * (|path| - 1) as real
    ensures PathPosition(path, b) == Progress(b) * (|path| - 1) as real
    ensures PathPosition(path, b) - PathPosition(path, a) == (Progress(b) - Progress(a)) * (|path| - 1) as real
  {
    hide Progress;
  }

  /** Where the progress is that of a path point, the sample is that point. */
  lemma SampleAtPathPoint(path: JointPath, amount: real, i: nat)
    requires i < |path| && Progress(amount) * (|path| - 1) as real == i as real
    ensures SamplePath(path, amount) == path[i]
  {
    hide Progress, SamplePath, Product;
    forall joint | 0 <= joint < DOF ensures SamplePath(path, amount)[joint] == path[i][joint] {
      var k := if i == 0 then 0 else i - 1;
      SampleInSegment(path, amount, k, joint);
      BlendEnds(path[k][joint], path[k + 1][joint]);
    }
  }
}
