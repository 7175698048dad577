/** What a passed extrema check says about every point of a segment: between the candidates it looked at, a polynomial
    leaves their range by no more than a slack computed from its coefficients and the tolerances of the root finder
    (runtime/src/runtime_trajectory.cpp). */
module SegmentBounds {
  import opened RealArithmetic
  import opened QuinticProgress
  import opened PolynomialRoots
  import opened PolynomialRootsProperties
  import opened TrajectorySegments

  // ---------- How large, steep and bent a polynomial gets on [0, 1] ----------

  function Size(p: seq<real>): (size: real)
    ensures 0.0 <= size
  {
    if |p| == 0 then 0.0 else Size(p[1..]) + Abs(p[0])
  }

  function Steepness(p: seq<real>): (steepness: real)
    ensures 0.0 <= steepness
  {
    if |p| == 0 then 0.0 else Steepness(p[1..]) + Size(p[1..])
  }

  function Bend(p: seq<real>): (bend: real)
    ensures 0.0 <= bend
  {
    if |p| == 0 then 0.0 else Bend(p[1..]) + Steepness(p[1..])
  }

  lemma ProductWithin(x: real, y: real, bound: real)
    requires Abs(x) <= bound
    ensures Abs(x * y) <= Product(bound, Abs(y))
  {
    var size := Abs(y);
    MulMonotone(x, bound, size);
    MulMonotone(-bound, x, size);
  }

  lemma Triangle(x: real, y: real)
    ensures Abs(x + y) <= Abs(x) + Abs(y)
  {
  }

  lemma ScaledWithin(value: real, x: real, bound: real)
    requires Abs(value) <= bound && 0.0 <= x <= 1.0
    ensures Abs(value * x) <= bound
  {
    if 0.0 <= value {
      ScaledIntoRange(x, value);
    } else {
      ScaledIntoRange(x, -value);
      assert -value * x == -(value * x);
    }
  }

  lemma HornerWithin(value: real, x: real, c: real, bound: real)
    requires Abs(value) <= bound && 0.0 <= x <= 1.0
    ensures Abs(Horner(value, x, c)) <= bound + Abs(c)
  {
    ScaledWithin(value, x, bound);
    Triangle(value * x, c);
    hide Abs;
  }

  lemma {:induction false} EvaluateWithin(p: seq<real>, x: real)
    requires 0.0 <= x <= 1.0
    ensures Abs(Evaluate(p, x)) <= Size(p)
  {
    hide Horner, Abs;
    if |p| > 0 {
      EvaluateWithin(p[1..], x);
      HornerWithin(Evaluate(p[1..], x), x, p[0], Size(p[1..]));
    } else {
      assert Abs(0.0) == 0.0;
    }
  }

  lemma {:induction false} SlopeWithin(p: seq<real>, x: real, y: real)
    requires 0.0 <= x <= 1.0 && 0.0 <= y <= 1.0
    ensures Abs(Slope(p, x, y)) <= Steepness(p)
  {
    hide Horner, Abs, Evaluate;
    if |p| > 0 {
      SlopeWithin(p[1..], x, y);
      EvaluateWithin(p[1..], y);
      HornerWithin(Slope(p[1..], x, y), x, Evaluate(p[1..], y), Steepness(p[1..]));
    } else {
      assert Abs(0.0) == 0.0;
    }
  }

  /** Values at neighbouring points are close. */
  lemma EvaluateNear(p: seq<real>, x: real, y: real)
    requires 0.0 <= x <= 1.0 && 0.0 <= y <= 1.0
    ensures Abs(Evaluate(p, y) - Evaluate(p, x)) <= Product(Steepness(p), Abs(y - x))
  {
    hide Abs, Evaluate, Slope, Steepness, Product;
    SlopeIsChord(p, x, y);
    SlopeWithin(p, x, y);
    ProductWithin(Slope(p, x, y), y - x, Steepness(p));
  }

  lemma HornerNear(s: real, s': real, x: real, c: real, c': real, bound: real, more: real)
    requires Abs(s - s') <= bound && Abs(c - c') <= more && 0.0 <= x <= 1.0
    ensures Abs(Horner(s, x, c) - Horner(s', x, c')) <= bound + more
  {
    var d := s - s';
    assert Horner(s, x, c) - Horner(s', x, c') == Horner(d, x, c - c');
    HornerWithin(d, x, c - c', bound);
  }

  lemma SumOfProducts(x: real, y: real, k: real)
    ensures Product(x + y, k) == Product(x, k) + Product(y, k)
  {
  }

  /** The slope of a short chord is close to the slope at its start. */
  lemma {:induction false} SlopeNear(p: seq<real>, x: real, y: real)
    requires 0.0 <= x <= 1.0 && 0.0 <= y <= 1.0
    ensures Abs(Slope(p, x, y) - Slope(p, x, x)) <= Product(Bend(p), Abs(y - x))
  {
    hide Horner, Abs, Evaluate, Steepness, Product;
    if |p| > 0 {
      SlopeNear(p[1..], x, y);
      EvaluateNear(p[1..], x, y);
      HornerNear(Slope(p[1..], x, y), Slope(p[1..], x, x), x, Evaluate(p[1..], y), Evaluate(p[1..], x),
                 Product(Bend(p[1..]), Abs(y - x)), Product(Steepness(p[1..]), Abs(y - x)));
      SumOfProducts(Bend(p[1..]), Steepness(p[1..]), Abs(y - x));
    } else {
      AbsZero();
      ProductOfZero(Abs(y - x));
    }
  }

  // ---------- Where the derivative keeps its sign the polynomial keeps its direction ----------

  /** A value read upwards or downwards. */
  function Signed(up: bool, value: real): real {
    if up then value else -value
  }

  /** Up to a slack, the polynomial has the given sign on an interval. */
  ghost predicate KeepsSign(q: seq<real>, up: bool, lo: real, hi: real, slack: real) {
    forall x :: lo <= x <= hi ==> -slack <= Signed(up, Evaluate(q, x))
  }

  /** Up to a slack, the polynomial runs in the given direction on an interval. */
  ghost predicate KeepsDirection(q: seq<real>, up: bool, lo: real, hi: real, slack: real) {
    forall x, y :: lo <= x <= y <= hi ==> -slack <= Signed(up, Evaluate(q, y) - Evaluate(q, x))
  }

  lemma SignedRise(up: bool, slope: real, width: real, rise: real, low: real)
    requires 0.0 <= width && low <= Signed(up, slope) && rise == slope * width
    ensures Product(low, width) <= Signed(up, rise)
  {
    MulMonotone(low, Signed(up, slope), width);
  }

  lemma ShortSlope(p: Polynomial, up: bool, lo: real, hi: real, slack: real, x: real, y: real, more: real)
    requires 0.0 <= lo <= x <= y <= hi <= 1.0 && KeepsSign(Derivative(p), up, lo, hi, slack)
    requires Product(Bend(p), y - x) <= more
    ensures -(slack + more) <= Signed(up, Slope(p, x, y))
  {
    hide Evaluate, Slope, Bend, Derivative, Product;
    assert -slack <= Signed(up, Evaluate(Derivative(p), x));
    DerivativeIsSlope(p, x);
    SlopeNear(p, x, y);
  }

  lemma ShortChord(p: Polynomial, up: bool, lo: real, hi: real, slack: real, x: real, y: real, more: real)
    requires 0.0 <= lo <= x <= y <= hi <= 1.0 && KeepsSign(Derivative(p), up, lo, hi, slack)
    requires Product(Bend(p), y - x) <= more
    ensures Product(-(slack + more), y - x) <= Signed(up, Evaluate(p, y) - Evaluate(p, x))
  {
    hide *;
    ShortSlope(p, up, lo, hi, slack, x, y, more);
    SlopeIsChord(p, x, y);
    SignedRise(up, Slope(p, x, y), y - x, Evaluate(p, y) - Evaluate(p, x), -(slack + more));
  }

  lemma SplitProduct(k: real, x: real, m: real, y: real)
    ensures Product(k, y - x) == Product(k, m - x) + Product(k, y - m)
  {
  }

  /** Halving a chord often enough makes the slopes of its parts as good as derivatives. */
  lemma {:induction false} HalvedChord(p: Polynomial, up: bool, lo: real, hi: real, slack: real, x: real, y: real,
                                       more: real, n: nat)
    requires 0.0 <= lo <= x <= y <= hi <= 1.0 && KeepsSign(Derivative(p), up, lo, hi, slack)
    requires Product(Bend(p), WidthAfter(x, y, n)) <= more
    ensures Product(-(slack + more), y - x) <= Signed(up, Evaluate(p, y) - Evaluate(p, x))
    decreases n
  {
    hide Evaluate, Derivative, Bend, KeepsSign, WidthAfter, Product;
    HalfOfBracket(x, y, n);
    if n == 0 {
      ShortChord(p, up, lo, hi, slack, x, y, more);
    } else {
      var m := (x + y) * 0.5;
      HalvedChord(p, up, lo, hi, slack, x, m, more, n - 1);
      HalvedChord(p, up, lo, hi, slack, m, y, more, n - 1);
      SplitProduct(-(slack + more), x, m, y);
    }
  }

  lemma {:induction false} HalvingShrinks(n: nat)
    ensures (n + 1) as real * HalfPower(n) <= 1.0
  {
    if n > 0 {
      HalvingShrinks(n - 1);
      var h := HalfPower(n - 1);
      assert (n + 1) as real <= 2.0 * n as real;
      MulMonotone((n + 1) as real, 2.0 * n as real, 0.5 * h);
    }
  }

  lemma SmallProduct(bend: real, width: real, n: real, h: real, more: real)
    requires 0.0 <= bend <= n * more && 0.0 <= width <= h && n * h <= 1.0 && 0.0 < more
    ensures bend * width <= more
  {
    MulMonotone(width, h, bend);
    MulMonotone(bend, n * more, h);
    assert n * more * h == n * h * more;
    MulMonotone(n * h, 1.0, more);
  }

  /** Enough halvings make any product small. */
  lemma EnoughHalvings(bend: real, x: real, y: real, more: real) returns (n: nat)
    requires 0.0 <= bend && x <= y <= x + 1.0 && 0.0 < more
    ensures Product(bend, WidthAfter(x, y, n)) <= more
  {
    var q := Ratio(bend, more);
    DivMul(bend, more);
    RatioNonNegative(bend, more);
    n := q.Floor;
    HalvingShrinks(n);
    MulMonotone(q, (n + 1) as real, more);
    WidthShrinks(x, y, n);
    MulNonNegative(y - x, HalfPower(n));
    hide HalfPower;
    SmallProduct(bend, WidthAfter(x, y, n), (n + 1) as real, HalfPower(n), more);
  }

  /** A rise that falls short of a slack by anything falls short of a larger one. */
  lemma LargerSlack(rise: real, slack: real, width: real) returns (more: real)
    requires 0.0 < width && rise < Product(-slack, width)
    ensures 0.0 < more && rise < Product(-(slack + more), width)
  {
    var gap := Product(-slack, width) - rise;
    more := 0.5 * Ratio(gap, width);
    DivMul(gap, width);
    MulPositive(gap, width);
    assert more * width == 0.5 * gap;
    assert -(slack + more) * width == -slack * width - more * width;
  }

  /** The mean value inequality. */
  lemma ChordAtLeast(p: Polynomial, up: bool, lo: real, hi: real, slack: real, x: real, y: real)
    requires 0.0 <= lo <= x <= y <= hi <= 1.0 && KeepsSign(Derivative(p), up, lo, hi, slack)
    ensures Product(-slack, y - x) <= Signed(up, Evaluate(p, y) - Evaluate(p, x))
  {
    hide Evaluate, Derivative, Bend, KeepsSign, WidthAfter, Product;
    var rise := Signed(up, Evaluate(p, y) - Evaluate(p, x));
    if x == y {
      ProductOfZero(-slack);
    } else if rise < Product(-slack, y - x) {
      var more := LargerSlack(rise, slack, y - x);
      var n := EnoughHalvings(Bend(p), x, y, more);
      HalvedChord(p, up, lo, hi, slack, x, y, more, n);
      assert false;
    }
  }

  lemma AtMostSlack(slack: real, width: real, rise: real)
    requires 0.0 <= slack && 0.0 <= width <= 1.0 && Product(-slack, width) <= rise
    ensures -slack <= rise
  {
    ScaledIntoRange(width, slack);
    assert -slack * width == -(slack * width);
  }

  lemma DirectionFromSign(p: Polynomial, up: bool, lo: real, hi: real, slack: real)
    requires 0.0 <= lo <= hi <= 1.0 && 0.0 <= slack && KeepsSign(Derivative(p), up, lo, hi, slack)
    ensures KeepsDirection(p, up, lo, hi, slack)
  {
    hide Evaluate, Derivative, KeepsSign, Signed;
    forall x, y | lo <= x <= y <= hi ensures -slack <= Signed(up, Evaluate(p, y) - Evaluate(p, x)) {
      ChordAtLeast(p, up, lo, hi, slack, x, y);
      AtMostSlack(slack, y - x, Signed(up, Evaluate(p, y) - Evaluate(p, x)));
    }
  }

  // ---------- The roots found separate the signs ----------

  /** What a value next to a reported root is at most. */
  function Negligible(p: seq<real>): (bound: real)
    ensures 0.0 < bound
  {
    BOUNDARY_TOLERANCE + Product(UNIQUENESS, Steepness(p))
  }

  /** A point where the polynomial is negligible, with a reported root next to it. */
  ghost predicate Marked(p: seq<real>, roots: seq<real>, z: real) {
    0.0 <= z <= 1.0 && Abs(Evaluate(p, z)) <= Negligible(p) && Near(roots, z)
  }

  lemma ManyHalvingsAreTiny()
    ensures HalfPower(BISECTIONS) <= UNIQUENESS
  {
    assert HalfPower(10) == 1.0 / 1024.0;
    HalfPowerSum(10, 10);
    HalfPowerSum(10, 20);
    HalfPowerSum(50, 30);
    HalvingShrinks(50);
  }

  lemma SmallBetweenSigns(v: real, w: real, middle: real, bound: real)
    requires (v < 0.0) != (w < 0.0) && Abs(middle - v) <= bound && Abs(middle - w) <= bound
    ensures Abs(middle) <= bound
  {
  }

  lemma ShrinkProduct(steepness: real, distance: real)
    requires 0.0 <= steepness && distance <= UNIQUENESS
    ensures Product(steepness, distance) <= Product(UNIQUENESS, steepness)
  {
    MulMonotone(distance, UNIQUENESS, steepness);
  }

  lemma CloseValues(p: seq<real>, x: real, y: real)
    requires 0.0 <= x <= 1.0 && 0.0 <= y <= 1.0 && Abs(y - x) <= UNIQUENESS
    ensures Abs(Evaluate(p, y) - Evaluate(p, x)) <= Product(UNIQUENESS, Steepness(p))
  {
    hide Evaluate, Steepness, Abs, Product;
    EvaluateNear(p, x, y);
    ShrinkProduct(Steepness(p), Abs(y - x));
  }

  lemma BracketRootNegligible(p: Polynomial, lower: real, upper: real)
    requires 0.0 <= lower <= upper <= 1.0 && OppositeSigns(p, lower, upper)
    ensures lower <= BracketRoot(p, lower, upper) <= upper
    ensures Abs(Evaluate(p, BracketRoot(p, lower, upper))) <= Negligible(p)
  {
    assert lower < upper by { SignsDiffer(p, lower, upper); }
    hide Evaluate, Steepness, Bisect, HalfPower, WidthAfter;
    BisectNarrows(p, lower, upper, BISECTIONS);
    var (lo, hi) := Bisect(p, lower, upper, BISECTIONS);
    var root := BracketRoot(p, lower, upper);
    WidthShrinks(lower, upper, BISECTIONS);
    ManyHalvingsAreTiny();
    if lo < hi {
      CloseValues(p, lo, root);
      CloseValues(p, hi, root);
      SmallBetweenSigns(Evaluate(p, lo), Evaluate(p, hi), Evaluate(p, root), Product(UNIQUENESS, Steepness(p)));
    }
  }

  /** Between neighbouring cuts the polynomial runs one way, up to a slack. */
  ghost predicate OneWay(p: seq<real>, lo: real, hi: real, slack: real) {
    KeepsDirection(p, true, lo, hi, slack) || KeepsDirection(p, false, lo, hi, slack)
  }

  /** Cut points between which the polynomial runs one way, with roots that cover its zeros there. */
  ghost predicate Charted(p: Polynomial, roots: seq<real>, cuts: seq<real>, slack: real) {
    && 0.0 <= slack && |cuts| >= 2 && Cuts(cuts)
    && (forall i :: 0 <= i < |cuts| && Abs(Evaluate(p, cuts[i])) <= BOUNDARY_TOLERANCE ==> Near(roots, cuts[i]))
    && (forall i :: 0 < i < |cuts| && ChangesSign(p, cuts, i) ==> Near(roots, BracketRoot(p, cuts[i - 1], cuts[i])))
    && (forall i {:trigger cuts[i]} :: 0 < i < |cuts| ==> OneWay(p, cuts[i - 1], cuts[i], slack))
  }

  /** Clearly on the near side of zero, or on it at a cut point. */
  ghost predicate Before(p: seq<real>, up: bool, x: real, cut: real, margin: real) {
    Signed(up, Evaluate(p, x)) < -margin || (x == cut && Signed(up, Evaluate(p, x)) < 0.0)
  }

  ghost predicate After(p: seq<real>, up: bool, x: real, cut: real, margin: real) {
    margin < Signed(up, Evaluate(p, x)) || (x == cut && 0.0 < Signed(up, Evaluate(p, x)))
  }

  lemma RunsUp(p: seq<real>, up: bool, lo: real, hi: real, slack: real, a: real, b: real)
    requires lo <= a <= b <= hi && OneWay(p, lo, hi, slack)
    ensures KeepsDirection(p, up, lo, hi, slack) || Signed(up, Evaluate(p, b) - Evaluate(p, a)) <= slack
  {
    hide Evaluate;
    if KeepsDirection(p, !up, lo, hi, slack) {
      assert -slack <= Signed(!up, Evaluate(p, b) - Evaluate(p, a));
    }
  }

  /** A negligible point does not lie on the far side of a clear one. */
  lemma NotBeyond(p: Polynomial, up: bool, lo: real, hi: real, slack: real, x: real, z: real)
    requires lo <= x <= hi && lo <= z <= hi && KeepsDirection(p, up, lo, hi, slack)
    requires Abs(Evaluate(p, z)) <= Negligible(p)
    ensures Signed(up, Evaluate(p, x)) < -(slack + Negligible(p)) ==> x <= z
    ensures slack + Negligible(p) < Signed(up, Evaluate(p, x)) ==> z <= x
  {
    hide Evaluate, Negligible;
    if z <= x {
      assert -slack <= Signed(up, Evaluate(p, x) - Evaluate(p, z));
    } else {
      assert -slack <= Signed(up, Evaluate(p, z) - Evaluate(p, x));
    }
  }

  lemma GapOpposes(p: Polynomial, up: bool, lower: real, upper: real, a: real, b: real, slack: real)
    requires 0.0 <= slack && lower <= a <= b <= upper && OneWay(p, lower, upper, slack)
    requires Before(p, up, a, lower, slack + Negligible(p)) && After(p, up, b, upper, slack + Negligible(p))
    ensures OppositeSigns(p, lower, upper)
    ensures (a == lower && b == upper) || KeepsDirection(p, up, lower, upper, slack)
  {
    hide Evaluate, Negligible;
    if !(a == lower && b == upper) {
      RunsUp(p, up, lower, upper, slack, a, b);
      assert -slack <= Signed(up, Evaluate(p, a) - Evaluate(p, lower));
      assert -slack <= Signed(up, Evaluate(p, upper) - Evaluate(p, b));
    }
  }

  /** A change of sign inside one gap has a reported root next to it. */
  lemma GapCrossing(p: Polynomial, roots: seq<real>, cuts: seq<real>, slack: real, up: bool, i: nat, a: real, b: real)
    returns (z: real)
    requires Charted(p, roots, cuts, slack) && 0 < i < |cuts| && cuts[i - 1] <= a <= b <= cuts[i]
    requires Before(p, up, a, cuts[i - 1], slack + Negligible(p)) && After(p, up, b, cuts[i], slack + Negligible(p))
    ensures a <= z <= b && Marked(p, roots, z)
  {
    var lower, upper := cuts[i - 1], cuts[i];
    assert OneWay(p, lower, upper, slack);
    GapOpposes(p, up, lower, upper, a, b, slack);
    hide Evaluate, Negligible, BracketRoot, Near, OneWay;
    assert ChangesSign(p, cuts, i);
    BracketRootNegligible(p, lower, upper);
    z := BracketRoot(p, lower, upper);
    if KeepsDirection(p, up, lower, upper, slack) {
      NotBeyond(p, up, lower, upper, slack, a, z);
      NotBeyond(p, up, lower, upper, slack, b, z);
    }
  }

  /** So has a change of sign across several gaps. */
  lemma {:induction false} Crossing(p: Polynomial, roots: seq<real>, cuts: seq<real>, slack: real, up: bool, i: nat,
                                    a: real, b: real)
    returns (z: real)
    requires Charted(p, roots, cuts, slack) && 0 < i < |cuts| && cuts[i - 1] <= a <= cuts[i]
    requires a <= b <= cuts[|cuts| - 1] && slack + Negligible(p) < Signed(up, Evaluate(p, b))
    requires Before(p, up, a, cuts[i - 1], slack + Negligible(p))
    ensures a <= z <= b && Marked(p, roots, z)
    decreases |cuts| - i
  {
    hide Evaluate, Near, OneWay, BracketRoot, ChangesSign, Abs;
    if b <= cuts[i] {
      z := GapCrossing(p, roots, cuts, slack, up, i, a, b);
    } else {
      var c := cuts[i];
      AbsSigned(up, Evaluate(p, c));
      if Abs(Evaluate(p, c)) <= BOUNDARY_TOLERANCE {
        z := c;
      } else if 0.0 < Signed(up, Evaluate(p, c)) {
        z := GapCrossing(p, roots, cuts, slack, up, i, a, c);
      } else {
        z := Crossing(p, roots, cuts, slack, up, i + 1, c, b);
      }
    }
  }

  lemma AbsSigned(up: bool, v: real)
    ensures Abs(Signed(up, v)) == Abs(v)
    ensures 0.0 < Abs(v) ==> Signed(up, v) < 0.0 || 0.0 < Signed(up, v)
    ensures Signed(up, v) <= Abs(v) && -Abs(v) <= Signed(up, v)
  {
  }

  lemma FindGap(cuts: seq<real>, x: real) returns (i: nat)
    requires |cuts| >= 2 && cuts[0] <= x <= cuts[|cuts| - 1]
    ensures 0 < i < |cuts| && cuts[i - 1] <= x <= cuts[i]
  {
    i := 1;
    while cuts[i] < x
      invariant 0 < i < |cuts| && cuts[i - 1] <= x
      decreases |cuts| - i
    {
      i := i + 1;
    }
  }

  /** On an interval the polynomial keeps one sign, up to a slack. */
  ghost predicate OneSign(q: seq<real>, lo: real, hi: real, slack: real) {
    KeepsSign(q, true, lo, hi, slack) || KeepsSign(q, false, lo, hi, slack)
  }

  /** No root lies strictly between. */
  ghost predicate Apart(roots: seq<real>, lo: real, hi: real) {
    forall r :: r in roots ==> r <= lo || hi <= r
  }

  /** Two clear values of opposite signs have a root between them. */
  lemma NoCrossing(p: Polynomial, roots: seq<real>, cuts: seq<real>, slack: real, up: bool, lo: real, hi: real,
                   a: real, b: real)
    requires Charted(p, roots, cuts, slack) && cuts[0] == 0.0 && cuts[|cuts| - 1] == 1.0
    requires 0.0 <= lo <= a <= b <= hi <= 1.0 && Apart(roots, lo, hi)
    requires Signed(up, Evaluate(p, a)) < -(slack + 2.0 * Negligible(p))
    ensures Signed(up, Evaluate(p, b)) <= slack + 2.0 * Negligible(p)
  {
    hide Charted, Evaluate, Abs;
    if slack + 2.0 * Negligible(p) < Signed(up, Evaluate(p, b)) {
      assert 0.0 <= slack && |cuts| >= 2 by { ChartedCuts(p, roots, cuts, slack); }
      var i := FindGap(cuts, a);
      var z := Crossing(p, roots, cuts, slack, up, i, a, b);
      var k :| 0 <= k < |roots| && Abs(roots[k] - z) <= UNIQUENESS;
      assert roots[k] in roots;
      AbsSigned(up, Evaluate(p, a));
      AbsSigned(up, Evaluate(p, b));
      if roots[k] <= lo {
        AbsOf(roots[k] - z);
        AbsOf(a - z);
        CloseValues(p, z, a);
        Triangle(Evaluate(p, a) - Evaluate(p, z), Evaluate(p, z));
      } else {
        AbsOf(roots[k] - z);
        AbsOf(b - z);
        CloseValues(p, z, b);
        Triangle(Evaluate(p, b) - Evaluate(p, z), Evaluate(p, z));
      }
      assert false;
    }
  }

  lemma AbsOf(v: real)
    ensures Abs(v) == if v < 0.0 then -v else v
  {
  }

  lemma ChartedCuts(p: Polynomial, roots: seq<real>, cuts: seq<real>, slack: real)
    requires Charted(p, roots, cuts, slack)
    ensures 0.0 <= slack && |cuts| >= 2
  {
  }

  lemma OneSignBetween(p: Polynomial, roots: seq<real>, cuts: seq<real>, slack: real, lo: real, hi: real)
    requires Charted(p, roots, cuts, slack) && cuts[0] == 0.0 && cuts[|cuts| - 1] == 1.0
    requires 0.0 <= lo <= hi <= 1.0 && Apart(roots, lo, hi)
    ensures OneSign(p, lo, hi, slack + 2.0 * Negligible(p))
  {
    hide Charted, Evaluate, Negligible, Apart;
    var margin := slack + 2.0 * Negligible(p);
    if !KeepsSign(p, true, lo, hi, margin) {
      var a :| lo <= a <= hi && Signed(true, Evaluate(p, a)) < -margin;
      forall b | lo <= b <= hi ensures -margin <= Signed(false, Evaluate(p, b)) {
        if a <= b {
          NoCrossing(p, roots, cuts, slack, true, lo, hi, a, b);
        } else if Signed(false, Evaluate(p, b)) < -margin {
          NoCrossing(p, roots, cuts, slack, false, lo, hi, b, a);
        }
      }
    }
  }

  // ---------- Dropped coefficients ----------

  /** Dropping the last coefficient changes no value by more than its size. */
  lemma {:induction false} WithoutLast(p: seq<real>, x: real)
    requires |p| > 0 && 0.0 <= x <= 1.0
    ensures Abs(Evaluate(p, x) - Evaluate(p[..|p| - 1], x)) <= Abs(p[|p| - 1])
  {
    hide Horner, Abs;
    if |p| == 1 {
      assert p[1..] == [];
      assert Evaluate(p, x) == Horner(0.0, x, p[0]) == p[0] by { HornerOfZero(x, p[0]); }
      assert p[..0] == [];
      assert p[0] - 0.0 == p[0];
    } else {
      var rest := p[1..];
      WithoutLast(rest, x);
      assert p[..|p| - 1][1..] == rest[..|rest| - 1] && p[..|p| - 1][0] == p[0];
      AbsZero();
      HornerNear(Evaluate(rest, x), Evaluate(rest[..|rest| - 1], x), x, p[0], p[0], Abs(p[|p| - 1]), 0.0);
    }
  }

  lemma HornerOfZero(x: real, c: real)
    ensures Horner(0.0, x, c) == c
  {
  }

  lemma AbsZero()
    ensures Abs(0.0) == 0.0
  {
  }

  /** What trimming can change: the tolerance for each dropped coefficient. */
  function Dropped(q: Polynomial): (slack: real)
    ensures 0.0 <= slack
  {
    (|q| - |Trim(q)|) as real * COEFFICIENT_TOLERANCE
  }

  lemma {:induction false} TrimNear(q: Polynomial, x: real)
    requires 0.0 <= x <= 1.0
    ensures Abs(Evaluate(q, x) - Evaluate(Trim(q), x)) <= Dropped(q)
    decreases |q|
  {
    hide Evaluate;
    if |q| > 1 && Abs(q[|q| - 1]) <= COEFFICIENT_TOLERANCE {
      var shorter := q[..|q| - 1];
      WithoutLast(q, x);
      TrimNear(shorter, x);
      assert Dropped(q) == Dropped(shorter) + COEFFICIENT_TOLERANCE;
    }
  }

  lemma KeepsSignNear(q: Polynomial, up: bool, lo: real, hi: real, slack: real)
    requires 0.0 <= lo <= hi <= 1.0 && KeepsSign(Trim(q), up, lo, hi, slack)
    ensures KeepsSign(q, up, lo, hi, slack + Dropped(q))
  {
    hide Evaluate, Trim, Dropped;
    forall x | lo <= x <= hi ensures -(slack + Dropped(q)) <= Signed(up, Evaluate(q, x)) {
      TrimNear(q, x);
      assert -slack <= Signed(up, Evaluate(Trim(q), x));
    }
  }

  // ---------- Every polynomial ----------

  /** How far a polynomial may reach past zero between the roots reported for it. */
  function RootSlack(q: Polynomial): (slack: real)
    ensures 0.0 <= slack
    decreases |q|
  {
    var p := Trim(q);
    Dropped(q) + if |p| <= 2 then 0.0 else RootSlack(Derivative(p)) + 2.0 * Negligible(p)
  }

  /** Between the roots reported for it, a polynomial keeps one sign. */
  ghost predicate Separated(q: Polynomial, slack: real) {
    forall i {:trigger Boundaries(Roots(q))[i]} :: 0 < i < |Boundaries(Roots(q))| ==>
      OneSign(q, Boundaries(Roots(q))[i - 1], Boundaries(Roots(q))[i], slack)
  }

  lemma {:induction false} RootsSeparate(q: Polynomial)
    ensures Separated(q, RootSlack(q))
    decreases |q|
  {
    hide Evaluate, OneSign, Roots, Boundaries, Trim, Dropped, Negligible;
    var p, cuts := Trim(q), Boundaries(Roots(q));
    if |p| > 2 {
      RootsSeparate(Derivative(p));
    }
    forall i {:trigger cuts[i]} | 0 < i < |cuts| ensures OneSign(q, cuts[i - 1], cuts[i], RootSlack(q)) {
      RootGap(q, i);
      if |p| > 2 {
        GapSigns(q, cuts[i - 1], cuts[i]);
      } else {
        ShortSigns(q, cuts[i - 1], cuts[i]);
      }
    }
  }

  /** Neighbouring boundaries have no root between them. */
  lemma RootGap(q: Polynomial, i: nat)
    requires 0 < i < |Boundaries(Roots(q))|
    ensures var cuts := Boundaries(Roots(q));
            0.0 <= cuts[i - 1] <= cuts[i] <= 1.0 && Apart(Roots(q), cuts[i - 1], cuts[i])
  {
    hide Roots, Sort, Insert;
    RootsOrderedAndSpaced(q);
    BoundariesAreCuts(Roots(q));
    SortKeeps(Roots(q));
    var cuts := Boundaries(Roots(q));
    forall r | r in Roots(q) ensures r <= cuts[i - 1] || cuts[i] <= r {
      var k :| 0 <= k < |Sort(Roots(q))| && Sort(Roots(q))[k] == r;
      assert cuts[k + 1] == r;
    }
  }

  lemma SignNear(q: Polynomial, lo: real, hi: real, slack: real)
    requires 0.0 <= lo <= hi <= 1.0 && OneSign(Trim(q), lo, hi, slack)
    ensures OneSign(q, lo, hi, slack + Dropped(q))
  {
    hide KeepsSign, Dropped;
    if KeepsSign(Trim(q), true, lo, hi, slack) {
      KeepsSignNear(q, true, lo, hi, slack);
    } else {
      KeepsSignNear(q, false, lo, hi, slack);
    }
  }

  /** Constants and lines change sign only at the root itself. */
  lemma ShortSigns(q: Polynomial, lo: real, hi: real)
    requires |Trim(q)| <= 2 && 0.0 <= lo <= hi <= 1.0 && Apart(Roots(q), lo, hi)
    ensures OneSign(q, lo, hi, RootSlack(q))
  {
    var p := Trim(q);
    assert OneSign(p, lo, hi, 0.0) by {
      if |p| == 2 {
        LineSigns(q, lo, hi);
      } else {
        ConstantSigns(p, lo, hi);
      }
    }
    SignNear(q, lo, hi, 0.0);
  }

  lemma ConstantSigns(p: Polynomial, lo: real, hi: real)
    requires |p| == 1
    ensures OneSign(p, lo, hi, 0.0)
  {
    assert p[1..] == [];
    assert forall x :: Evaluate(p, x) == p[0];
  }

  lemma LineValue(p: Polynomial, x: real)
    requires |p| == 2 && p[1] != 0.0
    ensures Evaluate(p, x) == p[1] * (x - -p[0] / p[1])
  {
    assert p[1..][1..] == [];
    assert Evaluate(p[1..], x) == p[1];
    assert Evaluate(p, x) == p[1] * x + p[0];
    DivMul(-p[0], p[1]);
    var z := -p[0] / p[1];
    assert p[1] * (x - z) == p[1] * x - z * p[1];
  }

  lemma LineSign(p: Polynomial, x: real, up: bool)
    requires |p| == 2 && p[1] != 0.0
    requires if up == (0.0 < p[1]) then -p[0] / p[1] <= x else x <= -p[0] / p[1]
    ensures 0.0 <= Signed(up, Evaluate(p, x))
  {
    LineValue(p, x);
    var z, b := -p[0] / p[1], p[1];
    hide Evaluate;
    if up == (0.0 < b) {
      MulNonNegative(Abs(b), x - z);
    } else {
      MulNonNegative(Abs(b), z - x);
    }
  }

  lemma LineSigns(q: Polynomial, lo: real, hi: real)
    requires |Trim(q)| == 2 && 0.0 <= lo <= hi <= 1.0 && Apart(Roots(q), lo, hi)
    ensures OneSign(Trim(q), lo, hi, 0.0)
  {
    var p := Trim(q);
    var z := -p[0] / p[1];
    assert Roots(q) == AppendUnique([], z);
    if 0.0 <= z <= 1.0 {
      assert Roots(q) == [z];
      assert z in Roots(q);
    }
    hide Evaluate, Trim, Roots, Apart, Abs;
    assert z <= lo || hi <= z;
    var up := (0.0 < p[1]) == (z <= lo);
    forall x | lo <= x <= hi ensures 0.0 <= Signed(up, Evaluate(p, x)) {
      LineSign(p, x, up);
    }
    assert KeepsSign(p, up, lo, hi, 0.0);
  }

  /** The boundaries of the derivative chart a polynomial. */
  lemma RootsChart(q: Polynomial)
    requires |Trim(q)| > 2 && Separated(Derivative(Trim(q)), RootSlack(Derivative(Trim(q))))
    ensures var p := Trim(q);
            var cuts := Boundaries(Roots(Derivative(p)));
            && Charted(p, Roots(q), cuts, RootSlack(Derivative(p)))
            && cuts[0] == 0.0 && cuts[|cuts| - 1] == 1.0
  {
    hide Evaluate, Trim, Roots, Boundaries, Derivative, RootSlack, Near, ChangesSign, BracketRoot, OneWay, Abs, Separated;
    var p := Trim(q);
    var cuts, slack := Boundaries(Roots(Derivative(p))), RootSlack(Derivative(p));
    RootsCover(q);
    forall i {:trigger cuts[i]} | 0 < i < |cuts| ensures OneWay(p, cuts[i - 1], cuts[i], slack) {
      RootGap(Derivative(p), i);
      SeparatedAt(Derivative(p), slack, i);
      RunsOneWay(p, cuts[i - 1], cuts[i], slack);
    }
  }

  lemma SeparatedAt(q: Polynomial, slack: real, i: nat)
    requires Separated(q, slack) && 0 < i < |Boundaries(Roots(q))|
    ensures OneSign(q, Boundaries(Roots(q))[i - 1], Boundaries(Roots(q))[i], slack)
  {
  }

  lemma RunsOneWay(p: Polynomial, lo: real, hi: real, slack: real)
    requires 0.0 <= lo <= hi <= 1.0 && 0.0 <= slack && OneSign(Derivative(p), lo, hi, slack)
    ensures OneWay(p, lo, hi, slack)
  {
    hide KeepsSign, KeepsDirection, Derivative;
    if KeepsSign(Derivative(p), true, lo, hi, slack) {
      DirectionFromSign(p, true, lo, hi, slack);
    } else {
      DirectionFromSign(p, false, lo, hi, slack);
    }
  }

  lemma GapSigns(q: Polynomial, lo: real, hi: real)
    requires |Trim(q)| > 2 && 0.0 <= lo <= hi <= 1.0 && Apart(Roots(q), lo, hi)
    requires Separated(Derivative(Trim(q)), RootSlack(Derivative(Trim(q))))
    ensures OneSign(q, lo, hi, RootSlack(q))
  {
    var p := Trim(q);
    hide Separated, Trim, Roots, Boundaries, Derivative, Charted, OneSign, Apart, Negligible, Dropped;
    RootsChart(q);
    OneSignBetween(p, Roots(q), Boundaries(Roots(Derivative(p))), RootSlack(Derivative(p)), lo, hi);
    SignNear(q, lo, hi, RootSlack(Derivative(p)) + 2.0 * Negligible(p));
  }

  // ---------- How small the slack is ----------

  lemma SteepnessStep(n: real, steepness: real, rest: real, size: real)
    requires 1.0 <= n && 0.0 <= rest <= size && steepness <= Product(n - 1.0, rest)
    ensures steepness + rest <= Product(n, size)
  {
    MulMonotone(rest, size, n);
    assert n * rest == (n - 1.0) * rest + rest;
  }

  lemma {:induction false} SteepnessWithin(p: seq<real>)
    requires |p| > 0
    ensures Steepness(p) <= Product((|p| - 1) as real, Size(p))
  {
    hide Product;
    var rest := p[1..];
    if |p| > 1 {
      SteepnessWithin(rest);
      SteepnessStep((|p| - 1) as real, Steepness(rest), Size(rest), Size(p));
    } else {
      assert Product(0.0, Size(p)) == 0.0 by { ProductOfZero(Size(p)); }
    }
  }

  lemma ProductOfZero(x: real)
    ensures Product(0.0, x) == 0.0 == Product(x, 0.0)
  {
  }

  lemma ProductOfSum(k: real, x: real, y: real)
    ensures Product(k, x + y) == Product(k, x) + Product(k, y)
  {
  }

  lemma ScaledSize(n: nat, c: real, bound: nat)
    requires n <= bound
    ensures Abs(Scaled(n, c)) <= Product(bound as real, Abs(c))
  {
    ProductWithin(n as real, c, bound as real);
  }

  lemma {:induction false} WeightedSize(p: seq<real>, from: nat, bound: nat)
    requires |p| > 0 ==> from + |p| - 1 <= bound
    ensures Size(Weighted(p, from)) <= Product(bound as real, Size(p))
    decreases |p|
  {
    assert |p| == 0 ==> Weighted(p, from) == [];
    hide Abs, Scaled, Product, Weighted;
    if |p| > 0 {
      WeightedRest(p, from);
      WeightedSize(p[1..], from + 1, bound);
      ScaledSize(from, p[0], bound);
      ProductOfSum(bound as real, Size(p[1..]), Abs(p[0]));
    } else {
      ProductOfZero(bound as real);
    }
  }

  lemma DerivativeSize(p: Polynomial)
    requires |p| > 1
    ensures Size(Derivative(p)) <= Product((|p| - 1) as real, Size(p))
  {
    hide Size, Derivative, Product;
    WeightedIsDerivative(p);
    var w := Weighted(p, 0);
    assert |w| == |p|;
    hide Weighted;
    RestSize(w);
    WeightedSize(p, 0, |p| - 1);
  }

  lemma RestSize(p: seq<real>)
    requires |p| > 0
    ensures Size(p[1..]) <= Size(p)
  {
  }

  lemma {:induction false} PrefixSize(p: seq<real>, n: nat)
    requires n <= |p|
    ensures Size(p[..n]) <= Size(p)
  {
    if n > 0 {
      PrefixSize(p[1..], n - 1);
      assert p[..n][1..] == p[1..][..n - 1];
    }
  }

  /** The part of the slack of a polynomial with n coefficients that grows with its size, in units of twice the
      uniqueness distance times that size. */
  function SlackFactor(n: nat): (factor: real)
    ensures 0.0 <= factor
  {
    if n <= 2 then 0.0 else Product((n - 1) as real, 1.0 + SlackFactor(n - 1))
  }

  /** The part that does not: what dropped coefficients and boundary roots add. */
  function SlackBase(n: nat): (base: real)
    ensures 0.0 <= base
  {
    n as real * COEFFICIENT_TOLERANCE + if n <= 2 then 0.0 else 2.0 * BOUNDARY_TOLERANCE + SlackBase(n - 1)
  }

  lemma {:induction false} SlackGrows(m: nat, n: nat)
    requires m <= n
    ensures SlackFactor(m) <= SlackFactor(n) && SlackBase(m) <= SlackBase(n)
  {
    if m < n {
      SlackGrows(m, n - 1);
      if n > 2 {
        MulMonotone(1.0, (n - 1) as real, 1.0 + SlackFactor(n - 1));
      }
    }
  }

  lemma FactorStep(k: real, f: real, size: real, derivativeSize: real, steepness: real)
    requires 0.0 <= f && steepness <= Product(k, size) && derivativeSize <= Product(k, size)
    ensures steepness + Product(f, derivativeSize) <= Product(Product(k, 1.0 + f), size)
  {
    MulMonotone(derivativeSize, Product(k, size), f);
    assert k * size + f * (k * size) == k * (1.0 + f) * size;
  }

  lemma FactorGrows(f: real, f': real, size: real, size': real)
    requires 0.0 <= f <= f' && 0.0 <= size <= size'
    ensures Product(f, size) <= Product(f', size')
  {
    MulMonotone(f, f', size);
    MulMonotone(size, size', f');
  }

  /** What a trimmed polynomial and its derivative contribute. */
  lemma SlackStep(p: Polynomial)
    requires |p| > 2
    ensures Steepness(p) + Product(SlackFactor(|p| - 1), Size(Derivative(p))) <= Product(SlackFactor(|p|), Size(p))
  {
    hide Size, Steepness, Derivative, Product;
    SteepnessWithin(p);
    DerivativeSize(p);
    FactorStep((|p| - 1) as real, SlackFactor(|p| - 1), Size(p), Size(Derivative(p)), Steepness(p));
  }

  lemma TrimSize(q: Polynomial)
    ensures Size(Trim(q)) <= Size(q) && Dropped(q) <= |q| as real * COEFFICIENT_TOLERANCE
  {
    var p := Trim(q);
    PrefixSize(q, |p|);
    assert q[..|p|] == p;
  }

  lemma {:induction false} SlackWithin(q: Polynomial)
    ensures RootSlack(q) <= SlackBase(|q|) + 2.0 * UNIQUENESS * Product(SlackFactor(|q|), Size(q))
    decreases |q|
  {
    hide Trim, Size, Steepness, Derivative, Product, Dropped, SlackFactor;
    var p := Trim(q);
    TrimSize(q);
    SlackGrows(|p|, |q|);
    if |p| > 2 {
      var d := Derivative(p);
      SlackWithin(d);
      SlackStep(p);
      FactorGrows(SlackFactor(|p|), SlackFactor(|q|), Size(p), Size(q));
      SlackGrows(|p| - 1, |q| - 1);
      assert Negligible(p) == BOUNDARY_TOLERANCE + UNIQUENESS * Steepness(p) by { NegligibleIs(p); }
    } else {
      FactorGrows(0.0, SlackFactor(|q|), 0.0, Size(q));
      ProductOfZero(0.0);
    }
  }

  lemma NegligibleIs(p: seq<real>)
    ensures Negligible(p) == BOUNDARY_TOLERANCE + UNIQUENESS * Steepness(p)
  {
  }

  lemma FactorsUpToFive()
    ensures SlackFactor(5) == 40.0 && SlackBase(5) <= 0.00000001
  {
    assert SlackFactor(3) == 2.0;
    assert SlackFactor(4) == 9.0;
    assert SlackBase(2) == 2.0 * COEFFICIENT_TOLERANCE;
    assert SlackBase(3) <= 0.000000003;
    assert SlackBase(4) <= 0.0000000055;
  }

  /** A hundred-millionth, and a millionth of the size of the coefficients. */
  function Slack(q: Polynomial): real {
    0.00000001 + 0.0000008 * Size(q)
  }

  /** The derivatives of a quintic leave no more than that. */
  lemma QuinticSlack(q: Polynomial)
    requires |q| <= 5
    ensures RootSlack(q) <= Slack(q)
  {
    hide RootSlack, Size, SlackFactor, SlackBase;
    SlackWithin(q);
    SlackGrows(|q|, 5);
    FactorsUpToFive();
    FactorGrows(SlackFactor(|q|), 40.0, Size(q), Size(q));
  }

  // ---------- Between the candidates of a segment ----------

  lemma CutIsCandidate(derivative: Polynomial, i: nat)
    requires i < |Boundaries(Roots(derivative))|
    ensures Boundaries(Roots(derivative))[i] in Candidates(derivative)
  {
    hide Roots, Sort;
    var roots := Roots(derivative);
    SortKeeps(roots);
    if 0 < i <= |Sort(roots)| {
      assert Boundaries(roots)[i] == Sort(roots)[i - 1];
      assert Sort(roots)[i - 1] in roots;
      assert roots <= Candidates(derivative)[2..];
    } else if i == 0 {
      assert Candidates(derivative)[0] == 0.0;
    } else {
      assert Candidates(derivative)[1] == 1.0;
    }
  }

  /** Everywhere on [0, 1] a polynomial lies between two of the values at its candidates, up to the slack of the
      roots of its derivative. */
  lemma BetweenCandidates(p: Polynomial, u: real) returns (low: real, high: real)
    requires 0.0 <= u <= 1.0
    ensures low in Candidates(Derivative(p)) && high in Candidates(Derivative(p))
    ensures Evaluate(p, low) - RootSlack(Derivative(p)) <= Evaluate(p, u)
    ensures Evaluate(p, u) <= Evaluate(p, high) + RootSlack(Derivative(p))
  {
    var d := Derivative(p);
    var cuts, slack := Boundaries(Roots(d)), RootSlack(d);
    hide Evaluate, Roots, Derivative, RootSlack, Candidates, Separated, OneSign, OneWay, Sort;
    assert cuts[0] == 0.0 && cuts[|cuts| - 1] == 1.0;
    RootsSeparate(d);
    var i := FindGap(cuts, u);
    hide Boundaries;
    RootGap(d, i);
    CutIsCandidate(d, i - 1);
    CutIsCandidate(d, i);
    SeparatedAt(d, slack, i);
    RunsOneWay(p, cuts[i - 1], cuts[i], slack);
    low, high := Direction(p, cuts[i - 1], cuts[i], u, slack);
  }

  lemma Direction(p: Polynomial, lo: real, hi: real, u: real, slack: real) returns (low: real, high: real)
    requires lo <= u <= hi && OneWay(p, lo, hi, slack)
    ensures (low == lo && high == hi) || (low == hi && high == lo)
    ensures Evaluate(p, low) - slack <= Evaluate(p, u) <= Evaluate(p, high) + slack
  {
    hide Evaluate;
    if KeepsDirection(p, true, lo, hi, slack) {
      low, high := lo, hi;
      assert -slack <= Signed(true, Evaluate(p, u) - Evaluate(p, lo));
      assert -slack <= Signed(true, Evaluate(p, hi) - Evaluate(p, u));
    } else {
      low, high := hi, lo;
      assert -slack <= Signed(false, Evaluate(p, u) - Evaluate(p, lo));
      assert -slack <= Signed(false, Evaluate(p, hi) - Evaluate(p, u));
    }
  }

  lemma CandidateIndex(candidates: seq<real>, x: real) returns (k: nat)
    requires x in candidates
    ensures k < |candidates| && candidates[k] == x
  {
    k :| 0 <= k < |candidates| && candidates[k] == x;
  }

  /** At a moment of a segment, every limit of a joint is kept up to the tolerance and the slack. */
  ghost predicate Bounded(c: Coefficients, joint: Joint, recovery: Recovery, duration: real, derivatives: bool, u: real)
    requires 0.0 < duration
  {
    && PositionBounded(c, joint, recovery, u)
    && (derivatives ==> SpeedBounded(c, joint, duration, u) && AccelerationBounded(c, joint, duration, u))
  }

  ghost predicate PositionBounded(c: Coefficients, joint: Joint, recovery: Recovery, u: real) {
    var slack := LIMIT_TOLERANCE + Slack(Derivative(c));
    AllowedLower(c, joint, recovery) - slack <= Position(c, u) <= AllowedUpper(c, joint, recovery) + slack
  }

  ghost predicate SpeedBounded(c: Coefficients, joint: Joint, duration: real, u: real)
    requires 0.0 < duration
  {
    var slack := LIMIT_TOLERANCE + Ratio(Slack(Derivative(Derivative(c))), duration);
    && Abs(Velocity(c, u, duration)) <= joint.velocityLimit + slack
    && (0.0 < joint.pvVelocityLimit ==> Abs(Velocity(c, u, duration)) <= joint.pvVelocityLimit + slack)
  }

  ghost predicate AccelerationBounded(c: Coefficients, joint: Joint, duration: real, u: real)
    requires 0.0 < duration
  {
    Abs(Acceleration(c, u, duration))
    <= joint.accelerationLimit + LIMIT_TOLERANCE
       + Ratio(Slack(Derivative(Derivative(Derivative(c)))), Product(duration, duration))
  }

  lemma PositionsBound(c: Coefficients, joint: Joint, recovery: Recovery, u: real)
    requires 0.0 <= u <= 1.0 && PositionsWithin(c, joint, recovery, Candidates(Derivative(c)))
    ensures PositionBounded(c, joint, recovery, u)
  {
    hide Evaluate, Derivative, RootSlack, Candidates, AllowedLower, AllowedUpper, Slack;
    var low, high := BetweenCandidates(c, u);
    var i := CandidateIndex(Candidates(Derivative(c)), low);
    var k := CandidateIndex(Candidates(Derivative(c)), high);
    assert PositionAllowed(c, joint, recovery, Candidates(Derivative(c))[i]);
    assert PositionAllowed(c, joint, recovery, Candidates(Derivative(c))[k]);
    QuinticSlack(Derivative(c));
  }

  lemma RatioBetween(low: real, v: real, high: real, slack: real, larger: real, d: real, bound: real)
    requires 0.0 < d && low - slack <= v <= high + slack && slack <= larger
    requires Abs(Ratio(low, d)) <= bound && Abs(Ratio(high, d)) <= bound
    ensures Abs(Ratio(v, d)) <= bound + Ratio(larger, d)
  {
    RatioMonotone(low - larger, v, d);
    RatioMonotone(v, high + larger, d);
    assert Ratio(low - larger, d) == Ratio(low, d) - Ratio(larger, d);
    assert Ratio(high + larger, d) == Ratio(high, d) + Ratio(larger, d);
  }

  lemma SpeedsBound(c: Coefficients, joint: Joint, duration: real, u: real)
    requires 0.0 < duration && 0.0 <= u <= 1.0
    requires VelocitiesWithin(c, joint, duration, Candidates(Derivative(Derivative(c))))
    ensures SpeedBounded(c, joint, duration, u)
  {
    hide Evaluate, Derivative, RootSlack, Candidates, Ratio, Abs, Slack;
    var v, d, candidates := Derivative(c), Derivative(Derivative(c)), Candidates(Derivative(Derivative(c)));
    var low, high := BetweenCandidates(v, u);
    var i := CandidateIndex(candidates, low);
    var k := CandidateIndex(candidates, high);
    assert VelocityAllowed(c, joint, duration, candidates[i]) && VelocityAllowed(c, joint, duration, candidates[k]);
    QuinticSlack(d);
    RatioBetween(Evaluate(v, low), Evaluate(v, u), Evaluate(v, high), RootSlack(d), Slack(d), duration,
                 joint.velocityLimit + LIMIT_TOLERANCE);
    if 0.0 < joint.pvVelocityLimit {
      RatioBetween(Evaluate(v, low), Evaluate(v, u), Evaluate(v, high), RootSlack(d), Slack(d), duration,
                   joint.pvVelocityLimit + LIMIT_TOLERANCE);
    }
  }

  lemma AccelerationsBound(c: Coefficients, joint: Joint, duration: real, u: real)
    requires 0.0 < duration && 0.0 <= u <= 1.0
    requires AccelerationsWithin(c, joint, duration, Candidates(Derivative(Derivative(Derivative(c)))))
    ensures AccelerationBounded(c, joint, duration, u)
  {
    hide Evaluate, Derivative, RootSlack, Candidates, Ratio, Abs, Product, Slack;
    var a := Derivative(Derivative(c));
    var d := Derivative(a);
    var candidates := Candidates(d);
    var low, high := BetweenCandidates(a, u);
    var i := CandidateIndex(candidates, low);
    var k := CandidateIndex(candidates, high);
    assert AccelerationAllowed(c, joint, duration, candidates[i]);
    assert AccelerationAllowed(c, joint, duration, candidates[k]);
    QuinticSlack(d);
    RatioBetween(Evaluate(a, low), Evaluate(a, u), Evaluate(a, high), RootSlack(d), Slack(d),
                 Product(duration, duration), joint.accelerationLimit + LIMIT_TOLERANCE);
  }

  /** A segment that passes the check at its candidates keeps its limits at every moment. */
  lemma PassedSegmentBounded(c: Coefficients, joint: Joint, recovery: Recovery, duration: real, derivatives: bool,
                             u: real)
    requires 0.0 < duration && 0.0 <= u <= 1.0 && JointWithin(c, joint, recovery, duration, derivatives)
    ensures Bounded(c, joint, recovery, duration, derivatives, u)
  {
    hide PositionsWithin, VelocitiesWithin, AccelerationsWithin, Candidates, Derivative, PositionBounded, SpeedBounded,
      AccelerationBounded;
    PositionsBound(c, joint, recovery, u);
    if derivatives {
      SpeedsBound(c, joint, duration, u);
      AccelerationsBound(c, joint, duration, u);
    }
  }
}
