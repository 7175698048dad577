/** What the roots found on [0, 1] are worth. */
module PolynomialRootsProperties {
  import opened RealArithmetic
  import opened QuinticProgress
  import opened PolynomialRoots

  // ---------- The derivative is the slope ----------

  /** The slope of the chord between x and y, defined without dividing. */
  function Slope(p: seq<real>, x: real, y: real): real {
    if |p| == 0 then 0.0 else Horner(Slope(p[1..], x, y), x, Evaluate(p[1..], y))
  }

  lemma ChordStep(q: real, r: real, s: real, x: real, y: real, c: real)
    requires q - r == s * (y - x)
    ensures Horner(q, y, c) - Horner(r, x, c) == Horner(s, x, q) * (y - x)
  {
    var d := y - x;
    assert r == q - s * d;
    assert r * x == q * x - s * d * x;
  }

  lemma {:induction false} SlopeIsChord(p: seq<real>, x: real, y: real)
    ensures Evaluate(p, y) - Evaluate(p, x) == Slope(p, x, y) * (y - x)
  {
    hide Horner;
    if |p| > 0 {
      SlopeIsChord(p[1..], x, y);
      ChordStep(Evaluate(p[1..], y), Evaluate(p[1..], x), Slope(p[1..], x, y), x, y, p[0]);
    }
  }

  /** Every coefficient times its index, counted from a given one. */
  function Weighted(p: seq<real>, from: nat): seq<real> {
    seq(|p|, i requires 0 <= i < |p| => Scaled(from + i, p[i]))
  }

  lemma WeightedRest(p: seq<real>, from: nat)
    requires |p| > 0
    ensures Weighted(p, from)[1..] == Weighted(p[1..], from + 1) && Weighted(p, from)[0] == Scaled(from, p[0])
  {
    hide Scaled;
  }

  lemma ScaledNext(n: nat, c: real)
    ensures Scaled(n + 1, c) == Scaled(n, c) + c && Scaled(0, c) == 0.0
  {
  }

  lemma {:induction false} WeightedShift(p: seq<real>, from: nat, x: real)
    ensures Evaluate(Weighted(p, from + 1), x) == Evaluate(Weighted(p, from), x) + Evaluate(p, x)
  {
    hide Scaled, Horner;
    if |p| > 0 {
      WeightedRest(p, from);
      WeightedRest(p, from + 1);
      WeightedShift(p[1..], from + 1, x);
      ScaledNext(from, p[0]);
      HornerSum(Evaluate(Weighted(p[1..], from + 1), x), Evaluate(p[1..], x), x, Scaled(from, p[0]), p[0]);
    }
  }

  lemma HornerSum(a: real, b: real, x: real, c: real, d: real)
    ensures Horner(a + b, x, c + d) == Horner(a, x, c) + Horner(b, x, d)
  {
  }

  lemma {:induction false} WeightedIsSlope(p: seq<real>, x: real)
    ensures Evaluate(Weighted(p, 0), x) == Slope(p, x, x) * x
    ensures |p| > 0 ==> Evaluate(Weighted(p, 0)[1..], x) == Slope(p, x, x)
  {
    hide Scaled;
    if |p| > 0 {
      WeightedIsSlope(p[1..], x);
      WeightedShift(p[1..], 0, x);
      WeightedRest(p, 0);
      ScaledNext(0, p[0]);
    }
  }

  lemma WeightedIsDerivative(p: Polynomial)
    requires |p| > 1
    ensures Derivative(p) == Weighted(p, 0)[1..]
  {
    hide Scaled;
  }

  /** At every point, the derivative evaluates to the slope of the curve. */
  lemma DerivativeIsSlope(p: Polynomial, x: real)
    ensures Evaluate(Derivative(p), x) == Slope(p, x, x)
  {
    hide Scaled, Weighted;
    if |p| == 1 {
      assert p[1..] == [] && [0.0][1..] == [];
      assert Evaluate([], x) == 0.0 && Slope([], x, x) == 0.0;
    } else {
      WeightedIsSlope(p, x);
      WeightedIsDerivative(p);
    }
  }

  // ---------- Spacing ----------

  /** In [0, 1] and pairwise further apart than the uniqueness distance. */
  ghost predicate Spaced(roots: seq<real>) {
    && (forall i :: 0 <= i < |roots| ==> 0.0 <= roots[i] <= 1.0)
    && (forall i, j :: 0 <= i < j < |roots| ==> Abs(roots[i] - roots[j]) > UNIQUENESS)
  }

  ghost predicate AwayFrom(x: real, roots: seq<real>) {
    forall y :: y in roots ==> Abs(x - y) > UNIQUENESS
  }

  lemma AppendUniqueSpaced(roots: seq<real>, value: real)
    requires Spaced(roots)
    ensures Spaced(AppendUnique(roots, value))
  {
  }

  lemma {:induction false} BoundaryRootsSpaced(p: Polynomial, boundaries: seq<real>, n: nat)
    requires n <= |boundaries|
    ensures Spaced(BoundaryRoots(p, boundaries, n))
  {
    hide Spaced, AppendUnique, Evaluate;
    if n > 0 {
      BoundaryRootsSpaced(p, boundaries, n - 1);
      AppendUniqueSpaced(BoundaryRoots(p, boundaries, n - 1), boundaries[n - 1]);
    } else {
      EmptySpaced();
    }
  }

  lemma EmptySpaced()
    ensures Spaced([])
  {
  }

  lemma {:induction false} BracketRootsSpaced(p: Polynomial, boundaries: seq<real>, n: nat)
    requires 1 <= n <= |boundaries|
    ensures Spaced(BracketRoots(p, boundaries, n))
  {
    hide Spaced, AppendUnique, Evaluate;
    if n > 1 {
      BracketRootsSpaced(p, boundaries, n - 1);
      AppendUniqueSpaced(BracketRoots(p, boundaries, n - 1), BracketRoot(p, boundaries[n - 2], boundaries[n - 1]));
    } else {
      BoundaryRootsSpaced(p, boundaries, |boundaries|);
    }
  }

  lemma SpacedCons(x: real, roots: seq<real>)
    requires 0.0 <= x <= 1.0 && Spaced(roots) && AwayFrom(x, roots)
    ensures Spaced([x] + roots)
  {
    forall i, j | 0 <= i < j < |roots| + 1 ensures Abs(([x] + roots)[i] - ([x] + roots)[j]) > UNIQUENESS {
      if i == 0 {
        assert roots[j - 1] in roots;
      } else {
        assert Abs(roots[i - 1] - roots[j - 1]) > UNIQUENESS;
      }
    }
  }

  lemma SpacedRest(roots: seq<real>)
    requires |roots| > 0 && Spaced(roots)
    ensures 0.0 <= roots[0] <= 1.0 && Spaced(roots[1..]) && AwayFrom(roots[0], roots[1..])
  {
  }

  lemma AwayFromInsert(x: real, s: seq<real>)
    requires |s| > 0 && AwayFrom(x, s) && AwayFrom(s[0], s[1..])
    ensures AwayFrom(x, s[1..]) && AwayFrom(s[0], Insert(x, s[1..]))
  {
    hide Abs;
    InsertElements(x, s[1..]);
    AbsSymmetric(x, s[0]);
    assert s[0] in s && forall y :: y in s[1..] ==> y in s;
  }

  lemma {:induction false} InsertSpaced(x: real, s: seq<real>)
    requires 0.0 <= x <= 1.0 && Spaced(s) && AwayFrom(x, s)
    ensures Spaced(Insert(x, s))
  {
    hide Spaced, Abs, AwayFrom;
    if |s| == 0 || x <= s[0] {
      SpacedCons(x, s);
    } else {
      SpacedRest(s);
      AwayFromInsert(x, s);
      InsertSpaced(x, s[1..]);
      SpacedCons(s[0], Insert(x, s[1..]));
    }
  }

  lemma AbsSymmetric(x: real, y: real)
    ensures Abs(x - y) == Abs(y - x)
  {
  }

  lemma {:induction false} SortSpaced(s: seq<real>)
    requires Spaced(s)
    ensures Spaced(Sort(s))
  {
    hide Spaced, Insert;
    if |s| > 0 {
      SpacedRest(s);
      SortSpaced(s[1..]);
      SortKeeps(s[1..]);
      InsertSpaced(s[0], Sort(s[1..]));
    }
  }

  /** The roots come out in order, inside [0, 1], with gaps above the uniqueness distance. */
  lemma RootsOrderedAndSpaced(coefficients: Polynomial)
    ensures Ascending(Roots(coefficients)) && Spaced(Roots(coefficients))
    ensures forall i :: 0 < i < |Roots(coefficients)| ==>
              Roots(coefficients)[i] > Roots(coefficients)[i - 1] + UNIQUENESS
  {
    hide AppendUnique, Sort, BracketRoots, Evaluate;
    var p := Trim(coefficients);
    if |p| == 1 {
    } else if |p| == 2 {
      AppendUniqueSpaced([], -p[0] / p[1]);
      AppendUniqueLength([], -p[0] / p[1]);
    } else {
      var boundaries := Boundaries(Roots(Derivative(p)));
      BracketRootsSpaced(p, boundaries, |boundaries|);
      SortSpaced(BracketRoots(p, boundaries, |boundaries|));
      SortSorts(BracketRoots(p, boundaries, |boundaries|));
    }
  }

  lemma AppendUniqueLength(roots: seq<real>, value: real)
    ensures |AppendUnique(roots, value)| <= |roots| + 1
  {
  }

  // ---------- Bisection ----------

  /** A closed bracket on a root, or an open one of known width whose ends have opposite signs. */
  ghost predicate Narrowed(p: Polynomial, lo: real, hi: real, width: real) {
    || (lo == hi && Abs(Evaluate(p, lo)) <= ROOT_TOLERANCE)
    || (lo < hi && hi - lo == width && OppositeSigns(p, lo, hi))
  }

  /** The width of a bracket after n halvings. */
  function WidthAfter(lower: real, upper: real, n: nat): real {
    (upper - lower) * HalfPower(n)
  }

  lemma HalfOfBracket(lower: real, upper: real, n: nat)
    ensures WidthAfter(lower, upper, 0) == upper - lower
    ensures n > 0 ==> WidthAfter((lower + upper) * 0.5, upper, n - 1) == WidthAfter(lower, upper, n)
    ensures n > 0 ==> WidthAfter(lower, (lower + upper) * 0.5, n - 1) == WidthAfter(lower, upper, n)
  {
    if n > 0 {
      var d, h := upper - lower, HalfPower(n - 1);
      assert 0.5 * d * h == d * (0.5 * h);
    }
  }

  lemma {:induction false} BisectNarrows(p: Polynomial, lower: real, upper: real, n: nat)
    requires lower < upper && OppositeSigns(p, lower, upper)
    ensures var (lo, hi) := Bisect(p, lower, upper, n);
            lower <= lo <= hi <= upper && Narrowed(p, lo, hi, WidthAfter(lower, upper, n))
    decreases n
  {
    hide Evaluate, WidthAfter, HalfPower;
    var middle := (lower + upper) * 0.5;
    HalfOfBracket(lower, upper, n);
    if n == 0 || Abs(Evaluate(p, middle)) <= ROOT_TOLERANCE {
    } else if (Evaluate(p, lower) < 0.0) == (Evaluate(p, middle) < 0.0) {
      BisectNarrows(p, middle, upper, n - 1);
    } else {
      BisectNarrows(p, lower, middle, n - 1);
    }
  }

  // ---------- Every root is justified, every candidate is represented ----------

  ghost predicate Between(p: Polynomial, lo: real, root: real, hi: real) {
    && 0.0 <= lo < hi <= 1.0 && hi - lo <= HalfPower(BISECTIONS)
    && OppositeSigns(p, lo, hi) && root == (lo + hi) * 0.5
  }

  ghost predicate ExactRootNear(p: Polynomial, x: real, root: real) {
    Evaluate(p, x) == 0.0 && Abs(x - root) <= COEFFICIENT_TOLERANCE
  }

  /** The polynomial is negligible at the root, or changes sign across a bracket of width at
      most two to the power -80 around it, or is exactly zero next to it. */
  ghost predicate Justified(p: Polynomial, root: real) {
    || Abs(Evaluate(p, root)) <= BOUNDARY_TOLERANCE
    || (exists lo, hi :: Between(p, lo, root, hi))
    || (exists x :: ExactRootNear(p, x, root))
  }

  ghost predicate AllJustified(p: Polynomial, roots: seq<real>) {
    forall r :: r in roots ==> Justified(p, r)
  }

  /** Cut points of [0, 1], in order. */
  ghost predicate Cuts(boundaries: seq<real>) {
    Ascending(boundaries) && forall i :: 0 <= i < |boundaries| ==> 0.0 <= boundaries[i] <= 1.0
  }

  lemma AppendUniqueElements(roots: seq<real>, value: real)
    ensures forall r :: r in AppendUnique(roots, value) ==> r in roots || r == Clamp(value, 0.0, 1.0)
    ensures roots <= AppendUnique(roots, value)
    ensures 0.0 <= value <= 1.0 ==> Near(AppendUnique(roots, value), value)
  {
    if 0.0 <= value <= 1.0 && !Near(roots, value) {
      assert AppendUnique(roots, value)[|roots|] == value;
    }
  }

  lemma NearGrows(roots: seq<real>, more: seq<real>, value: real)
    requires roots <= more && Near(roots, value)
    ensures Near(more, value)
  {
    var i :| 0 <= i < |roots| && Abs(roots[i] - value) <= UNIQUENESS;
    assert more[i] == roots[i];
  }

  lemma {:induction false} BoundaryRootsJustified(p: Polynomial, boundaries: seq<real>, n: nat)
    requires n <= |boundaries| && Cuts(boundaries)
    ensures AllJustified(p, BoundaryRoots(p, boundaries, n))
    ensures forall i :: 0 <= i < n && Abs(Evaluate(p, boundaries[i])) <= BOUNDARY_TOLERANCE ==>
              Near(BoundaryRoots(p, boundaries, n), boundaries[i])
  {
    hide Evaluate, AppendUnique, Near, Abs;
    if n > 0 {
      var roots, point := BoundaryRoots(p, boundaries, n - 1), boundaries[n - 1];
      BoundaryRootsJustified(p, boundaries, n - 1);
      AppendUniqueElements(roots, point);
      forall i | 0 <= i < n - 1 && Near(roots, boundaries[i])
        ensures Near(AppendUnique(roots, point), boundaries[i])
      {
        NearGrows(roots, AppendUnique(roots, point), boundaries[i]);
      }
    }
  }

  lemma BracketRootJustified(p: Polynomial, lower: real, upper: real)
    requires 0.0 <= lower <= upper <= 1.0 && OppositeSigns(p, lower, upper)
    ensures 0.0 <= BracketRoot(p, lower, upper) <= 1.0
    ensures Abs(Evaluate(p, BracketRoot(p, lower, upper))) <= ROOT_TOLERANCE
            || exists lo, hi :: Between(p, lo, BracketRoot(p, lower, upper), hi)
    ensures Justified(p, BracketRoot(p, lower, upper))
  {
    hide Evaluate, Bisect, HalfPower, OppositeSigns, WidthAfter;
    assert lower < upper by { SignsDiffer(p, lower, upper); }
    BisectNarrows(p, lower, upper, BISECTIONS);
    var (lo, hi) := Bisect(p, lower, upper, BISECTIONS);
    WidthShrinks(lower, upper, BISECTIONS);
    if lo < hi {
      assert Between(p, lo, BracketRoot(p, lower, upper), hi);
    } else {
      assert BracketRoot(p, lower, upper) == lo;
    }
  }

  lemma SignsDiffer(p: Polynomial, lower: real, upper: real)
    requires OppositeSigns(p, lower, upper)
    ensures lower != upper
  {
  }

  lemma WidthShrinks(lower: real, upper: real, n: nat)
    requires upper - lower <= 1.0
    ensures WidthAfter(lower, upper, n) <= HalfPower(n)
  {
    hide HalfPower;
    var d, k := upper - lower, HalfPower(n);
    MulMonotone(d, 1.0, k);
    assert d * k <= k;
  }

  /** Across the gap that ends at boundary i the polynomial changes sign. */
  ghost predicate ChangesSign(p: Polynomial, boundaries: seq<real>, i: nat) {
    0 < i < |boundaries| && OppositeSigns(p, boundaries[i - 1], boundaries[i])
  }

  lemma {:induction false} BracketRootsJustified(p: Polynomial, boundaries: seq<real>, n: nat)
    requires 1 <= n <= |boundaries| && Cuts(boundaries)
    ensures AllJustified(p, BracketRoots(p, boundaries, n))
    ensures BoundaryRoots(p, boundaries, |boundaries|) <= BracketRoots(p, boundaries, n)
    ensures forall i :: 0 < i < n && ChangesSign(p, boundaries, i) ==>
              Near(BracketRoots(p, boundaries, n), BracketRoot(p, boundaries[i - 1], boundaries[i]))
  {
    hide Evaluate, AppendUnique, Near, Abs, OppositeSigns, BracketRoot, Justified;
    if n == 1 {
      BoundaryRootsJustified(p, boundaries, |boundaries|);
    } else {
      var roots, lower, upper := BracketRoots(p, boundaries, n - 1), boundaries[n - 2], boundaries[n - 1];
      BracketRootsJustified(p, boundaries, n - 1);
      if OppositeSigns(p, lower, upper) {
        var root := BracketRoot(p, lower, upper);
        BracketRootJustified(p, lower, upper);
        AppendUniqueElements(roots, root);
        forall i | 0 < i < n - 1 && ChangesSign(p, boundaries, i)
          ensures Near(AppendUnique(roots, root), BracketRoot(p, boundaries[i - 1], boundaries[i]))
        {
          NearGrows(roots, AppendUnique(roots, root), BracketRoot(p, boundaries[i - 1], boundaries[i]));
        }
      }
    }
  }

  lemma BoundariesAreCuts(critical: seq<real>)
    requires Spaced(critical)
    ensures Cuts(Boundaries(critical))
  {
    hide Sort, Insert;
    SortSpaced(critical);
    SortSorts(critical);
  }

  lemma LinearRoot(p: Polynomial, root: real)
    requires |p| == 2 && p[1] != 0.0 && root in AppendUnique([], -p[0] / p[1])
    ensures Justified(p, root)
  {
    var x := -p[0] / p[1];
    DivMul(-p[0], p[1]);
    assert p[1..][1..] == [];
    assert Evaluate(p, x) == (Evaluate(p[1..], x)) * x + p[0] == p[1] * x + p[0];
    assert ExactRootNear(p, x, root);
  }

  lemma SortKeeps(s: seq<real>)
    ensures forall r :: r in s <==> r in Sort(s)
  {
    SortSorts(s);
    assert forall r :: r in s <==> r in multiset(s);
    assert forall r :: r in Sort(s) <==> r in multiset(Sort(s));
  }

  /** Nothing is reported without reason: every root found is a root, or next to one. */
  lemma RootsJustified(coefficients: Polynomial)
    ensures AllJustified(Trim(coefficients), Roots(coefficients))
  {
    hide Evaluate, AppendUnique, BracketRoots, Sort, Justified;
    var p := Trim(coefficients);
    if |p| == 2 {
      forall r | r in Roots(coefficients) ensures Justified(p, r) {
        LinearRoot(p, r);
      }
    } else if |p| > 2 {
      var boundaries := Boundaries(Roots(Derivative(p)));
      RootsOrderedAndSpaced(Derivative(p));
      BoundariesAreCuts(Roots(Derivative(p)));
      BracketRootsJustified(p, boundaries, |boundaries|);
      SortKeeps(BracketRoots(p, boundaries, |boundaries|));
    }
  }

  /** Nothing is missed: every cut point where the polynomial is negligible, and the bisected
      point of every gap where it changes sign, has a reported root within the uniqueness distance. */
  lemma RootsCover(coefficients: Polynomial)
    requires |Trim(coefficients)| > 2
    ensures var p := Trim(coefficients);
            var cuts := Boundaries(Roots(Derivative(p)));
            && Cuts(cuts) && cuts[0] == 0.0 && cuts[|cuts| - 1] == 1.0
            && (forall i :: 0 <= i < |cuts| && Abs(Evaluate(p, cuts[i])) <= BOUNDARY_TOLERANCE ==>
                  Near(Roots(coefficients), cuts[i]))
            && (forall i :: 0 < i < |cuts| && ChangesSign(p, cuts, i) ==>
                  Near(Roots(coefficients), BracketRoot(p, cuts[i - 1], cuts[i])))
  {
    hide Evaluate, AppendUnique, BracketRoots, BoundaryRoots, Sort, Near, BracketRoot, Abs, ChangesSign, Cuts, Spaced;
    var p := Trim(coefficients);
    var cuts := Boundaries(Roots(Derivative(p)));
    var unsorted := BracketRoots(p, cuts, |cuts|);
    RootsOrderedAndSpaced(Derivative(p));
    BoundariesAreCuts(Roots(Derivative(p)));
    BoundaryRootsJustified(p, cuts, |cuts|);
    BracketRootsJustified(p, cuts, |cuts|);
    forall value | Near(unsorted, value) ensures Near(Roots(coefficients), value) {
      NearSorted(unsorted, value);
    }
    forall i | 0 <= i < |cuts| && Near(BoundaryRoots(p, cuts, |cuts|), cuts[i]) ensures Near(unsorted, cuts[i]) {
      NearGrows(BoundaryRoots(p, cuts, |cuts|), unsorted, cuts[i]);
    }
  }

  lemma NearSorted(roots: seq<real>, value: real)
    requires Near(roots, value)
    ensures Near(Sort(roots), value)
  {
    hide Sort;
    var i :| 0 <= i < |roots| && Abs(roots[i] - value) <= UNIQUENESS;
    SortKeeps(roots);
    assert roots[i] in Sort(roots);
  }
}
