/** Root finding on [0, 1] for the polynomials of trajectory segments
    (runtime/src/runtime_trajectory.cpp). */
module PolynomialRoots {
  import opened RealArithmetic

  const COEFFICIENT_TOLERANCE: real := 0.0000000001
  const UNIQUENESS: real := 0.00000001
  const BOUNDARY_TOLERANCE: real := 0.000000001
  const ROOT_TOLERANCE: real := 0.0000000000001
  const BISECTIONS: nat := 80

  /** Coefficients, the constant one first. */
  type Polynomial = p: seq<real> | |p| >= 1 witness [0.0]

  /** One step of Horner's rule. */
  function Horner(value: real, x: real, c: real): real {
    value * x + c
  }

  function Evaluate(p: seq<real>, x: real): real {
    if |p| == 0 then 0.0 else Horner(Evaluate(p[1..], x), x, p[0])
  }

  function Scaled(n: nat, c: real): real {
    n as real * c
  }

  function Derivative(p: Polynomial): (d: Polynomial)
    ensures |p| > 1 ==> |d| == |p| - 1
  {
    if |p| == 1 then [0.0]
    else seq(|p| - 1, i requires 0 <= i < |p| - 1 => Scaled(i + 1, p[i + 1]))
  }

  method HornerEvaluate(p: seq<real>, x: real) returns (result: real)
    ensures result == Evaluate(p, x)
  {
    result := 0.0;
    var i := |p|;
    while i > 0
      invariant 0 <= i <= |p|
      invariant result == Evaluate(p[i..], x)
    {
      i := i - 1;
      assert p[i..][1..] == p[i + 1..];
      result := result * x + p[i];
    }
  }

  /** Trailing coefficients too small to matter are dropped. */
  function Trim(p: Polynomial): (t: Polynomial)
    ensures t <= p && (|t| == 1 || COEFFICIENT_TOLERANCE < Abs(t[|t| - 1]))
    decreases |p|
  {
    if |p| > 1 && Abs(p[|p| - 1]) <= COEFFICIENT_TOLERANCE then Trim(p[..|p| - 1]) else p
  }

  predicate Near(roots: seq<real>, value: real) {
    exists i :: 0 <= i < |roots| && Abs(roots[i] - value) <= UNIQUENESS
  }

  /** Add a root unless it lies outside the interval or close to one already there. */
  function AppendUnique(roots: seq<real>, value: real): seq<real> {
    if value < -COEFFICIENT_TOLERANCE || 1.0 + COEFFICIENT_TOLERANCE < value then roots
    else
      var root := Clamp(value, 0.0, 1.0);
      if Near(roots, root) then roots else roots + [root]
  }

  /** The bracket after n halvings of one whose ends have opposite signs; closed on a point
      as soon as its middle is a root. */
  function Bisect(p: Polynomial, lower: real, upper: real, n: nat): (real, real)
    decreases n
  {
    var middle := (lower + upper) * 0.5;
    if n == 0 then (lower, upper)
    else if Abs(Evaluate(p, middle)) <= ROOT_TOLERANCE then (middle, middle)
    else if (Evaluate(p, lower) < 0.0) == (Evaluate(p, middle) < 0.0) then Bisect(p, middle, upper, n - 1)
    else Bisect(p, lower, middle, n - 1)
  }

  predicate OppositeSigns(p: Polynomial, lower: real, upper: real) {
    && Evaluate(p, lower) != 0.0 && Evaluate(p, upper) != 0.0
    && (Evaluate(p, lower) < 0.0) != (Evaluate(p, upper) < 0.0)
  }

  function BracketRoot(p: Polynomial, lower: real, upper: real): real {
    var (lo, hi) := Bisect(p, lower, upper, BISECTIONS);
    (lo + hi) * 0.5
  }

  /** The first n boundaries that are roots themselves. */
  function BoundaryRoots(p: Polynomial, boundaries: seq<real>, n: nat): seq<real>
    requires n <= |boundaries|
  {
    if n == 0 then []
    else
      var roots, point := BoundaryRoots(p, boundaries, n - 1), boundaries[n - 1];
      if Abs(Evaluate(p, point)) <= BOUNDARY_TOLERANCE then AppendUnique(roots, point) else roots
  }

  /** Those, and a root from each of the first n - 1 gaps whose ends have opposite signs. */
  function BracketRoots(p: Polynomial, boundaries: seq<real>, n: nat): seq<real>
    requires 1 <= n <= |boundaries|
  {
    if n == 1 then BoundaryRoots(p, boundaries, |boundaries|)
    else
      var roots, lower, upper := BracketRoots(p, boundaries, n - 1), boundaries[n - 2], boundaries[n - 1];
      if OppositeSigns(p, lower, upper) then AppendUnique(roots, BracketRoot(p, lower, upper)) else roots
  }

  // ---------- Sorting, as the library does it ----------

  predicate Ascending(s: seq<real>) {
    forall i, j :: 0 <= i < j < |s| ==> s[i] <= s[j]
  }

  function Insert(x: real, s: seq<real>): (r: seq<real>)
    ensures |r| == |s| + 1
  {
    if |s| == 0 || x <= s[0] then [x] + s else [s[0]] + Insert(x, s[1..])
  }

  function Sort(s: seq<real>): (r: seq<real>)
    ensures |r| == |s|
  {
    if |s| == 0 then [] else Insert(s[0], Sort(s[1..]))
  }

  lemma {:induction false} InsertElements(x: real, s: seq<real>)
    ensures multiset(Insert(x, s)) == multiset(s) + multiset{x}
    ensures forall y :: y in Insert(x, s) ==> y == x || y in s
  {
    if |s| > 0 && !(x <= s[0]) {
      InsertElements(x, s[1..]);
      assert s == [s[0]] + s[1..];
    }
  }

  lemma {:induction false} InsertAscending(x: real, s: seq<real>)
    requires Ascending(s)
    ensures Ascending(Insert(x, s))
  {
    if |s| > 0 && !(x <= s[0]) {
      InsertAscending(x, s[1..]);
      InsertElements(x, s[1..]);
      var rest := Insert(x, s[1..]);
      assert forall i :: 0 <= i < |rest| ==> rest[i] in rest;
    }
  }

  lemma {:induction false} SortSorts(s: seq<real>)
    ensures Ascending(Sort(s)) && multiset(Sort(s)) == multiset(s)
  {
    if |s| > 0 {
      SortSorts(s[1..]);
      InsertAscending(s[0], Sort(s[1..]));
      InsertElements(s[0], Sort(s[1..]));
      assert s == [s[0]] + s[1..];
    }
  }

  function Boundaries(critical: seq<real>): (b: seq<real>)
    ensures |b| >= 2
  {
    [0.0] + Sort(critical) + [1.0]
  }

  function Roots(coefficients: Polynomial): seq<real>
    decreases |coefficients|
  {
    var p := Trim(coefficients);
    if |p| == 1 then []
    else if |p| == 2 then AppendUnique([], -p[0] / p[1])
    else
      var boundaries := Boundaries(Roots(Derivative(p)));
      Sort(BracketRoots(p, boundaries, |boundaries|))
  }

  method AppendUniqueRoot(roots: seq<real>, value: real) returns (r: seq<real>)
    ensures r == AppendUnique(roots, value)
  {
    if value < -COEFFICIENT_TOLERANCE || value > 1.0 + COEFFICIENT_TOLERANCE {
      return roots;
    }
    var root := Clamp(value, 0.0, 1.0);
    for i := 0 to |roots|
      invariant forall j :: 0 <= j < i ==> Abs(roots[j] - root) > UNIQUENESS
    {
      if Abs(roots[i] - root) <= UNIQUENESS {
        return roots;
      }
    }
    return roots + [root];
  }

  method BisectRoot(p: Polynomial, start: real, end: real) returns (root: real)
    ensures root == BracketRoot(p, start, end)
  {
    var lower, upper := start, end;
    var lowerValue := HornerEvaluate(p, lower);
    for iteration := 0 to BISECTIONS
      invariant lowerValue == Evaluate(p, lower)
      invariant Bisect(p, lower, upper, BISECTIONS - iteration) == Bisect(p, start, end, BISECTIONS)
    {
      var middle := (lower + upper) * 0.5;
      var middleValue := HornerEvaluate(p, middle);
      if Abs(middleValue) <= ROOT_TOLERANCE {
        lower, upper := middle, middle;
        break;
      }
      if (lowerValue < 0.0) == (middleValue < 0.0) {
        lower := middle;
        lowerValue := middleValue;
      } else {
        upper := middle;
      }
    }
    return (lower + upper) * 0.5;
  }

  /** Drop the trailing coefficients too small to matter. */
  method TrimTail(coefficients: Polynomial) returns (p: Polynomial)
    ensures p == Trim(coefficients)
  {
    p := coefficients;
    while |p| > 1 && Abs(p[|p| - 1]) <= COEFFICIENT_TOLERANCE
      invariant Trim(p) == Trim(coefficients)
    {
      p := p[..|p| - 1];
    }
  }

  method RootsBetween(p: Polynomial, boundaries: seq<real>) returns (roots: seq<real>)
    requires |boundaries| >= 1
    ensures roots == BracketRoots(p, boundaries, |boundaries|)
  {
    hide Evaluate, AppendUnique, Bisect, Abs, BracketRoot;
    roots := [];
    for i := 0 to |boundaries|
      invariant roots == BoundaryRoots(p, boundaries, i)
    {
      var value := HornerEvaluate(p, boundaries[i]);
      if Abs(value) <= BOUNDARY_TOLERANCE {
        roots := AppendUniqueRoot(roots, boundaries[i]);
      }
    }
    for i := 1 to |boundaries|
      invariant roots == BracketRoots(p, boundaries, i)
    {
      var lowerValue := HornerEvaluate(p, boundaries[i - 1]);
      var upperValue := HornerEvaluate(p, boundaries[i]);
      if lowerValue == 0.0 || upperValue == 0.0 || (lowerValue < 0.0) == (upperValue < 0.0) {
        continue;
      }
      var root := BisectRoot(p, boundaries[i - 1], boundaries[i]);
      roots := AppendUniqueRoot(roots, root);
    }
  }

  method RootsOnUnitInterval(coefficients: Polynomial) returns (roots: seq<real>)
    ensures roots == Roots(coefficients)
    decreases |coefficients|
  {
    hide Sort, AppendUnique, BracketRoots, Scaled;
    var p := TrimTail(coefficients);
    if |p| == 1 {
      return [];
    }
    if |p| == 2 {
      roots := AppendUniqueRoot([], -p[0] / p[1]);
      return;
    }
    var critical := RootsOnUnitInterval(Derivative(p));
    roots := RootsBetween(p, [0.0] + Sort(critical) + [1.0]);
    roots := Sort(roots);
  }
}
