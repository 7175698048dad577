/** Facts about products, quotients and powers of reals, one small step each. */
module RealArithmetic {

  function Clamp(x: real, lower: real, upper: real): (r: real)
    requires lower <= upper
    ensures lower <= r <= upper
    ensures lower <= x <= upper ==> r == x
  {
    if x < lower then lower else if upper < x then upper else x
  }

  function Abs(x: real): (r: real)
    ensures r >= 0.0 && (r == x || r == -x)
  {
    if x < 0.0 then -x else x
  }

  function Max(x: real, y: real): (r: real)
    ensures r >= x && r >= y && (r == x || r == y)
  {
    if x < y then y else x
  }

  function Min(x: real, y: real): (r: real)
    ensures r <= x && r <= y && (r == x || r == y)
  {
    if y < x then y else x
  }

  lemma MulNonNegative(x: real, y: real)
    requires 0.0 <= x && 0.0 <= y
    ensures 0.0 <= x * y
  {
  }

  lemma MulMonotone(x: real, y: real, k: real)
    requires x <= y && 0.0 <= k
    ensures x * k <= y * k && k * x <= k * y
  {
    MulNonNegative(y - x, k);
  }

  lemma MulStrictlyMonotone(x: real, y: real, k: real)
    requires x < y && 0.0 < k
    ensures x * k < y * k && k * x < k * y
  {
  }

  lemma MulPositive(x: real, y: real)
    requires 0.0 < x && 0.0 < y
    ensures 0.0 < x * y
  {
  }

  function Product(x: real, y: real): (r: real)
    ensures 0.0 < x && 0.0 < y ==> 0.0 < r
  {
    x * y
  }

  lemma ScaledSquarePositive(k: real, x: real, y: real)
    requires 0.0 < k && 0.0 < x && y == k * x * x
    ensures 0.0 < y
  {
    var p := k * x;
    MulPositive(k, x);
    MulPositive(p, x);
  }

  // ---------- Interpolation ----------

  lemma ScaledIntoRange(u: real, k: real)
    requires 0.0 <= u <= 1.0 && 0.0 <= k
    ensures 0.0 <= u * k <= k && 0.0 <= k * u <= k
  {
    MulMonotone(0.0, u, k);
    MulMonotone(u, 1.0, k);
  }

  function Blend(from: real, to: real, u: real): real {
    from + Product(u, to - from)
  }

  lemma OffsetBetween(u: real, d: real)
    requires 0.0 <= u <= 1.0
    ensures if 0.0 <= d then 0.0 <= Product(u, d) <= d else d <= Product(u, d) <= 0.0
  {
    if 0.0 <= d {
      ScaledIntoRange(u, d);
    } else {
      ScaledIntoRange(u, -d);
    }
  }

  lemma BlendBetween(from: real, to: real, u: real, low: real, high: real)
    requires 0.0 <= u <= 1.0
    requires low <= from <= high && low <= to <= high
    ensures low <= Blend(from, to, u) <= high
  {
    hide Product;
    OffsetBetween(u, to - from);
  }

  // ---------- Quotients and roots ----------

  lemma DivMul(x: real, y: real)
    requires y != 0.0
    ensures x / y * y == x && x * y / y == x
  {
  }

  /** Division by a positive number, named so that proofs can treat it as a unit. */
  function Ratio(x: real, y: real): real
    requires 0.0 < y
  {
    x / y
  }

  lemma RatioBound(x: real, y: real, bound: real)
    requires 0.0 < y && Ratio(x, y) <= bound
    ensures x <= bound * y
  {
    DivMul(x, y);
    MulMonotone(x / y, bound, y);
  }

  lemma RatioNonNegative(x: real, y: real)
    requires 0.0 <= x && 0.0 < y
    ensures 0.0 <= Ratio(x, y)
  {
    DivMul(x, y);
  }

  lemma RatioMonotone(x: real, y: real, k: real)
    requires x <= y && 0.0 < k
    ensures Ratio(x, k) <= Ratio(y, k)
  {
    RatioNonNegative(y - x, k);
    assert (y - x) / k == y / k - x / k;
  }

  /** A square root, taken as exact. */
  ghost predicate IsSquareRoot(sqrt: real -> real) {
    forall x {:trigger sqrt(x)} :: 0.0 <= x ==> 0.0 <= sqrt(x) && sqrt(x) * sqrt(x) == x
  }

  lemma RootBound(sqrt: real -> real, x: real, y: real, bound: real)
    requires IsSquareRoot(sqrt) && 0.0 <= x && 0.0 < y && sqrt(Ratio(x, y)) <= bound
    ensures x <= bound * bound * y
  {
    RatioNonNegative(x, y);
    hide Ratio;
    var q := Ratio(x, y);
    var root := sqrt(q);
    assert 0.0 <= root && root * root == q;
    MulMonotone(root, bound, root);
    MulMonotone(root, bound, bound);
    assert q <= bound * bound;
    RatioBound(x, y, bound * bound);
  }
}
