/** Real arithmetic shared by the cores: absolute value, C++ truncation, sums and the library square root. */
module RealMath {

  function Abs(x: real): real {
    if x < 0.0 then -x else x
  }

  function Max(x: real, y: real): real {
    if x < y then y else x
  }

  /** A finite floating-point value, or the NaN that zero divided by zero makes of it. */
  datatype Float = Num(r: real) | NaN

  /** Comparison of floating-point values: NaN differs from everything, itself included. */
  predicate Same(x: Float, y: Float) {
    x.Num? && y.Num? && x.r == y.r
  }

  /** Conversion of a floating-point value to an integer type: the fraction is dropped. */
  function Trunc(x: real): int {
    if x >= 0.0 then x.Floor else -((-x).Floor)
  }

  /** Truncation goes towards zero and drops less than one. */
  lemma TruncTowardsZero(x: real)
    ensures Abs(Trunc(x) as real) <= Abs(x) < Abs(Trunc(x) as real) + 1.0
    ensures x >= 0.0 ==> Trunc(x) >= 0
    ensures x <= 0.0 ==> Trunc(x) <= 0
  {
  }

  /** What the model relies on of the library `sqrt`. Its value on negative arguments is left open. */
  ghost predicate IsSqrt(sqrt: real -> real) {
    forall x: real :: x >= 0.0 ==> sqrt(x) >= 0.0 && sqrt(x) * sqrt(x) == x
  }

  function Sum(s: seq<real>): real {
    if s == [] then 0.0 else Sum(s[..|s| - 1]) + s[|s| - 1]
  }

  lemma {:induction false} SumConcat(a: seq<real>, b: seq<real>)
    ensures Sum(a + b) == Sum(a) + Sum(b)
  {
    if b == [] {
      assert a + b == a;
    } else {
      assert (a + b)[..|a + b| - 1] == a + b[..|b| - 1];
      SumConcat(a, b[..|b| - 1]);
    }
  }

  lemma SquareNonNegative(x: real)
    ensures x * x >= 0.0
  {
  }

  lemma ProductPositive(x: real, y: real)
    requires x > 0.0 && y > 0.0
    ensures x * y > 0.0
  {
  }

  lemma ProductMonotone(x: real, y: real, z: real)
    requires x <= y && z >= 0.0
    ensures x * z <= y * z
  {
  }

  lemma ProductOrder(a: int, b: int, n: nat)
    requires a <= b
    ensures a * n <= b * n
  {
  }

  lemma AbsProduct(x: real, y: real, u: real)
    requires u == x * y
    ensures Abs(u) == Abs(x) * Abs(y)
  {
    assert x * y == (-x) * (-y);
    assert (-x) * y == x * (-y) == -(x * y);
    ProductMonotone(0.0, Abs(x), Abs(y));
  }

  /** On non-negative numbers squaring is strictly monotone. */
  lemma SquareOrder(x: real, y: real)
    requires y >= 0.0
    requires x * x <= y * y
    ensures x <= y
  {
    assert (x - y) * (x + y) == x * x - y * y;
    if x > y {
      ProductPositive(x - y, x + y);
    }
  }

  lemma FactorNonNegative(x: real, y: real)
    requires x > 0.0 && x * y >= 0.0
    ensures y >= 0.0
  {
    if y < 0.0 {
      ProductPositive(x, -y);
    }
  }

  lemma DivideCancels(x: real, w: real)
    requires w != 0.0
    ensures w * (x / w) == x && (w * x) / w == x
  {
  }

  /** k equal steps. */
  function Ramp(x: real, k: nat): real {
    k as real * x
  }

  lemma RampStep(x: real, k: nat)
    ensures Ramp(x, k + 1) == Ramp(x, k) + x && Ramp(x, 0) == 0.0 && Ramp(x, 1) == x
  {
  }

  lemma RampSign(d: real, k: nat)
    ensures d >= 0.0 ==> Ramp(d, k) >= 0.0
    ensures d <= 0.0 ==> Ramp(d, k) <= 0.0
  {
  }
}
