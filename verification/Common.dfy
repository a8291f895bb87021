/** Small shared vocabulary: optional values and arithmetic on prices. */
module Common {

  datatype Option<+T> = None | Some(value: T)

  function Abs(x: real): real {
    if x < 0.0 then -x else x
  }

  function Max(x: real, y: real): real {
    if x >= y then x else y
  }

  function Min(x: real, y: real): real {
    if x <= y then x else y
  }

  /** Scaling an error by a weight: used wherever a rounded factor is weighted. */
  lemma ScaledError(w: real, x: real, y: real, e: real)
    requires Abs(x - y) <= e
    ensures Abs(w * x - w * y) <= Abs(w) * e
  {
    assert w * x - w * y == w * (x - y);
    var d := x - y;
    if w >= 0.0 {
      assert w * d <= w * e;
      assert w * d >= w * -e;
    } else {
      assert -w * d <= -w * e;
      assert -w * d >= -w * -e;
    }
  }

  lemma SumError(a: real, b: real, e: real, x: real, y: real, d: real)
    requires Abs(a - b) <= e && Abs(x - y) <= d
    ensures Abs((a + x) - (b + y)) <= e + d
  {
  }

  lemma ProductMonotone(x: real, y: real, d: real)
    requires d > 0.0
    ensures x < y <==> x * d < y * d
  {
    if x < y {
      assert (y - x) * d > 0.0;
    } else {
      assert (x - y) * d >= 0.0;
    }
  }

  /** A quotient compares to a value as the dividend compares to the product. */
  lemma QuotientOrder(n: real, d: real, k: real)
    requires d > 0.0
    ensures (n / d) * d == n
    ensures n / d < k <==> n < k * d
    ensures n / d > k <==> n > k * d
  {
    assert (n / d) * d == n;
    ProductMonotone(n / d, k, d);
    ProductMonotone(k, n / d, d);
  }

  lemma QuotientSum(a: real, b: real, d: real)
    requires d > 0.0
    ensures (a + b) / d == a / d + b / d
  {
    var x, y := a / d + b / d, (a + b) / d;
    QuotientOrder(a, d, 0.0);
    QuotientOrder(b, d, 0.0);
    QuotientOrder(a + b, d, x);
    assert x * d == (a / d) * d + (b / d) * d;
  }

  lemma ProductNonNegative(x: real, y: real)
    requires x >= 0.0 && y >= 0.0
    ensures x * y >= 0.0
  {
  }
}
