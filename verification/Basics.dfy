/** Small datatypes and real-number helpers shared by every component. */
module Basics {

  datatype Option<+T> = None | Some(value: T)

  function Abs(x: real): real { if x < 0.0 then -x else x }

  function Max(a: int, b: int): int { if a >= b then a else b }

  function MinReal(a: real, b: real): real { if a <= b then a else b }

  /** `std::ceil`, as the integer it is cast to. */
  function Ceil(x: real): (n: int)
    ensures (n - 1) as real < x <= n as real
  {
    -((-x).Floor)
  }

  /** Quotients against a positive divisor, moved across the inequality. */
  lemma QuotientAtMost(x: real, d: real, n: real)
    requires d > 0.0
    ensures x / d <= n <==> x <= n * d
  {
    assert x == x / d * d;
    ProductOrder(x / d, n, d, x);
  }

  lemma ProductOrder(q: real, n: real, d: real, x: real)
    requires d > 0.0 && x == q * d
    ensures q <= n <==> x <= n * d
  {
    if q <= n { ScaleOrder(q, n, d); } else { StrictScale(n, q, d); }
  }

  lemma StrictScale(a: real, b: real, d: real)
    requires a < b && d > 0.0
    ensures a * d < b * d
  {
    assert 0.0 < (b - a) * d;
  }

  lemma ScaleOrder(a: real, b: real, d: real)
    requires a <= b && d >= 0.0
    ensures a * d <= b * d
  {
    assert 0.0 <= (b - a) * d;
  }
}
