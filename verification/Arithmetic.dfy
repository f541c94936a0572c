/** Division and multiplication facts, and Rust's and C++'s division. */
module Arithmetic {

  /** Integer division that rounds toward zero. */
  function TruncDiv(a: int, b: int): (q: int)
    requires b > 0
  {
    if a >= 0 then a / b else -((-a) / b)
  }

  lemma MulMonotone(a: int, b: int, d: int)
    requires a <= b && d >= 0
    ensures a * d <= b * d
  {
  }

  lemma DivIs(n: int, d: int, q: int)
    requires d > 0 && q * d <= n < q * d + d
    ensures n / d == q
  {
    var r := n / d;
    if r < q { MulMonotone(r + 1, q, d); } else if r > q { MulMonotone(q + 1, r, d); }
  }
}
