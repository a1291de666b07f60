/** Facts about integer division that the pool arithmetic rests on. */
module Arith {

  /** The mathematical ceiling of a / b. */
  function Ceil(a: nat, b: nat): nat
    requires b > 0
  {
    (a + b - 1) / b
  }

  lemma MulLe(a: int, b: int, c: int)
    requires a <= b && 0 <= c
    ensures a * c <= b * c && c * a <= c * b
  {
  }

  /** Multiplication by a positive number reflects the order. */
  lemma MulCancel(a: int, b: int, c: int)
    requires a * c <= b * c && 0 < c
    ensures a <= b
  {
    if b < a {
      MulLe(b + 1, a, c);
    }
  }

  /** Floor division is the upper adjoint of multiplication. */
  lemma FloorAdjoint(a: nat, b: nat, q: int)
    requires b > 0
    ensures q <= a / b <==> q * b <= a
  {
    var f := a / b;
    assert f * b <= a < (f + 1) * b;
    if q <= f {
      MulLe(q, f, b);
    } else {
      MulLe(f + 1, q, b);
    }
  }

  /** The ceiling is the lower adjoint of multiplication. */
  lemma CeilAdjoint(a: nat, b: nat, q: int)
    requires b > 0
    ensures Ceil(a, b) <= q <==> a <= q * b
  {
    FloorAdjoint(a + b - 1, b, q + 1);
    assert (q + 1) * b == q * b + b;
  }
}
