/** `CheckedCeilDiv` of math.rs, in both of its widths (they share one body). */
module CeilDiv {
  import opened Machine
  import opened Arith

  /** What `checked_ceil_div` returns: nothing on a zero divisor or on an overflow of the doubled
      dividend; below the divisor the quotient rounded half up; otherwise the true ceiling together
      with the least divisor that still gives it. */
  function CeilDivPair(a: u128, b: u128): Option<(u128, u128)> {
    if b == 0 then None
    else if a < b then
      if 2 * a >= U128_LIMIT then None
      else Some((if 2 * a >= b then 1 else 0, 0))
    else
      CeilBounds(a, b);
      Some((Ceil(a, b), Ceil(a, Ceil(a, b))))
  }

  lemma CeilBounds(a: nat, b: nat)
    requires 0 < b <= a
    ensures 1 <= Ceil(a, b) <= a
    ensures 1 <= Ceil(a, Ceil(a, b)) <= b
  {
    CeilAdjoint(a, b, 0);
    CeilAdjoint(a, b, a);
    assert b * a >= a by { MulLe(1, b, a); }
    CeilAdjoint(a, b, Ceil(a, b));
    CeilAdjoint(a, Ceil(a, b), b);
    CeilAdjoint(a, Ceil(a, b), 0);
  }

  /** The ceiling in the program's own words: a floor, plus one if there is a remainder. */
  lemma CeilFromRemainder(a: nat, b: nat)
    requires b > 0
    ensures Ceil(a, b) == a / b + (if a % b > 0 then 1 else 0)
  {
    var f := a / b;
    assert a == f * b + a % b;
    assert (f + 1) * b == f * b + b;
    var q := f + (if a % b > 0 then 1 else 0);
    CeilAdjoint(a, b, q);
    assert (q - 1) * b == q * b - b;
    CeilAdjoint(a, b, q - 1);
  }

  /** An exact quotient is matched by no smaller divisor. */
  lemma ExactDivisor(a: nat, b: nat)
    requires 0 < b <= a && a % b == 0
    ensures a / b > 0 && Ceil(a, a / b) == b
  {
    var q := a / b;
    assert a == q * b;
    assert q > 0;
    CeilAdjoint(a, q, b);
    CeilAdjoint(a, q, b - 1);
    assert (b - 1) * q == b * q - q;
  }

  method CheckedCeilDiv(dividend: u128, divisor: u128) returns (r: Option<(u128, u128)>)
    ensures r == CeilDivPair(dividend, divisor)
  {
    var rhs := divisor;
    if rhs == 0 {
      return None;
    }
    var quotient: u128 := dividend / rhs;
    if quotient == 0 {
      assert dividend < rhs by {
        FloorAdjoint(dividend, rhs, 1);
      }
      if dividend * 2 >= U128_LIMIT {
        return None;
      }
      if dividend * 2 >= rhs {
        return Some((1, 0));
      } else {
        return Some((0, 0));
      }
    }
    assert rhs <= dividend by {
      FloorAdjoint(dividend, rhs, 1);
    }
    CeilBounds(dividend, divisor);
    CeilFromRemainder(dividend, divisor);
    var remainder := dividend % rhs;
    if remainder > 0 {
      quotient := quotient + 1;
      CeilFromRemainder(dividend, quotient);
      rhs := dividend / quotient;
      remainder := dividend % quotient;
      if remainder > 0 {
        rhs := rhs + 1;
      }
    } else {
      ExactDivisor(dividend, divisor);
    }
    return Some((quotient, rhs));
  }

  /** From the divisor upwards the quotient is the true ceiling, the returned divisor is the least
      one whose multiple by that quotient covers the dividend, it never exceeds the divisor asked
      for, and dividing by it again changes nothing. */
  lemma CeilDivAbove(a: u128, b: u128)
    requires 0 < b <= a
    ensures CeilDivPair(a, b).Some?
    ensures var (q, r) := CeilDivPair(a, b).value;
            && (q - 1) * b < a <= q * b
            && q * (r - 1) < a <= q * r
            && 1 <= r <= b
            && (forall r' :: q * r' >= a ==> r <= r')
            && CeilDivPair(a, r) == CeilDivPair(a, b)
  {
    CeilBounds(a, b);
    var q, r := Ceil(a, b), Ceil(a, Ceil(a, b));
    CeilAdjoint(a, b, q);
    CeilAdjoint(a, b, q - 1);
    CeilAdjoint(a, q, r);
    CeilAdjoint(a, q, r - 1);
    forall r' | q * r' >= a
      ensures r <= r'
    {
      CeilAdjoint(a, q, r');
    }
    assert Ceil(a, r) == q by {
      CeilAdjoint(a, r, q);
      MulLe(r, b, q - 1);
      CeilAdjoint(a, r, q - 1);
    }
  }

  /** Below the divisor the quotient is not a ceiling but a rounding half up: the quotient q is
      the integer with 2a - b < 2qb <= 2a + b, and it is the ceiling exactly when the dividend is
      zero or its double reaches the divisor. */
  lemma CeilDivBelow(a: u128, b: u128)
    requires a < b && 2 * a < U128_LIMIT
    ensures CeilDivPair(a, b).Some?
    ensures var (q, r) := CeilDivPair(a, b).value;
            && 2 * a - b < 2 * (q * b) <= 2 * a + b
            && r == 0
            && (q == Ceil(a, b) <==> a == 0 || 2 * a >= b)
  {
    CeilAdjoint(a, b, 0);
    CeilAdjoint(a, b, 1);
  }

  /** A quotient that is not zero is always a true ceiling, whatever the operands. */
  lemma NonzeroIsCeiling(a: u128, b: u128)
    requires CeilDivPair(a, b).Some? && CeilDivPair(a, b).value.0 != 0
    ensures b > 0 && CeilDivPair(a, b).value.0 == Ceil(a, b)
  {
    if a < b {
      CeilDivBelow(a, b);
    }
  }
}
