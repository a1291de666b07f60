/** The Newton iteration with which initialize.rs sets the first LP amount. */
module InitialLp {
  import opened Machine
  import opened Arith

  ghost predicate IsFloorSqrt(r: nat, p: nat) {
    r * r <= p < (r + 1) * (r + 1)
  }

  /** The integer part of the square root, by counting up. */
  ghost function FloorSqrt(p: nat): (r: nat)
    ensures IsFloorSqrt(r, p)
  {
    if p == 0 then 0
    else
      var r := FloorSqrt(p - 1);
      if p < (r + 1) * (r + 1) then r else NextSquare(r, p); r + 1
  }

  lemma NextSquare(r: nat, p: nat)
    requires p - 1 < (r + 1) * (r + 1) <= p
    ensures IsFloorSqrt(r + 1, p)
  {
    assert (r + 2) * (r + 2) == (r + 1) * (r + 1) + 2 * r + 3;
  }

  lemma FloorSqrtUnique(r: nat, p: nat)
    requires IsFloorSqrt(r, p)
    ensures r == FloorSqrt(p)
  {
    var q := FloorSqrt(p);
    if q < r {
      SquareMono(q + 1, r);
    } else if r < q {
      SquareMono(r + 1, q);
    }
  }

  lemma SquareMono(a: nat, b: nat)
    requires a <= b
    ensures a * a <= b * b
  {
    MulLe(a, b, a);
    MulLe(a, b, b);
  }

  /** One Newton step from any positive x lands at or above the floor of the root. */
  lemma NewtonStaysAbove(x: nat, p: nat)
    requires x > 0
    ensures var y := (x + p / x) / 2; p < (y + 1) * (y + 1)
  {
    var q := p / x;
    FloorAdjoint(p, x, q + 1);
    MeanSquare(x, q + 1, (x + q) / 2 + 1);
  }

  /** Twice a number at least the sum of two has a square at least their product. */
  lemma MeanSquare(a: nat, b: nat, m: nat)
    requires a + b <= 2 * m
    ensures b * a <= m * m
  {
    SquareMono(a + b, 2 * m);
    SquareNonNegative(a - b);
    assert (a + b) * (a + b) == (a - b) * (a - b) + 4 * (b * a);
    assert (2 * m) * (2 * m) == 4 * (m * m);
  }

  lemma SquareNonNegative(a: int)
    ensures 0 <= a * a
  {
  }

  /** No sum of the iteration leaves u128. */
  lemma NewtonSumFits(x: u128, p: u128)
    requires 0 < p < (x + 1) * (x + 1) && 2 * x <= p + 1 && p + 1 < U128_LIMIT
    ensures x > 0 && x + p / x < U128_LIMIT
  {
    if x == 0 {
      assert false;
    }
    FloorAdjoint(p, x, x + 3);
    assert (x + 3) * x == (x + 1) * (x + 1) + x - 1;
  }

  lemma NewtonStops(x: nat, p: nat)
    requires x > 0 && x <= (x + p / x) / 2
    ensures x * x <= p
  {
    FloorAdjoint(p, x, x);
  }

  /** The product of the first reserves: it fits u128 with room for the loop's own increment. */
  lemma ProductFits(coin: u64, pc: u64)
    ensures 0 <= coin * pc && coin * pc + 1 < U128_LIMIT
    ensures FloorSqrt(coin * pc) < U64_LIMIT
  {
    MulLe(0, coin, pc);
    MulLe(coin, U64_LIMIT - 1, pc);
    MulLe(pc, U64_LIMIT - 1, U64_LIMIT - 1);
    var r := FloorSqrt(coin * pc);
    if r >= U64_LIMIT {
      SquareMono(U64_LIMIT, r);
    }
  }

  /** The loop's candidates never fall below the root and stay below half the product. */
  ghost predicate Candidate(y: int, p: nat) {
    0 <= y && p < (y + 1) * (y + 1) && 2 * y <= p + 1
  }

  lemma NewtonStart(p: nat)
    requires p > 0
    ensures Candidate((p + 1) / 2, p)
    ensures (p + 1) / 2 >= p ==> IsFloorSqrt(p, p)
  {
    var y := (p + 1) / 2;
    assert (y + 1) * (y + 1) == y * y + 2 * y + 1;
    SquareNonNegative(y);
  }

  lemma NewtonStep(x: u128, p: u128)
    requires 0 < p && p + 1 < U128_LIMIT && Candidate(x, p)
    ensures x > 0 && x + p / x < U128_LIMIT
    ensures var y := (x + p / x) / 2;
            if y < x then Candidate(y, p) else IsFloorSqrt(x, p)
  {
    NewtonSumFits(x, p);
    NewtonStaysAbove(x, p);
    if x <= (x + p / x) / 2 {
      NewtonStops(x, p);
    }
  }

  /** For all u64 amounts the loop ends, stays within u128 (every intermediate is typed so), and its
      result, which the program casts to u64, is exactly the floor of the square root. */
  method InitialLpAmount(coin: u64, pc: u64) returns (lp: u64)
    ensures lp == FloorSqrt(coin * pc)
  {
    ProductFits(coin, pc);
    var product: u128 := coin * pc;
    lp := 0;
    if product > 0 {
      lp := NewtonLoop(product);
    } else {
      FloorSqrtUnique(0, product);
    }
  }

  method NewtonLoop(product: u128) returns (root: u128)
    requires 0 < product && product + 1 < U128_LIMIT
    ensures root == FloorSqrt(product)
  {
    NewtonStart(product);
    var x: u128 := product;
    var bumped: u128 := x + 1;
    var y: u128 := bumped / 2;
    while y < x
      invariant if y < x then Candidate(y, product) else IsFloorSqrt(x, product)
      decreases x
    {
      x := y;
      NewtonStep(x, product);
      var sum: u128 := x + product / x;
      y := sum / 2;
    }
    FloorSqrtUnique(x, product);
    root := x;
  }
}
