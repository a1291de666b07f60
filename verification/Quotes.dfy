/** The swap prices of math.rs with the swap fee that swap.rs puts around them. */
module Quotes {
  import opened Machine
  import opened Arith
  import opened CeilDiv

  datatype SwapDirection = PC2Coin | Coin2PC

  /** An exact-in price: the fee kept, what is left of the input, and the output it buys. */
  datatype BaseInQuote = BaseInQuote(fee: u64, net: u64, out: u64)

  /** An exact-out price: the input before and after the fee is added, and that fee. */
  datatype BaseOutQuote = BaseOutQuote(before: u64, after: u64, fee: u64)

  lemma Mul64(a: u64, b: u64)
    ensures 0 <= a * b < U128_LIMIT
  {
    MulBelow(a, b, U64_LIMIT);
  }

  lemma MulBelow(a: nat, b: nat, m: nat)
    requires a < m && b < m
    ensures 0 <= a * b < m * m
  {
    MulLe(0, a, b);
    MulLe(a, m, b);
    MulLe(b + 1, m, m);
  }

  lemma AmountOutBound(resIn: nat, resOut: nat, net: nat)
    requires resIn + net > 0
    ensures 0 <= resOut * net / (resIn + net) <= resOut
    ensures resIn > 0 && resOut > 0 ==> resOut * net / (resIn + net) < resOut
  {
    FloorAdjoint(resOut * net, resIn + net, 0);
    FloorAdjoint(resOut * net, resIn + net, resOut + 1);
    FloorAdjoint(resOut * net, resIn + net, resOut);
    MulLe(net, resIn + net, resOut);
    assert (resOut + 1) * (resIn + net) == resOut * (resIn + net) + resIn + net;
    assert resOut * (resIn + net) == resOut * net + resOut * resIn;
  }

  /** `swap_token_amount_base_in` for reserves named by their role in the swap. */
  function AmountOut(resIn: u64, resOut: u64, net: u64): Option<u64> {
    if resIn + net == 0 then None
    else
      AmountOutBound(resIn, resOut, net);
      Some(resOut * net / (resIn + net))
  }

  /** `swap_token_amount_base_out` for reserves named by their role in the swap. */
  function AmountIn(resIn: u64, resOut: u64, out: u64): Option<u128> {
    if out > resOut then None
    else
      Mul64(resIn, out);
      match CeilDivPair(resIn * out, resOut - out)
      case None => None
      case Some(pair) => Some(pair.0)
  }

  /** The swap fee n/d on an exact input a, rounded as `checked_ceil_div` rounds. */
  function SwapFee(n: u64, d: u64, a: u64): Option<u128> {
    Mul64(a, n);
    match CeilDivPair(a * n, d)
    case None => None
    case Some(pair) => Some(pair.0)
  }

  /** The fee, where one can be computed. */
  function FeeOn(n: u64, d: u64, a: u64): nat {
    match SwapFee(n, d, a)
    case None => 0
    case Some(fee) => fee
  }

  function QuoteBaseIn(n: u64, d: u64, resIn: u64, resOut: u64, a: u64): Result<BaseInQuote> {
    match SwapFee(n, d, a)
    case None => Err(Panicked)
    case Some(fee) =>
      if fee > a then Err(Panicked)
      else
        match AmountOut(resIn, resOut, a - fee)
        case None => Err(Panicked)
        case Some(out) => Ok(BaseInQuote(fee, a - fee, out))
  }

  function QuoteBaseOut(n: u64, d: u64, resIn: u64, resOut: u64, out: u64): Result<BaseOutQuote> {
    match AmountIn(resIn, resOut, out)
    case None => Err(Panicked)
    case Some(before) =>
      if before * d >= U128_LIMIT || d < n then Err(Panicked)
      else
        assert 0 <= before * d;
        match CeilDivPair(before * d, d - n)
        case None => Err(Panicked)
        case Some((after, _)) =>
          if after >= U64_LIMIT || before >= U64_LIMIT || after < before then Err(Panicked)
          else Ok(BaseOutQuote(before, after, after - before))
  }

  // ---------------------------------------------------------------- what the prices mean

  /** The exact-in price is the largest output that does not lower the product of the reserves. */
  lemma AmountOutIsLargest(resIn: u64, resOut: u64, net: u64, o: int)
    requires AmountOut(resIn, resOut, net).Some?
    ensures o <= AmountOut(resIn, resOut, net).value <==>
            (resIn + net) * (resOut - o) >= resIn * resOut
  {
    FloorAdjoint(resOut * net, resIn + net, o);
    assert (resIn + net) * (resOut - o) == resIn * resOut + resOut * net - o * (resIn + net);
  }

  /** The output a net input buys leaves out + resIn within resOut exactly when one more unit than
      that gap would lower the product: a condition on the input alone. */
  lemma OutputWithinGapIff(resIn: u64, resOut: u64, net: u64)
    requires AmountOut(resIn, resOut, net).Some?
    ensures resIn + AmountOut(resIn, resOut, net).value <= resOut <==> (resIn + net) * (resIn - 1) < resIn * resOut
  {
    AmountOutIsLargest(resIn, resOut, net, resOut - resIn + 1);
  }

  lemma Expand(x: int, q: int, y: int, o: int)
    ensures (x + q) * (y - o) == x * y - x * o + q * (y - o)
  {
  }

  /** The program's price of an output, when it is not zero, is the least input that does not
      lower the product of the reserves. */
  lemma AmountInIsLeast(resIn: u64, resOut: u64, out: u64, q: int)
    requires AmountIn(resIn, resOut, out).Some? && AmountIn(resIn, resOut, out).value != 0
    ensures out < resOut
    ensures AmountIn(resIn, resOut, out).value <= q <==>
            (resIn + q) * (resOut - out) >= resIn * resOut
  {
    Mul64(resIn, out);
    NonzeroIsCeiling(resIn * out, resOut - out);
    CeilAdjoint(resIn * out, resOut - out, q);
    Expand(resIn, q, resOut, out);
  }

  /** The charge of an accepted exact-out swap is made of two true ceilings, although neither
      division is one in general: the zero check of the handler removes the other cases. */
  lemma AcceptedBaseOutIsCeiling(n: u64, d: u64, resIn: u64, resOut: u64, out: u64)
    requires QuoteBaseOut(n, d, resIn, resOut, out).Ok?
    requires QuoteBaseOut(n, d, resIn, resOut, out).value.after != 0
    ensures var quote := QuoteBaseOut(n, d, resIn, resOut, out).value;
            && 0 < out < resOut && 0 < resIn && n < d
            && AmountIn(resIn, resOut, out) == Some(quote.before)
            && 0 < quote.before == Ceil(resIn * out, resOut - out)
            && quote.after == Ceil(quote.before * d, d - n)
  {
    var quote := QuoteBaseOut(n, d, resIn, resOut, out).value;
    NonzeroChargeIsCeiling(quote.before, d, d - n);
    Mul64(resIn, out);
    NonzeroChargeIsCeiling(resIn, out, resOut - out);
  }

  lemma NonzeroChargeIsCeiling(x: nat, y: nat, b: nat)
    requires x * y < U128_LIMIT && b < U128_LIMIT
    requires CeilDivPair(x * y, b).Some? && CeilDivPair(x * y, b).value.0 != 0
    ensures 0 < x && 0 < y && 0 < b
    ensures CeilDivPair(x * y, b).value.0 == Ceil(x * y, b)
  {
    NonzeroIsCeiling(x * y, b);
    if x * y == 0 {
      CeilAdjoint(0, b, 0);
    }
  }

  // ---------------------------------------------------------------- the fee

  /** The inputs whose proportional fee is below one half: the program charges them nothing. */
  predicate Dust(n: u64, d: u64, a: u64) {
    0 < 2 * (a * n) < d
  }

  /** A swap that cannot be priced panics. */
  lemma QuotesPanic(n: u64, d: u64, resIn: u64, resOut: u64, amount: u64)
    ensures QuoteBaseIn(n, d, resIn, resOut, amount).Err? ==>
              QuoteBaseIn(n, d, resIn, resOut, amount) == Err(Panicked)
    ensures QuoteBaseOut(n, d, resIn, resOut, amount).Err? ==>
              QuoteBaseOut(n, d, resIn, resOut, amount) == Err(Panicked)
  {
  }

  /** Which exact inputs have a price: the fee, a ceiling from the denominator upwards and half up below,
      must exist and leave something or nothing, and something must be in the pool or put in. */
  lemma BaseInPricedIff(n: u64, d: u64, resIn: u64, resOut: u64, a: u64)
    ensures QuoteBaseIn(n, d, resIn, resOut, a).Ok? <==>
            && d > 0
            && (if a * n >= d then a * n <= a * d else 2 * (a * n) < d || 1 <= a)
            && (resIn > 0 || (a > 0 && FeeOn(n, d, a) < a))
  {
    Mul64(a, n);
    if d > 0 {
      CeilAdjoint(a * n, d, a);
    }
  }

  /** With a proper fee fraction every input has a fee, and it never exceeds the input. */
  lemma SwapFeeDefined(n: u64, d: u64, a: u64)
    requires n < d
    ensures SwapFee(n, d, a).Some? && SwapFee(n, d, a).value <= a
    ensures Dust(n, d, a) ==> SwapFee(n, d, a).value == 0
    ensures !Dust(n, d, a) ==> SwapFee(n, d, a).value == Ceil(a * n, d)
  {
    Mul64(a, n);
    CeilAdjoint(a * n, d, a);
    MulLe(n, d, a);
    CeilAdjoint(a * n, d, 0);
    if a * n < d {
      CeilDivBelow(a * n, d);
    }
  }

  /** What is left after a true-ceiling fee is the floor of the proportional share. */
  lemma NetIsFloor(n: u64, d: u64, a: u64, k: int)
    requires n < d && !Dust(n, d, a)
    ensures SwapFee(n, d, a).Some?
    ensures k <= a - SwapFee(n, d, a).value <==> k * d <= a * (d - n)
  {
    SwapFeeDefined(n, d, a);
    CeilAdjoint(a * n, d, a - k);
    assert (a - k) * d == a * d - k * d;
    assert a * (d - n) == a * d - a * n;
  }

  /** An exact-in quote never lowers the product once its gross input is in the pool. */
  lemma BaseInKeepsProduct(n: u64, d: u64, resIn: u64, resOut: u64, a: u64)
    requires QuoteBaseIn(n, d, resIn, resOut, a).Ok?
    requires QuoteBaseIn(n, d, resIn, resOut, a).value.out <= resOut
    ensures (resIn + a) * (resOut - QuoteBaseIn(n, d, resIn, resOut, a).value.out) >= resIn * resOut
  {
    var quote := QuoteBaseIn(n, d, resIn, resOut, a).value;
    AmountOutIsLargest(resIn, resOut, quote.net, quote.out);
    MulLe(resIn + quote.net, resIn + a, resOut - quote.out);
  }

  /** Nor does an accepted exact-out quote. */
  lemma BaseOutKeepsProduct(n: u64, d: u64, resIn: u64, resOut: u64, out: u64)
    requires QuoteBaseOut(n, d, resIn, resOut, out).Ok?
    requires QuoteBaseOut(n, d, resIn, resOut, out).value.after != 0
    ensures out < resOut
    ensures (resIn + QuoteBaseOut(n, d, resIn, resOut, out).value.after) * (resOut - out) >= resIn * resOut
  {
    var quote := QuoteBaseOut(n, d, resIn, resOut, out).value;
    AcceptedBaseOutIsCeiling(n, d, resIn, resOut, out);
    AmountInIsLeast(resIn, resOut, out, quote.before);
    MulLe(resIn + quote.before, resIn + quote.after, resOut - out);
  }

  // ---------------------------------------------------------------- exact-in against exact-out

  /** The complete exchange law between the two modes: an exact input a buys at least what an
      accepted exact-out swap asked for if and only if a reaches the exact-out charge, or, for an
      input small enough to be spared the fee, the charge before the fee. */
  lemma BaseInReaches(n: u64, d: u64, resIn: u64, resOut: u64, out: u64, a: u64)
    requires QuoteBaseOut(n, d, resIn, resOut, out).Ok?
    requires QuoteBaseOut(n, d, resIn, resOut, out).value.after != 0
    ensures QuoteBaseIn(n, d, resIn, resOut, a).Ok?
    ensures var quote := QuoteBaseOut(n, d, resIn, resOut, out).value;
            out <= QuoteBaseIn(n, d, resIn, resOut, a).value.out
            <==> (if Dust(n, d, a) then quote.before else quote.after) <= a
  {
    AcceptedBaseOutIsCeiling(n, d, resIn, resOut, out);
    var quote := QuoteBaseOut(n, d, resIn, resOut, out).value;
    SwapFeeDefined(n, d, a);
    var net := a - SwapFee(n, d, a).value;
    AmountOutIsLargest(resIn, resOut, net, out);
    AmountInIsLeast(resIn, resOut, out, net);
    if !Dust(n, d, a) {
      NetIsFloor(n, d, a, quote.before);
      CeilAdjoint(quote.before * d, d - n, a);
    }
  }

  /** Paying the exact-out charge as an exact input buys at least the output that was asked for. */
  lemma BaseOutThenBaseIn(n: u64, d: u64, resIn: u64, resOut: u64, out: u64)
    requires QuoteBaseOut(n, d, resIn, resOut, out).Ok?
    requires QuoteBaseOut(n, d, resIn, resOut, out).value.after != 0
    ensures var after := QuoteBaseOut(n, d, resIn, resOut, out).value.after;
            && QuoteBaseIn(n, d, resIn, resOut, after).Ok?
            && QuoteBaseIn(n, d, resIn, resOut, after).value.out >= out
  {
    BaseInReaches(n, d, resIn, resOut, out, QuoteBaseOut(n, d, resIn, resOut, out).value.after);
  }

  /** The fee added by exact-out is at least one as soon as the fee is not zero. */
  lemma AfterAboveBefore(n: u64, d: u64, before: u64)
    requires 0 < before && n < d
    ensures Ceil(before * d, d - n) > before <==> 0 < n
  {
    CeilAdjoint(before * d, d - n, before);
    assert before * (d - n) == before * d - before * n;
  }

  /** The exact-out charge is the cheapest exact input for that output, unless the charge before
      the fee is itself small enough to be spared the fee; then that cheaper input suffices. */
  lemma BaseOutIsLeastIff(n: u64, d: u64, resIn: u64, resOut: u64, out: u64)
    requires QuoteBaseOut(n, d, resIn, resOut, out).Ok?
    requires QuoteBaseOut(n, d, resIn, resOut, out).value.after != 0
    ensures var quote := QuoteBaseOut(n, d, resIn, resOut, out).value;
            (forall a: u64 | QuoteBaseIn(n, d, resIn, resOut, a).Ok?
                             && QuoteBaseIn(n, d, resIn, resOut, a).value.out >= out
               :: quote.after <= a)
            <==> !Dust(n, d, quote.before)
  {
    AcceptedBaseOutIsCeiling(n, d, resIn, resOut, out);
    var quote := QuoteBaseOut(n, d, resIn, resOut, out).value;
    AfterAboveBefore(n, d, quote.before);
    BaseInReaches(n, d, resIn, resOut, out, quote.before);
    if Dust(n, d, quote.before) {
      var a: u64 := quote.before;
      assert QuoteBaseIn(n, d, resIn, resOut, a).value.out >= out && a < quote.after;
    } else {
      forall a: u64 | QuoteBaseIn(n, d, resIn, resOut, a).Ok?
                      && QuoteBaseIn(n, d, resIn, resOut, a).value.out >= out
        ensures quote.after <= a
      {
        BaseInReaches(n, d, resIn, resOut, out, a);
        if Dust(n, d, a) {
          DustIsDownward(n, d, quote.before, a);
        }
      }
    }
  }

  lemma DustIsDownward(n: u64, d: u64, a: u64, b: u64)
    requires 0 < a <= b && Dust(n, d, b)
    ensures Dust(n, d, a)
  {
    MulLe(a, b, n);
    assert 0 < n;
    MulLe(1, a, n);
  }

  /** The unguarded case with the fees every pool starts with: exact-out charges 101 for an
      output that an exact input of 100 buys. */
  lemma BaseOutNotLeastExample()
    ensures QuoteBaseOut(25, 10000, 1000000, 1000000, 99) == Ok(BaseOutQuote(100, 101, 1))
    ensures QuoteBaseIn(25, 10000, 1000000, 1000000, 100) == Ok(BaseInQuote(0, 100, 99))
  {
    assert 1000000 * 99 / 999901 == 99 && (1000000 * 99 + 999900) / 999901 == 100;
    assert (100 * 10000 + 9974) / 9975 == 101;
  }

  /** Exact-out and exact-in charge the same fee on the same gross input exactly when that input
      is not spared the fee. */
  lemma FeesAgreeIff(n: u64, d: u64, resIn: u64, resOut: u64, out: u64)
    requires QuoteBaseOut(n, d, resIn, resOut, out).Ok?
    requires QuoteBaseOut(n, d, resIn, resOut, out).value.after != 0
    ensures var quote := QuoteBaseOut(n, d, resIn, resOut, out).value;
            SwapFee(n, d, quote.after) == Some(quote.fee) <==> !Dust(n, d, quote.after)
  {
    AcceptedBaseOutIsCeiling(n, d, resIn, resOut, out);
    var quote := QuoteBaseOut(n, d, resIn, resOut, out).value;
    SwapFeeDefined(n, d, quote.after);
    AfterAboveBefore(n, d, quote.before);
    if Dust(n, d, quote.after) {
      assert 0 < n;
    } else {
      // the net input of `after` reaches `before`, and cannot reach one more
      NetIsFloor(n, d, quote.after, quote.before);
      NetIsFloor(n, d, quote.after, quote.before + 1);
      ChargeBounds(quote.before, d, n);
    }
  }

  /** An input that is spared the fee: for a gross input of 101 exact-out charges 1, exact-in nothing. */
  lemma FeesDifferExample()
    ensures QuoteBaseOut(25, 10000, 1000000, 1000000, 99) == Ok(BaseOutQuote(100, 101, 1))
    ensures SwapFee(25, 10000, 101) == Some(0)
  {
    BaseOutNotLeastExample();
  }

  lemma ChargeBounds(before: nat, d: nat, n: nat)
    requires n < d
    ensures var after := Ceil(before * d, d - n);
            before * d <= after * (d - n) < (before + 1) * d
  {
    var after := Ceil(before * d, d - n);
    CeilAdjoint(before * d, d - n, after);
    CeilAdjoint(before * d, d - n, after - 1);
    assert (after - 1) * (d - n) == after * (d - n) - (d - n);
    assert (before + 1) * d == before * d + d;
  }
}
