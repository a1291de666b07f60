/** Cutting one exact-in trade into several, one direction, reserves updated after each piece. */
module Splitting {
  import opened Machine
  import opened Arith
  import opened CeilDiv
  import opened Quotes

  /** The reserve on the way in gains the gross input, of which only the net input is priced. */
  datatype Trade = Trade(net: u64, gross: u64)

  function NetSum(trades: seq<Trade>): nat {
    if trades == [] then 0 else trades[0].net + NetSum(trades[1..])
  }

  function GrossSum(inputs: seq<u64>): nat {
    if inputs == [] then 0 else inputs[0] + GrossSum(inputs[1..])
  }

  /** The total output of a list of trades priced one after the other, nothing if one is refused. */
  function TradeAll(resIn: u64, resOut: u64, trades: seq<Trade>): Option<nat>
    decreases |trades|
  {
    if trades == [] then Some(0)
    else
      match AmountOut(resIn, resOut, trades[0].net)
      case None => None
      case Some(out) =>
        if resIn + trades[0].gross >= U64_LIMIT || out > resOut then None
        else
          match TradeAll(resIn + trades[0].gross, resOut - out, trades[1..])
          case None => None
          case Some(rest) => Some(out + rest)
  }

  /** The total output of a list of exact-in swaps, fee n/d taken from each. */
  function SwapAll(n: u64, d: u64, resIn: u64, resOut: u64, inputs: seq<u64>): Option<nat>
    decreases |inputs|
  {
    if inputs == [] then Some(0)
    else
      match QuoteBaseIn(n, d, resIn, resOut, inputs[0])
      case Err(_) => None
      case Ok(quote) =>
        if resIn + inputs[0] >= U64_LIMIT || quote.out > resOut then None
        else
          match SwapAll(n, d, resIn + inputs[0], resOut - quote.out, inputs[1..])
          case None => None
          case Some(rest) => Some(quote.out + rest)
  }

  lemma TwoTrades(x: nat, y: nat, a: nat, g: nat, b: nat, o: int, p: int)
    requires x + a > 0 && a <= g
    requires 0 <= o <= y * a / (x + a) && o <= y
    requires 0 <= p <= (y - o) * b / (x + g + b)
    ensures o + p <= y * (a + b) / (x + a + b)
  {
    FloorAdjoint(y * a, x + a, o);
    FloorAdjoint((y - o) * b, x + g + b, p);
    assert p * (x + a + b) <= (y - o) * b by {
      MulLe(x + a + b, x + g + b, p);
    }
    FloorAdjoint(y * (a + b), x + a + b, o + p);
    Rearrange(x, y, a, b, o, p);
  }

  lemma Rearrange(x: int, y: int, a: int, b: int, o: int, p: int)
    requires o * (x + a) <= y * a && p * (x + a + b) <= (y - o) * b
    ensures (o + p) * (x + a + b) <= y * (a + b)
  {
    assert (o + p) * (x + a + b) == o * (x + a) + o * b + p * (x + a + b);
    assert (y - o) * b == y * b - o * b;
    assert y * (a + b) == y * a + y * b;
  }

  /** Splitting never pays on inputs after the fee: the pieces together buy at most what one trade
      of their sum buys, even though each piece leaves its fee in the pool. */
  lemma {:induction false} SplittingNeverPays(resIn: u64, resOut: u64, trades: seq<Trade>)
    requires forall t <- trades :: t.net <= t.gross
    requires TradeAll(resIn, resOut, trades).Some?
    requires trades != []
    ensures resIn + NetSum(trades) < U64_LIMIT
    ensures AmountOut(resIn, resOut, NetSum(trades)).Some?
    ensures TradeAll(resIn, resOut, trades).value <= AmountOut(resIn, resOut, NetSum(trades)).value
    decreases |trades|
  {
    var t, rest := trades[0], trades[1..];
    assert t in trades;
    var out := AmountOut(resIn, resOut, t.net).value;
    if rest == [] {
      assert NetSum(rest) == 0;
    } else {
      SplittingNeverPays(resIn + t.gross, resOut - out, rest);
      TwoTrades(resIn, resOut, t.net, t.gross, NetSum(rest), out,
                TradeAll(resIn + t.gross, resOut - out, rest).value);
    }
  }

  // ---------------------------------------------------------------- with fees

  function FeeSum(n: u64, d: u64, inputs: seq<u64>): nat {
    if inputs == [] then 0 else FeeOn(n, d, inputs[0]) + FeeSum(n, d, inputs[1..])
  }

  /** The fees of the pieces reach the fee of their sum. */
  predicate FeesCover(n: u64, d: u64, inputs: seq<u64>) {
    GrossSum(inputs) < U64_LIMIT && SwapFee(n, d, GrossSum(inputs)).Some?
    && SwapFee(n, d, GrossSum(inputs)).value <= FeeSum(n, d, inputs)
  }

  /** At these reserves the pieces together, if none is refused, buy at most what their sum buys. */
  predicate SumBuysAll(n: u64, d: u64, resIn: u64, resOut: u64, inputs: seq<u64>) {
    SwapAll(n, d, resIn, resOut, inputs).Some? ==>
      && GrossSum(inputs) < U64_LIMIT
      && QuoteBaseIn(n, d, resIn, resOut, GrossSum(inputs)).Ok?
      && SwapAll(n, d, resIn, resOut, inputs).value <= QuoteBaseIn(n, d, resIn, resOut, GrossSum(inputs)).value.out
  }

  predicate Chargeable(n: u64, d: u64, inputs: seq<u64>) {
    inputs != [] ==>
      && SwapFee(n, d, inputs[0]).Some? && SwapFee(n, d, inputs[0]).value <= inputs[0]
      && Chargeable(n, d, inputs[1..])
  }

  lemma {:induction false} ProperFeesCharge(n: u64, d: u64, inputs: seq<u64>)
    requires n < d
    ensures Chargeable(n, d, inputs)
  {
    if inputs != [] {
      SwapFeeDefined(n, d, inputs[0]);
      ProperFeesCharge(n, d, inputs[1..]);
    }
  }

  /** The pieces with their fees taken off. */
  function Trades(n: u64, d: u64, inputs: seq<u64>): (trades: seq<Trade>)
    requires Chargeable(n, d, inputs)
    ensures |trades| == |inputs|
    ensures forall t <- trades :: t.net <= t.gross
  {
    if inputs == [] then []
    else
      [Trade(inputs[0] - FeeOn(n, d, inputs[0]), inputs[0])] + Trades(n, d, inputs[1..])
  }

  function GrossOf(trades: seq<Trade>): nat {
    if trades == [] then 0 else trades[0].gross + GrossOf(trades[1..])
  }

  lemma {:induction false} TradesSums(n: u64, d: u64, inputs: seq<u64>)
    requires Chargeable(n, d, inputs)
    ensures NetSum(Trades(n, d, inputs)) == GrossSum(inputs) - FeeSum(n, d, inputs)
    ensures GrossOf(Trades(n, d, inputs)) == GrossSum(inputs)
  {
    if inputs != [] {
      TradesSums(n, d, inputs[1..]);
      assert Trades(n, d, inputs)[1..] == Trades(n, d, inputs[1..]);
    }
  }

  lemma {:induction false} SwapAllCharges(n: u64, d: u64, resIn: u64, resOut: u64, inputs: seq<u64>)
    requires SwapAll(n, d, resIn, resOut, inputs).Some?
    ensures Chargeable(n, d, inputs)
    decreases |inputs|
  {
    if inputs != [] {
      var quote := QuoteBaseIn(n, d, resIn, resOut, inputs[0]).value;
      SwapAllCharges(n, d, resIn + inputs[0], resOut - quote.out, inputs[1..]);
    }
  }

  lemma {:induction false} SwapAllIsTradeAll(n: u64, d: u64, resIn: u64, resOut: u64, inputs: seq<u64>)
    requires Chargeable(n, d, inputs)
    ensures SwapAll(n, d, resIn, resOut, inputs) == TradeAll(resIn, resOut, Trades(n, d, inputs))
    decreases |inputs|
  {
    if inputs != [] {
      var a, rest := inputs[0], inputs[1..];
      var trade := Trade(a - FeeOn(n, d, a), a);
      var quoted := QuoteBaseIn(n, d, resIn, resOut, a);
      QuoteOfTrade(n, d, resIn, resOut, a);
      if quoted.Ok? && resIn + a < U64_LIMIT && quoted.value.out <= resOut {
        SwapAllIsTradeAll(n, d, resIn + a, resOut - quoted.value.out, rest);
      }
      TradeAllFirst(resIn, resOut, trade, Trades(n, d, rest));
    }
  }

  lemma TradeAllFirst(resIn: u64, resOut: u64, trade: Trade, rest: seq<Trade>)
    ensures var out := AmountOut(resIn, resOut, trade.net);
            TradeAll(resIn, resOut, [trade] + rest)
            == if out.None? || resIn + trade.gross >= U64_LIMIT || out.value > resOut then None
               else AddTo(out.value, TradeAll(resIn + trade.gross, resOut - out.value, rest))
  {
    assert ([trade] + rest)[1..] == rest;
  }

  function AddTo(out: nat, rest: Option<nat>): Option<nat> {
    match rest
    case None => None
    case Some(total) => Some(out + total)
  }

  lemma QuoteOfTrade(n: u64, d: u64, resIn: u64, resOut: u64, a: u64)
    requires SwapFee(n, d, a).Some? && SwapFee(n, d, a).value <= a
    ensures QuoteBaseIn(n, d, resIn, resOut, a).Ok? <==> AmountOut(resIn, resOut, a - FeeOn(n, d, a)).Some?
    ensures QuoteBaseIn(n, d, resIn, resOut, a).Ok? ==>
              AmountOut(resIn, resOut, a - FeeOn(n, d, a)) == Some(QuoteBaseIn(n, d, resIn, resOut, a).value.out)
  {
  }

  lemma AmountOutMono(x: nat, y: nat, a: nat, b: nat)
    requires x + a > 0 && a <= b
    ensures y * a / (x + a) <= y * b / (x + b)
  {
    var o := y * a / (x + a);
    FloorAdjoint(y * a, x + a, o);
    FloorAdjoint(y * b, x + b, o);
    AmountOutBound(x, y, a);
    MulLe(o, y, b - a);
    assert o * (x + b) == o * (x + a) + o * (b - a);
    assert y * b == y * a + y * (b - a);
  }

  /** Splitting does not pay with fees included, at any reserves and under any fee numbers, when the
      fees of the pieces cover the fee of the sum. */
  lemma CoveredSplittingNeverPays(n: u64, d: u64, resIn: u64, resOut: u64, inputs: seq<u64>)
    requires inputs != [] && FeesCover(n, d, inputs)
    ensures SumBuysAll(n, d, resIn, resOut, inputs)
  {
    if SwapAll(n, d, resIn, resOut, inputs).Some? {
      SwapAllCharges(n, d, resIn, resOut, inputs);
      SwapAllIsTradeAll(n, d, resIn, resOut, inputs);
      var trades := Trades(n, d, inputs);
      SplittingNeverPays(resIn, resOut, trades);
      TradesSums(n, d, inputs);
      var net := GrossSum(inputs) - SwapFee(n, d, GrossSum(inputs)).value;
      AmountOutMono(resIn, resOut, NetSum(trades), net);
      assert AmountOut(resIn, resOut, net).Some?;
    }
  }

  /** What a list of trades buys at least: its share of the reserve at the final price, less one for
      each rounding. */
  lemma {:induction false} TradeAllAtLeast(resIn: u64, resOut: u64, trades: seq<Trade>)
    requires forall t <- trades :: t.net <= t.gross
    requires resIn > 0 && resIn + GrossOf(trades) < U64_LIMIT
    ensures TradeAll(resIn, resOut, trades).Some?
    ensures NetSum(trades) <= GrossOf(trades)
    ensures (TradeAll(resIn, resOut, trades).value + |trades|) * (resIn + GrossOf(trades)) >= resOut * NetSum(trades)
    decreases |trades|
  {
    if trades != [] {
      var t, rest := trades[0], trades[1..];
      assert t in trades;
      AmountOutBound(resIn, resOut, t.net);
      var out := AmountOut(resIn, resOut, t.net).value;
      TradeAllAtLeast(resIn + t.gross, resOut - out, rest);
      FloorAdjoint(resOut * t.net, resIn + t.net, out + 1);
      OneMoreTrade(resIn + t.net, resOut, t.net, out, TradeAll(resIn + t.gross, resOut - out, rest).value + |rest|,
                   NetSum(rest), resIn + GrossOf(trades));
    } else {
      assert resOut * 0 == 0;
    }
  }

  lemma OneMoreTrade(x: nat, y: nat, a: nat, out: nat, bought: nat, net: nat, final: nat)
    requires out <= y && y * a < (out + 1) * x && x <= final - net
    requires bought * final >= (y - out) * net
    ensures (out + bought + 1) * final >= y * (a + net)
  {
    MulLe(x, final - net, out + 1);
    assert (out + bought + 1) * final == (out + 1) * (final - net) + (out + 1) * net + bought * final;
    assert (y - out) * net == y * net - out * net;
    assert (out + 1) * net == out * net + net;
    assert y * (a + net) == y * a + y * net;
  }

  /** The amounts leave room, below the largest u64, for an output reserve at which the gain of the
      split outweighs its roundings. */
  predicate Small(n: u64, d: u64, inputs: seq<u64>) {
    4 * |inputs| * (GrossSum(inputs) * (FeeSum(n, d, inputs) + 1)) < U64_LIMIT - 1
  }

  /** The reserve on the way in at which the gain shows: the price must not move too much, and the
      fees that earlier pieces leave in the pool must weigh little. */
  function WitnessReserve(net: nat, fees: nat, gross: nat): int {
    2 * (net * fees) + gross
  }

  lemma WitnessFits(k: nat, net: nat, fees: nat, gross: nat)
    requires k > 0 && net <= gross && 4 * k * (gross * (fees + 1)) < U64_LIMIT - 1
    ensures gross <= WitnessReserve(net, fees, gross) < U64_LIMIT - gross
    ensures 4 * k * (net * fees + gross) < U64_LIMIT - 1
  {
    var h, g := net * fees + gross, gross * (fees + 1);
    MulLe(0, net, fees);
    MulLe(net, gross, fees);
    assert g == gross * fees + gross;
    MulLe(h, g, 4 * k);
    MulLe(4, 4 * k, h);
  }

  /** The split buys more than the sum of its pieces once its price advantage, `extra` more of net
      input, outweighs the roundings and the fees that earlier pieces leave in the pool. */
  lemma SplitBeatsSum(net: nat, fees: nat, extra: nat, k: nat, y: nat, split: nat, single: nat)
    requires extra > 0
    requires var gross := net + fees + extra;
             var x := WitnessReserve(net, fees, gross);
             && (split + k) * (x + gross) >= y * (net + extra)
             && single * (x + net) <= y * net
             && 4 * k * (net * fees + gross) < y
    ensures split > single
  {
    var gross := net + fees + extra;
    var x := WitnessReserve(net, fees, gross);
    MulLe(0, net, fees);
    if split <= single {
      CrossMultiply(split, single, k, x + gross, x + net, y, net + extra, net);
      Advantage(net, fees, extra, x);
      Roundings(k, net * fees + gross, x + gross, x + net, y, (net + extra) * (x + net) - net * (x + gross));
    }
  }

  lemma CrossMultiply(split: nat, single: nat, k: nat, a: nat, b: nat, y: nat, p: nat, q: nat)
    requires split <= single && (split + k) * a >= y * p && single * b <= y * q
    ensures y * (p * b - q * a) <= k * (a * b)
  {
    MulLe(split + k, single + k, a);
    MulLe(y * p, (single + k) * a, b);
    MulLe(single * b, y * q, a);
    Spread(single, k, a, b);
    assert y * p * b == y * (p * b) && y * q * a == y * (q * a);
    assert y * (p * b - q * a) == y * (p * b) - y * (q * a);
  }

  lemma Spread(m: nat, k: nat, a: nat, b: nat)
    ensures (m + k) * a * b == m * b * a + k * (a * b)
  {
    Distribute(m, k, a);
    Distribute(m * a, k * a, b);
    assert m * a * b == m * b * a;
    assert k * a * b == k * (a * b);
  }

  /** The gain in product terms is at least half of the larger denominator. */
  lemma Advantage(net: nat, fees: nat, extra: nat, x: nat)
    requires extra > 0 && x == WitnessReserve(net, fees, net + fees + extra)
    ensures (net + extra) * (x + net) - net * (x + (net + fees + extra)) >= net * fees + (net + fees + extra)
  {
    Distribute(net, extra, x + net);
    Distribute(x, net, extra);
    Distribute(fees, extra, net);
    Distribute(x + net, fees + extra, net);
    MulLe(0, net, fees);
    MulLe(1, extra, x);
  }

  lemma Roundings(k: nat, h: nat, a: nat, b: nat, y: nat, gain: int)
    requires h > 0 && h <= gain && a <= 2 * h && b <= 2 * h && y * gain <= k * (a * b)
    ensures y <= 4 * k * h
  {
    MulLe(h, gain, y);
    MulLe(a, 2 * h, b);
    MulLe(b, 2 * h, 2 * h);
    MulLe(a * b, (2 * h) * (2 * h), k);
    assert k * ((2 * h) * (2 * h)) == 4 * k * h * h;
    MulCancel(y, 4 * k * h, h);
  }

  /** What a list of swaps buys at least, with a proper fee fraction. */
  lemma SwapAllAtLeast(n: u64, d: u64, resIn: u64, resOut: u64, inputs: seq<u64>)
    requires n < d && resIn > 0 && resIn + GrossSum(inputs) < U64_LIMIT
    ensures SwapAll(n, d, resIn, resOut, inputs).Some?
    ensures (SwapAll(n, d, resIn, resOut, inputs).value + |inputs|) * (resIn + GrossSum(inputs))
            >= resOut * (GrossSum(inputs) - FeeSum(n, d, inputs))
  {
    ProperFeesCharge(n, d, inputs);
    TradesSums(n, d, inputs);
    TradeAllAtLeast(resIn, resOut, Trades(n, d, inputs));
    SwapAllIsTradeAll(n, d, resIn, resOut, inputs);
  }

  lemma SmallSum(n: u64, d: u64, inputs: seq<u64>)
    requires inputs != [] && Small(n, d, inputs)
    ensures GrossSum(inputs) < U64_LIMIT
  {
    WitnessFits(|inputs|, 0, FeeSum(n, d, inputs), GrossSum(inputs));
  }

  /** Where the fees of small pieces do not cover, splitting pays at the reserves named here. */
  lemma UncoveredSplittingPays(n: u64, d: u64, inputs: seq<u64>) returns (resIn: u64, resOut: u64)
    requires n < d && inputs != [] && Small(n, d, inputs) && !FeesCover(n, d, inputs)
    ensures !SumBuysAll(n, d, resIn, resOut, inputs)
  {
    var (gross, fees) := (GrossSum(inputs), FeeSum(n, d, inputs));
    SmallSum(n, d, inputs);
    SwapFeeDefined(n, d, gross);
    var net := gross - SwapFee(n, d, gross).value;
    WitnessFits(|inputs|, net, fees, gross);
    resIn, resOut := WitnessReserve(net, fees, gross), U64_LIMIT - 1;
    SplittingPaysAt(n, d, inputs, resIn, resOut, net);
  }

  lemma SplittingPaysAt(n: u64, d: u64, inputs: seq<u64>, resIn: u64, resOut: u64, net: u64)
    requires GrossSum(inputs) < U64_LIMIT && SwapFee(n, d, GrossSum(inputs)) == Some(GrossSum(inputs) - net)
    requires n < d && FeeSum(n, d, inputs) < GrossSum(inputs) - net
    requires 4 * |inputs| * (net * FeeSum(n, d, inputs) + GrossSum(inputs)) < resOut
    requires resIn == WitnessReserve(net, FeeSum(n, d, inputs), GrossSum(inputs))
    requires 0 < resIn < U64_LIMIT - GrossSum(inputs)
    ensures !SumBuysAll(n, d, resIn, resOut, inputs)
  {
    SwapAllAtLeast(n, d, resIn, resOut, inputs);
    SplitBeatsQuote(n, d, inputs, resIn, resOut, net, SwapAll(n, d, resIn, resOut, inputs).value);
  }

  lemma SplitBeatsQuote(n: u64, d: u64, inputs: seq<u64>, resIn: u64, resOut: u64, net: u64, split: nat)
    requires GrossSum(inputs) < U64_LIMIT && SwapFee(n, d, GrossSum(inputs)) == Some(GrossSum(inputs) - net)
    requires FeeSum(n, d, inputs) < GrossSum(inputs) - net
    requires 4 * |inputs| * (net * FeeSum(n, d, inputs) + GrossSum(inputs)) < resOut
    requires resIn == WitnessReserve(net, FeeSum(n, d, inputs), GrossSum(inputs))
    requires (split + |inputs|) * (resIn + GrossSum(inputs)) >= resOut * (GrossSum(inputs) - FeeSum(n, d, inputs))
    ensures QuoteBaseIn(n, d, resIn, resOut, GrossSum(inputs)).Ok?
    ensures split > QuoteBaseIn(n, d, resIn, resOut, GrossSum(inputs)).value.out
  {
    var (gross, fees) := (GrossSum(inputs), FeeSum(n, d, inputs));
    QuoteAtMost(n, d, resIn, resOut, gross, net);
    SplitBeatsSum(net, fees, gross - net - fees, |inputs|, resOut, split,
                  QuoteBaseIn(n, d, resIn, resOut, gross).value.out);
  }

  lemma QuoteAtMost(n: u64, d: u64, resIn: u64, resOut: u64, a: u64, net: u64)
    requires SwapFee(n, d, a) == Some(a - net) && net <= a && resIn + net > 0
    ensures QuoteBaseIn(n, d, resIn, resOut, a).Ok?
    ensures QuoteBaseIn(n, d, resIn, resOut, a).value.out * (resIn + net) <= resOut * net
  {
    AmountOutBound(resIn, resOut, net);
    FloorAdjoint(resOut * net, resIn + net, AmountOut(resIn, resOut, net).value);
  }

  /** Splitting a list of small amounts pays at no reserves exactly when the fees of the pieces
      cover the fee of the sum. */
  lemma SplittingNeverPaysIff(n: u64, d: u64, inputs: seq<u64>)
    requires n < d && inputs != [] && Small(n, d, inputs)
    ensures (forall resIn: u64, resOut: u64 :: SumBuysAll(n, d, resIn, resOut, inputs)) <==> FeesCover(n, d, inputs)
  {
    if FeesCover(n, d, inputs) {
      forall resIn: u64, resOut: u64
        ensures SumBuysAll(n, d, resIn, resOut, inputs)
      {
        CoveredSplittingNeverPays(n, d, resIn, resOut, inputs);
      }
    } else {
      var resIn, resOut := UncoveredSplittingPays(n, d, inputs);
    }
  }

  /** The bound on the amounts is needed for that: these pieces fill the pool so far that no reserves
      are left at which splitting pays, although their fees do not cover. */
  lemma LargeSplittingNeverPays(resIn: u64, resOut: u64)
    ensures var inputs := [U64_LIMIT - 4, 1];
            !FeesCover(1, 4, inputs) && SumBuysAll(1, 4, resIn, resOut, inputs)
  {
    var a: u64, b: u64 := U64_LIMIT - 4, U64_LIMIT - 3;
    var inputs := [a, 1];
    assert inputs[1..] == [1] && [1][1..] == [];
    assert GrossSum(inputs) == b && FeeSum(1, 4, inputs) == U64_LIMIT / 4 - 1;
    assert SwapFee(1, 4, b) == Some(U64_LIMIT / 4);
    var net: u64 := U64_LIMIT - 4 - (U64_LIMIT / 4 - 1);
    if SwapAll(1, 4, resIn, resOut, inputs).Some? {
      SwapAllFits(1, 4, resIn, resOut, inputs);
      LargePieces(resIn, resOut, net);
    }
  }

  lemma LargePieces(resIn: u64, resOut: u64, net: u64)
    requires resIn <= 2 && net == U64_LIMIT / 4 * 3 - 3
    ensures SwapAll(1, 4, resIn, resOut, [U64_LIMIT - 4, 1]).Some?
    ensures QuoteBaseIn(1, 4, resIn, resOut, U64_LIMIT - 3).Ok?
    ensures SwapAll(1, 4, resIn, resOut, [U64_LIMIT - 4, 1]).value
            == QuoteBaseIn(1, 4, resIn, resOut, U64_LIMIT - 3).value.out
  {
    var a: u64 := U64_LIMIT - 4;
    AmountOutBound(resIn, resOut, net);
    var out := AmountOut(resIn, resOut, net).value;
    assert QuoteBaseIn(1, 4, resIn, resOut, a) == Ok(BaseInQuote(U64_LIMIT / 4 - 1, net, out));
    LittleLeft(resIn, resOut, net, out);
    assert QuoteBaseIn(1, 4, resIn + a, resOut - out, 1) == Ok(BaseInQuote(0, 1, 0));
    assert [a, 1][1..] == [1] && [1][1..] == [];
    assert SwapAll(1, 4, resIn + a, resOut - out, [1]) == Some(0);
  }

  lemma LittleLeft(x: u64, y: u64, net: u64, out: u64)
    requires x <= 2 && net == U64_LIMIT / 4 * 3 - 3 && out == y * net / (x + net) && out <= y
    ensures y - out < U64_LIMIT - 4
  {
    FloorAdjoint(y * net, x + net, out + 1);
    assert (out + 1) * (x + net) == out * (x + net) + x + net;
    Distribute(y - out, out, x + net);
    assert y * (x + net) == y * x + y * net;
    MulLe(x, 2, y);
    if y - out >= U64_LIMIT - 4 {
      MulLe(U64_LIMIT - 4, y - out, x + net);
    }
  }

  lemma {:induction false} SumNotDust(n: u64, d: u64, inputs: seq<u64>)
    requires inputs != [] && (forall a <- inputs :: !Dust(n, d, a))
    requires GrossSum(inputs) < U64_LIMIT
    ensures !Dust(n, d, GrossSum(inputs))
  {
    var a, rest := inputs[0], inputs[1..];
    assert a in inputs;
    var s := GrossSum(rest);
    assert (a + s) * n == a * n + s * n;
    MulLe(0, a, n);
    MulLe(0, s, n);
    if rest == [] {
      assert s == 0;
    } else {
      SumNotDust(n, d, rest);
    }
  }

  /** True-ceiling fees on two inputs leave at most what one fee on the sum leaves. */
  lemma FeeOfSum(n: u64, d: u64, a: u64, b: u64)
    requires n < d && a + b < U64_LIMIT
    requires !Dust(n, d, a) && !Dust(n, d, b) && !Dust(n, d, a + b)
    ensures SwapFee(n, d, a).Some? && SwapFee(n, d, b).Some? && SwapFee(n, d, a + b).Some?
    ensures a - SwapFee(n, d, a).value + b - SwapFee(n, d, b).value <= a + b - SwapFee(n, d, a + b).value
  {
    SwapFeeDefined(n, d, a);
    SwapFeeDefined(n, d, b);
    var k, l := a - SwapFee(n, d, a).value, b - SwapFee(n, d, b).value;
    NetIsFloor(n, d, a, k);
    NetIsFloor(n, d, b, l);
    NetIsFloor(n, d, a + b, k + l);
    Distribute(k, l, d);
    Distribute(a, b, d - n);
  }

  lemma Distribute(a: int, b: int, c: int)
    ensures (a + b) * c == a * c + b * c
  {
  }

  /** Pieces that are all charged a true ceiling cover. */
  lemma {:induction false} ChargedPiecesCover(n: u64, d: u64, inputs: seq<u64>)
    requires n < d && inputs != [] && GrossSum(inputs) < U64_LIMIT
    requires forall a <- inputs :: !Dust(n, d, a)
    ensures FeesCover(n, d, inputs)
  {
    var a, rest := inputs[0], inputs[1..];
    assert a in inputs;
    SwapFeeDefined(n, d, a);
    if rest == [] {
      assert GrossSum(rest) == 0;
    } else {
      ChargedPiecesCover(n, d, rest);
      SumNotDust(n, d, rest);
      SumNotDust(n, d, inputs);
      FeeOfSum(n, d, a, GrossSum(rest));
    }
  }

  lemma {:induction false} SwapAllFits(n: u64, d: u64, resIn: u64, resOut: u64, inputs: seq<u64>)
    requires SwapAll(n, d, resIn, resOut, inputs).Some?
    ensures resIn + GrossSum(inputs) < U64_LIMIT
    decreases |inputs|
  {
    if inputs != [] {
      var quote := QuoteBaseIn(n, d, resIn, resOut, inputs[0]).value;
      SwapAllFits(n, d, resIn + inputs[0], resOut - quote.out, inputs[1..]);
    }
  }

  /** Splitting never pays, whatever the size, as long as no piece is small enough to be spared the fee. */
  lemma SplittingSwapsNeverPays(n: u64, d: u64, resIn: u64, resOut: u64, inputs: seq<u64>)
    requires n < d && inputs != []
    requires forall a <- inputs :: !Dust(n, d, a)
    requires SwapAll(n, d, resIn, resOut, inputs).Some?
    ensures resIn + GrossSum(inputs) < U64_LIMIT
    ensures QuoteBaseIn(n, d, resIn, resOut, GrossSum(inputs)).Ok?
    ensures SwapAll(n, d, resIn, resOut, inputs).value
            <= QuoteBaseIn(n, d, resIn, resOut, GrossSum(inputs)).value.out
  {
    SwapAllFits(n, d, resIn, resOut, inputs);
    ChargedPiecesCover(n, d, inputs);
    CoveredSplittingNeverPays(n, d, resIn, resOut, inputs);
  }

  /** With pieces that are spared the fee, splitting does pay. */
  lemma SplittingDustPays()
    ensures SwapAll(25, 10000, 1000000, 1000000000, [199, 199]) == Some(397841)
    ensures QuoteBaseIn(25, 10000, 1000000, 1000000000, 398) == Ok(BaseInQuote(1, 397, 396842))
  {
    assert 1000000000 * 199 / 1000199 == 198960;
    assert 999801040 * 199 / 1000398 == 198881;
    assert 1000000000 * 397 / 1000397 == 396842;
    assert [199, 199][1..] == [199] && [199][1..] == [];
    assert SwapAll(25, 10000, 1000199, 999801040, [199]) == Some(198881);
  }

  // ---------------------------------------------------------------- exact-out

  function OutSum(outs: seq<u64>): nat {
    if outs == [] then 0 else outs[0] + OutSum(outs[1..])
  }

  /** The total charge, fees included, of a list of exact-out swaps traded in order, nothing if one is
      refused; the handler refuses a zero charge. */
  function ChargeAll(n: u64, d: u64, resIn: u64, resOut: u64, outs: seq<u64>): Option<nat>
    decreases |outs|
  {
    if outs == [] then Some(0)
    else
      match QuoteBaseOut(n, d, resIn, resOut, outs[0])
      case Err(_) => None
      case Ok(quote) =>
        if quote.after == 0 || resIn + quote.after >= U64_LIMIT then None
        else
          match ChargeAll(n, d, resIn + quote.after, resOut - outs[0], outs[1..])
          case None => None
          case Some(rest) => Some(quote.after + rest)
  }

  /** The prices before fees of the same swaps. */
  function PriceAll(n: u64, d: u64, resIn: u64, resOut: u64, outs: seq<u64>): nat
    requires ChargeAll(n, d, resIn, resOut, outs).Some?
    decreases |outs|
  {
    if outs == [] then 0
    else
      var quote := QuoteBaseOut(n, d, resIn, resOut, outs[0]).value;
      quote.before + PriceAll(n, d, resIn + quote.after, resOut - outs[0], outs[1..])
  }

  lemma {:induction false} OutputsFit(n: u64, d: u64, resIn: u64, resOut: u64, outs: seq<u64>)
    requires ChargeAll(n, d, resIn, resOut, outs).Some?
    ensures OutSum(outs) <= resOut && (outs != [] ==> OutSum(outs) < resOut)
    decreases |outs|
  {
    if outs != [] {
      AcceptedBaseOutIsCeiling(n, d, resIn, resOut, outs[0]);
      OutputsFit(n, d, resIn + QuoteBaseOut(n, d, resIn, resOut, outs[0]).value.after, resOut - outs[0], outs[1..]);
    }
  }

  /** The prices alone keep the product from start to end ... */
  lemma {:induction false} PricesKeepProduct(n: u64, d: u64, resIn: u64, resOut: u64, outs: seq<u64>)
    requires ChargeAll(n, d, resIn, resOut, outs).Some? && n < d && OutSum(outs) <= resOut
    ensures (resIn + PriceAll(n, d, resIn, resOut, outs)) * (resOut - OutSum(outs)) >= resIn * resOut
    decreases |outs|
  {
    if outs != [] {
      var out, rest := outs[0], outs[1..];
      var quote := QuoteBaseOut(n, d, resIn, resOut, out).value;
      OnePrice(n, d, resIn, resOut, out);
      PricesKeepProduct(n, d, resIn + quote.after, resOut - out, rest);
      var prices := PriceAll(n, d, resIn + quote.after, resOut - out, rest);
      OnePriceMore(resIn, resOut, out, quote.before, quote.after, prices, OutSum(rest));
    }
  }

  /** ... and the charges are the prices with the fee on top. */
  lemma {:induction false} ChargesCoverFees(n: u64, d: u64, resIn: u64, resOut: u64, outs: seq<u64>)
    requires ChargeAll(n, d, resIn, resOut, outs).Some? && n < d
    ensures resIn + ChargeAll(n, d, resIn, resOut, outs).value < U64_LIMIT
    ensures PriceAll(n, d, resIn, resOut, outs) * d <= ChargeAll(n, d, resIn, resOut, outs).value * (d - n)
    decreases |outs|
  {
    if outs != [] {
      var out, rest := outs[0], outs[1..];
      var quote := QuoteBaseOut(n, d, resIn, resOut, out).value;
      OnePrice(n, d, resIn, resOut, out);
      ChargesCoverFees(n, d, resIn + quote.after, resOut - out, rest);
      Distribute(quote.before, PriceAll(n, d, resIn + quote.after, resOut - out, rest), d);
      Distribute(quote.after, ChargeAll(n, d, resIn + quote.after, resOut - out, rest).value, d - n);
    }
  }

  lemma OnePrice(n: u64, d: u64, resIn: u64, resOut: u64, out: u64)
    requires n < d && QuoteBaseOut(n, d, resIn, resOut, out).Ok?
    requires QuoteBaseOut(n, d, resIn, resOut, out).value.after != 0
    ensures var quote := QuoteBaseOut(n, d, resIn, resOut, out).value;
            && out < resOut && quote.before <= quote.after
            && (resIn + quote.before) * (resOut - out) >= resIn * resOut
            && quote.before * d <= quote.after * (d - n)
  {
    AcceptedBaseOutIsCeiling(n, d, resIn, resOut, out);
    var quote := QuoteBaseOut(n, d, resIn, resOut, out).value;
    AmountInIsLeast(resIn, resOut, out, quote.before);
    CeilAdjoint(quote.before * d, d - n, quote.after);
  }

  lemma OnePriceMore(x: nat, y: nat, out: nat, before: nat, after: nat, prices: nat, rest: nat)
    requires out + rest <= y && before <= after
    requires (x + before) * (y - out) >= x * y
    requires (x + after + prices) * (y - out - rest) >= (x + after) * (y - out)
    ensures (x + before + prices) * (y - (out + rest)) >= x * y
  {
    var (extra, left) := (after - before, y - out - rest);
    Distribute(x + before + prices, extra, left);
    Distribute(x + before, extra, y - out);
    MulLe(left, y - out, extra);
  }

  /** Splitting an exact-out swap never pays, whatever the fee and with no exception for dust: if a list
      of swaps is accepted, one swap of the summed output is priced too, and costs at most as much. */
  lemma SplittingExactOutNeverPays(n: u64, d: u64, resIn: u64, resOut: u64, outs: seq<u64>)
    requires outs != [] && ChargeAll(n, d, resIn, resOut, outs).Some?
    ensures OutSum(outs) < resOut && QuoteBaseOut(n, d, resIn, resOut, OutSum(outs)).Ok?
    ensures 0 < QuoteBaseOut(n, d, resIn, resOut, OutSum(outs)).value.after
    ensures QuoteBaseOut(n, d, resIn, resOut, OutSum(outs)).value.after
            <= ChargeAll(n, d, resIn, resOut, outs).value
  {
    AcceptedBaseOutIsCeiling(n, d, resIn, resOut, outs[0]);
    OutputsFit(n, d, resIn, resOut, outs);
    PricesKeepProduct(n, d, resIn, resOut, outs);
    ChargesCoverFees(n, d, resIn, resOut, outs);
    SumIsPriced(resIn, resOut, outs[0], OutSum(outs));
    SumCostsAtMost(n, d, resIn, resOut, OutSum(outs), PriceAll(n, d, resIn, resOut, outs),
                   ChargeAll(n, d, resIn, resOut, outs).value);
  }

  lemma SumCostsAtMost(n: u64, d: u64, resIn: u64, resOut: u64, sum: u64, prices: nat, charges: u64)
    requires n < d && AmountIn(resIn, resOut, sum).Some? && AmountIn(resIn, resOut, sum).value != 0
    requires sum < resOut && (resIn + prices) * (resOut - sum) >= resIn * resOut && prices * d <= charges * (d - n)
    ensures QuoteBaseOut(n, d, resIn, resOut, sum).Ok?
    ensures 0 < QuoteBaseOut(n, d, resIn, resOut, sum).value.after <= charges
  {
    var before := AmountIn(resIn, resOut, sum).value;
    AmountInIsLeast(resIn, resOut, sum, prices);
    MulLe(before, prices, d);
    PriceBelowCharge(n, d, before, charges);
    ChargeOnPrice(n, d, before, charges);
  }

  lemma PriceBelowCharge(n: u64, d: u64, before: nat, charges: u64)
    requires n < d && before * d <= charges * (d - n)
    ensures before <= charges
  {
    MulLe(d - n, d, charges);
    MulCancel(before, charges, d);
  }

  /** Once an output has a nonzero price, so has every larger one below the reserve. */
  lemma SumIsPriced(resIn: u64, resOut: u64, out: u64, sum: u64)
    requires AmountIn(resIn, resOut, out).Some? && AmountIn(resIn, resOut, out).value != 0
    requires out <= sum < resOut
    ensures AmountIn(resIn, resOut, sum).Some? && AmountIn(resIn, resOut, sum).value != 0
  {
    MulLe(out, sum, resIn);
    Mul64(resIn, out);
    Mul64(resIn, sum);
    LargerIsPriced(resIn * out, resOut - out, resIn * sum, resOut - sum);
  }

  lemma LargerIsPriced(a: u128, b: u64, a': u128, b': u64)
    requires CeilDivPair(a, b).Some? && CeilDivPair(a, b).value.0 != 0
    requires a <= a' && 0 < b' <= b
    ensures CeilDivPair(a', b').Some? && CeilDivPair(a', b').value.0 != 0
  {
    if a' >= b' {
      CeilAdjoint(a', b', 0);
    }
  }

  lemma ChargeOnPrice(n: u64, d: u64, before: u64, charges: u64)
    requires n < d && 0 < before && before * d <= charges * (d - n)
    ensures before * d < U128_LIMIT && 0 <= before * d
    ensures CeilDivPair(before * d, d - n).Some?
    ensures before <= CeilDivPair(before * d, d - n).value.0 <= charges
  {
    Mul64(before, d);
    MulLe(1, before, d);
    CeilAdjoint(before * d, d - n, charges);
    CeilAdjoint(before * d, d - n, before - 1);
    assert (before - 1) * (d - n) < before * d;
  }
}
