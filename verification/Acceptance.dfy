/** When each instruction is accepted, with which error it is refused otherwise, and the exact state it
    leaves: on its inputs alone, for every pool, whatever pnl or scales it carries. */
module Acceptance {
  import opened Machine
  import opened Arith
  import opened Bytes
  import opened CeilDiv
  import opened Quotes
  import opened Decimals
  import opened InitialLp
  import opened PoolState
  import opened Steps
  import opened Growth
  import opened Runs

  // ---------------------------------------------------------------- what is priced

  /** Statuses in which the handlers read the order book. */
  predicate OnBook(s: PoolState) {
    s.amm.status == 1 || s.amm.status == 5
  }

  function PcAll(s: PoolState): nat {
    s.vaultPc + if OnBook(s) then s.bookPc else 0
  }

  function CoinAll(s: PoolState): nat {
    s.vaultCoin + if OnBook(s) then s.bookCoin else 0
  }

  /** A total less the recorded pnl, which is cut to 64 bits, but not below zero. */
  function LessPnl(total: nat, pnl: u128): nat {
    if total < pnl % U64_LIMIT then 0 else total - pnl % U64_LIMIT
  }

  /** What is owed once that pnl is added, capped. */
  function MoreOwed(owed: u64, pnl: u128): nat {
    if owed + pnl % U64_LIMIT >= U64_LIMIT then U64_LIMIT - 1 else owed + pnl % U64_LIMIT
  }

  /** An amount in the pool's own scale. */
  function Scaled(amount: nat, decimals: u64, scale: u64): nat {
    MulLe(0, amount, scale);
    FloorAdjoint(amount * scale, Pow10(decimals), 0);
    amount * scale / Pow10(decimals)
  }

  /** Why the totals cannot be read: pc is looked at first. */
  function TotalsRefusal(s: PoolState): Option<Error> {
    if PcAll(s) >= U64_LIMIT then Some(CheckedAddOverflow)
    else if PcAll(s) < s.amm.stateData.needTakePnlPc then Some(CheckedSubOverflow)
    else if CoinAll(s) >= U64_LIMIT then Some(CheckedAddOverflow)
    else if CoinAll(s) < s.amm.stateData.needTakePnlCoin then Some(CheckedSubOverflow)
    else None
  }

  /** What is priced before pnl: the vaults, with the book in the statuses that read it, less what is
      set aside for pnl. */
  lemma TotalsAre(s: PoolState)
    ensures match TotalsRefusal(s)
            case Some(e) => Totals(s, OrderbookPermission(s.amm.status)) == Err(e)
            case None => Totals(s, OrderbookPermission(s.amm.status))
                         == Ok((PcAll(s) - s.amm.stateData.needTakePnlPc, CoinAll(s) - s.amm.stateData.needTakePnlCoin))
  {
  }

  predicate ScalesFit(s: PoolState) {
    Pow10(s.amm.pcDecimals) < U128_LIMIT && Pow10(s.amm.coinDecimals) < U128_LIMIT
  }

  lemma ScaledIs(amount: u64, decimals: u64, scale: u64)
    ensures NormalizeDecimalV2(amount, decimals, scale).Ok? <==> Pow10(decimals) < U128_LIMIT
    ensures Pow10(decimals) < U128_LIMIT ==>
              NormalizeDecimalV2(amount, decimals, scale) == Ok(Scaled(amount, decimals, scale))
    ensures Pow10(decimals) >= U128_LIMIT ==> NormalizeDecimalV2(amount, decimals, scale) == Err(Panicked)
  {
  }

  // ---------------------------------------------------------------- withdraw

  /** The error of a withdrawal, or nothing if it is accepted. */
  function WithdrawRefusal(s: PoolState, args: WithdrawArgs, env: LiquidityEnv): Option<Error> {
    if WithdrawCheckRefusal(s, args, env).Some? then WithdrawCheckRefusal(s, args, env)
    else
      var (coin, pc) := Payout(s, args.amount);
      if XLeft(s, pc) < 0 || YLeft(s, coin) < 0 then Some(Panicked) else None
  }

  /** The checks before anything moves. */
  function WithdrawCheckRefusal(s: PoolState, args: WithdrawArgs, env: LiquidityEnv): Option<Error> {
    var status := s.amm.status;
    if status == 0 || status == 2 then Some(InvalidStatus)
    else if status > 7 then Some(Panicked)
    else if args.amount > env.userLp then Some(InsufficientFunds)
    else if args.amount > env.lpSupply || args.amount >= s.amm.lpAmount then Some(NotAllowZeroLP)
    else if WithdrawTotalsRefusal(s).Some? then WithdrawTotalsRefusal(s)
    else
      var (coin, pc) := Payout(s, args.amount);
      if coin == 0 || pc == 0 then Some(InvalidInput)
      else if coin >= s.vaultCoin || pc >= s.vaultPc then Some(TakePnlError)
      else if args.minCoinAmount.Some? && args.minPcAmount.Some?
              && (coin < args.minCoinAmount.value || pc < args.minPcAmount.value) then Some(ExceededSlippage)
      else None
  }

  /** Why a withdrawal cannot be priced: it settles before it reads the totals. */
  function WithdrawTotalsRefusal(s: PoolState): Option<Error> {
    if PcAll(s) >= U64_LIMIT || CoinAll(s) >= U64_LIMIT then Some(TransferRejected)
    else if PcAll(s) < s.amm.stateData.needTakePnlPc || CoinAll(s) < s.amm.stateData.needTakePnlCoin
    then Some(CheckedSubOverflow)
    else if !ScalesFit(s) then Some(Panicked)
    else None
  }

  /** The pnl a withdrawal takes off: none in status WithdrawOnly. */
  function PnlX(s: PoolState): u128 {
    if s.amm.status == 3 then 0 else s.target.calcPnlX
  }

  function PnlY(s: PoolState): u128 {
    if s.amm.status == 3 then 0 else s.target.calcPnlY
  }

  /** The shares (coin, pc) of an LP amount in the totals after pnl. */
  function Payout(s: PoolState, amount: nat): (nat, nat)
    requires amount < s.amm.lpAmount
    requires PcAll(s) >= s.amm.stateData.needTakePnlPc && CoinAll(s) >= s.amm.stateData.needTakePnlCoin
  {
    (Share(LessPnl(CoinAll(s) - s.amm.stateData.needTakePnlCoin, PnlY(s)), amount, s.amm.lpAmount),
     Share(LessPnl(PcAll(s) - s.amm.stateData.needTakePnlPc, PnlX(s)), amount, s.amm.lpAmount))
  }

  /** The part of a total that an LP amount stands for, rounded down. */
  function Share(total: nat, amount: nat, lp: nat): (share: nat)
    requires amount < lp
    ensures share * lp <= total * amount < (share + 1) * lp
    ensures share <= total
  {
    var share := total * amount / lp;
    MulLe(0, total, amount);
    FloorAdjoint(total * amount, lp, 0);
    FloorAdjoint(total * amount, lp, share);
    FloorAdjoint(total * amount, lp, share + 1);
    FloorAdjoint(total * amount, lp, total + 1);
    MulLe(amount, lp, total);
    assert (total + 1) * lp == total * lp + lp;
    share
  }

  /** The pnl records after the payout: the scaled total less the scaled payout and the pnl taken. */
  function XLeft(s: PoolState, pc: nat): int
    requires PcAll(s) >= s.amm.stateData.needTakePnlPc
  {
    Scaled(PcAll(s) - s.amm.stateData.needTakePnlPc, s.amm.pcDecimals, s.amm.sysDecimalValue)
    - Scaled(pc, s.amm.pcDecimals, s.amm.sysDecimalValue) - PnlX(s)
  }

  function YLeft(s: PoolState, coin: nat): int
    requires CoinAll(s) >= s.amm.stateData.needTakePnlCoin
  {
    Scaled(CoinAll(s) - s.amm.stateData.needTakePnlCoin, s.amm.coinDecimals, s.amm.sysDecimalValue)
    - Scaled(coin, s.amm.coinDecimals, s.amm.sysDecimalValue) - PnlY(s)
  }

  /** The state an accepted withdrawal of `coin` and `pc` leaves. */
  predicate WithdrawLeaves(s: PoolState, t: PoolState, amount: nat, coin: nat, pc: nat)
    requires PcAll(s) >= s.amm.stateData.needTakePnlPc && CoinAll(s) >= s.amm.stateData.needTakePnlCoin
  {
    && t.vaultCoin == CoinAll(s) - coin && t.vaultPc == PcAll(s) - pc
    && t.bookCoin == (if OnBook(s) then 0 else s.bookCoin) && t.bookPc == (if OnBook(s) then 0 else s.bookPc)
    && t.amm.lpAmount == s.amm.lpAmount - amount
    && t.amm.stateData.totalPnlCoin == MoreOwed(s.amm.stateData.totalPnlCoin, PnlY(s))
    && t.amm.stateData.totalPnlPc == MoreOwed(s.amm.stateData.totalPnlPc, PnlX(s))
    && t.target.calcPnlX == XLeft(s, pc) && t.target.calcPnlY == YLeft(s, coin)
    && t.amm == s.amm.(lpAmount := t.amm.lpAmount,
                       stateData := s.amm.stateData.(totalPnlCoin := t.amm.stateData.totalPnlCoin,
                                                     totalPnlPc := t.amm.stateData.totalPnlPc))
    && t.target == s.target.(calcPnlX := t.target.calcPnlX, calcPnlY := t.target.calcPnlY)
  }

  lemma ShareIsFloor(total: u64, amount: u64, lp: u64)
    requires amount < lp
    ensures ExchangeFloor(total, amount, lp) == Ok(Share(total, amount, lp))
  {
  }

  lemma WithdrawQuoteIs(lp: u64, pc: u64, coin: u64, amount: u64)
    requires amount < lp
    ensures WithdrawQuote(lp, (pc, coin), amount) == Ok(WithdrawAmounts(Share(coin, amount, lp), Share(pc, amount, lp)))
  {
    ShareIsFloor(pc, amount, lp);
    ShareIsFloor(coin, amount, lp);
  }

  lemma WithdrawTotalsAre(s: PoolState, totals: (u64, u64))
    ensures WithdrawTotals(s, totals) == (LessPnl(totals.0, PnlX(s)), LessPnl(totals.1, PnlY(s)))
  {
  }

  lemma PriceWithdrawIs(s: PoolState, amount: u64)
    requires amount < s.amm.lpAmount
    ensures match WithdrawTotalsRefusal(s)
            case Some(e) => PriceWithdraw(s, amount) == Err(e)
            case None => PriceWithdraw(s, amount) == Ok(WithdrawAmounts(Payout(s, amount).0, Payout(s, amount).1))
  {
    TotalsAre(s);
    if TotalsRefusal(s).None? {
      var pc: u64 := PcAll(s) - s.amm.stateData.needTakePnlPc;
      var coin: u64 := CoinAll(s) - s.amm.stateData.needTakePnlCoin;
      WithdrawTotalsAre(s, (pc, coin));
      ScaledIs(pc, s.amm.pcDecimals, s.amm.sysDecimalValue);
      ScaledIs(coin, s.amm.coinDecimals, s.amm.sysDecimalValue);
      WithdrawQuoteIs(s.amm.lpAmount, LessPnl(pc, PnlX(s)), LessPnl(coin, PnlY(s)), amount);
    }
  }

  lemma WithdrawCheckedIs(s: PoolState, args: WithdrawArgs, env: LiquidityEnv)
    ensures match WithdrawCheckRefusal(s, args, env)
            case Some(e) => WithdrawChecked(s, args, env) == Err(e)
            case None =>
              WithdrawChecked(s, args, env)
              == Ok(WithdrawAmounts(Payout(s, args.amount).0, Payout(s, args.amount).1))
  {
    if args.amount < s.amm.lpAmount {
      PriceWithdrawIs(s, args.amount);
    }
  }

  /** A withdrawal of any pool: accepted exactly when the table names no error, refused with the error
      it names, and leaving exactly the state described. */
  lemma WithdrawIs(s: PoolState, args: WithdrawArgs, env: LiquidityEnv)
    ensures match WithdrawRefusal(s, args, env)
            case Some(e) => Withdraw(s, args, env) == Err(e)
            case None =>
              var (coin, pc) := Payout(s, args.amount);
              && Withdraw(s, args, env).Ok?
              && WithdrawLeaves(s, Withdraw(s, args, env).value, args.amount, coin, pc)
  {
    WithdrawCheckedIs(s, args, env);
    if WithdrawCheckRefusal(s, args, env).None? {
      WithdrawPays(s, args, env);
      PayOutIs(s, args.amount, WithdrawChecked(s, args, env).value);
    }
  }

  lemma WithdrawPays(s: PoolState, args: WithdrawArgs, env: LiquidityEnv)
    requires WithdrawCheckRefusal(s, args, env).None?
    ensures TotalsRefusal(s).None? && ScalesFit(s) && args.amount < s.amm.lpAmount
    ensures Payout(s, args.amount).0 < s.vaultCoin && Payout(s, args.amount).1 < s.vaultPc
  {
  }

  lemma PayOutIs(s: PoolState, amount: u64, a: WithdrawAmounts)
    requires TotalsRefusal(s).None? && ScalesFit(s) && amount < s.amm.lpAmount
    requires a.coin < s.vaultCoin && a.pc < s.vaultPc && (a.coin, a.pc) == Payout(s, amount)
    ensures if XLeft(s, a.pc) < 0 || YLeft(s, a.coin) < 0 then PayOut(s, amount, a) == Err(Panicked)
            else PayOut(s, amount, a).Ok? && WithdrawLeaves(s, PayOut(s, amount, a).value, amount, a.coin, a.pc)
  {
    TotalsAre(s);
    var totals := Totals(s, OrderbookPermission(s.amm.status)).value;
    ScaledIs(totals.0, s.amm.pcDecimals, s.amm.sysDecimalValue);
    ScaledIs(totals.1, s.amm.coinDecimals, s.amm.sysDecimalValue);
    ScaledIs(a.pc, s.amm.pcDecimals, s.amm.sysDecimalValue);
    ScaledIs(a.coin, s.amm.coinDecimals, s.amm.sysDecimalValue);
    ScaledMono(a.pc, totals.0, s.amm.pcDecimals, s.amm.sysDecimalValue);
    ScaledMono(a.coin, totals.1, s.amm.coinDecimals, s.amm.sysDecimalValue);
  }

  lemma ScaledMono(a: nat, b: nat, decimals: u64, scale: u64)
    requires a <= b
    ensures Scaled(a, decimals, scale) <= Scaled(b, decimals, scale)
  {
    MulLe(a, b, scale);
    FloorAdjoint(a * scale, Pow10(decimals), Scaled(a, decimals, scale));
    FloorAdjoint(b * scale, Pow10(decimals), Scaled(a, decimals, scale));
  }

  // ---------------------------------------------------------------- deposit

  /** What `checked_ceil_div` makes of a quotient: the ceiling from the divisor upwards, half up below. */
  function Rounded(a: nat, b: nat): nat
    requires b > 0
  {
    if a >= b then Ceil(a, b) else if 2 * a >= b then 1 else 0
  }

  lemma RoundedIs(a: u128, b: u64)
    requires b > 0
    ensures CeilDivPair(a, b).Some? && CeilDivPair(a, b).value.0 == Rounded(a, b)
  {
  }

  /** What a deposit of `given` on one side takes on the other side, and the LP it mints. */
  datatype Terms = Terms(taken: nat, minted: nat)

  function DepositTerms(lp: nat, given: nat, total: nat, other: nat): Terms
    requires total > 0
  {
    MulLe(0, given, other);
    MulLe(0, lp, given);
    FloorAdjoint(lp * given, total, 0);
    Terms(Rounded(given * other, total), lp * given / total)
  }

  /** The error of a deposit, or nothing if it is accepted. */
  function DepositRefusal(s: PoolState, args: DepositArgs, env: LiquidityEnv): Option<Error> {
    if DepositCheckRefusal(s, args, env).Some? then DepositCheckRefusal(s, args, env)
    else
      var terms := TermsFor(s, args);
      TakingRefusal(s, env, Taken(args, terms).0, Taken(args, terms).1, terms.minted)
  }

  /** The checks before anything moves. */
  function DepositCheckRefusal(s: PoolState, args: DepositArgs, env: LiquidityEnv): Option<Error> {
    var status := s.amm.status;
    if status == 0 then Some(InvalidStatus)
    else if args.maxCoinAmount == 0 || args.maxPcAmount == 0 then Some(InvalidInput)
    else if status > 7 then Some(Panicked)
    else if status == 2 || status == 3 then Some(InvalidStatus)
    else if DepositPriceRefusal(s, args).Some? then DepositPriceRefusal(s, args)
    else
      var (coin, pc) := Taken(args, TermsFor(s, args));
      if coin > env.userCoin || pc > env.userPc then Some(InsufficientFunds)
      else if coin == 0 || pc == 0 || TermsFor(s, args).minted == 0 then Some(InvalidInput)
      else None
  }

  /** Why a deposit cannot be priced, or misses the caller's limits. */
  function DepositPriceRefusal(s: PoolState, args: DepositArgs): Option<Error> {
    if TotalsRefusal(s).Some? then TotalsRefusal(s)
    else if !ScalesFit(s) then Some(Panicked)
    else if s.amm.lpAmount == 0 then Some(NotAllowZeroLP)
    else if (if args.baseSide == 0 then PricedForDeposit(s).0 else PricedForDeposit(s).1) == 0 then Some(Panicked)
    else TermsRefusal(args, TermsFor(s, args))
  }

  /** The totals (coin, pc) after pnl that a deposit is priced on. */
  function PricedForDeposit(s: PoolState): (nat, nat)
    requires TotalsRefusal(s).None?
  {
    (LessPnl(CoinAll(s) - s.amm.stateData.needTakePnlCoin, s.target.calcPnlY),
     LessPnl(PcAll(s) - s.amm.stateData.needTakePnlPc, s.target.calcPnlX))
  }

  function TermsFor(s: PoolState, args: DepositArgs): Terms
    requires TotalsRefusal(s).None?
    requires (if args.baseSide == 0 then PricedForDeposit(s).0 else PricedForDeposit(s).1) > 0
  {
    var (coin, pc) := PricedForDeposit(s);
    if args.baseSide == 0 then DepositTerms(s.amm.lpAmount, args.maxCoinAmount, coin, pc)
    else DepositTerms(s.amm.lpAmount, args.maxPcAmount, pc, coin)
  }

  /** The amounts (coin, pc) taken: in full on the base side. */
  function Taken(args: DepositArgs, terms: Terms): (nat, nat) {
    if args.baseSide == 0 then (args.maxCoinAmount, terms.taken) else (terms.taken, args.maxPcAmount)
  }

  function TermsRefusal(args: DepositArgs, terms: Terms): Option<Error> {
    var (coin, pc) := Taken(args, terms);
    if terms.taken >= U64_LIMIT then Some(Panicked)
    else if coin > args.maxCoinAmount || pc > args.maxPcAmount then Some(ExceededSlippage)
    else if args.otherAmountMin.Some? && terms.taken < args.otherAmountMin.value then Some(ExceededSlippage)
    else if terms.minted >= U64_LIMIT then Some(Panicked)
    else None
  }

  /** Why the transfers or the records of a deposit fail, or nothing. */
  function TakingRefusal(s: PoolState, env: LiquidityEnv, coin: nat, pc: nat, minted: nat): Option<Error>
    requires TotalsRefusal(s).None?
  {
    if s.vaultCoin + coin >= U64_LIMIT || s.vaultPc + pc >= U64_LIMIT then Some(TransferRejected)
    else if env.lpSupply + minted >= U64_LIMIT then Some(TransferRejected)
    else if s.amm.lpAmount + minted >= U64_LIMIT then Some(Panicked)
    else if XKept(s, pc) < 0 || YKept(s, coin) < 0 then Some(Panicked)
    else if XKept(s, pc) + s.target.calcPnlX >= U128_LIMIT || YKept(s, coin) + s.target.calcPnlY >= U128_LIMIT
    then Some(Panicked)
    else None
  }

  /** The pnl records after the deposit: the scaled total and the scaled deposit less the pnl taken. */
  function XKept(s: PoolState, pc: nat): int
    requires PcAll(s) >= s.amm.stateData.needTakePnlPc
  {
    Scaled(PcAll(s) - s.amm.stateData.needTakePnlPc, s.amm.pcDecimals, s.amm.sysDecimalValue)
    + Scaled(pc, s.amm.pcDecimals, s.amm.sysDecimalValue) - s.target.calcPnlX
  }

  function YKept(s: PoolState, coin: nat): int
    requires CoinAll(s) >= s.amm.stateData.needTakePnlCoin
  {
    Scaled(CoinAll(s) - s.amm.stateData.needTakePnlCoin, s.amm.coinDecimals, s.amm.sysDecimalValue)
    + Scaled(coin, s.amm.coinDecimals, s.amm.sysDecimalValue) - s.target.calcPnlY
  }

  /** The state an accepted deposit of `coin` and `pc` leaves. */
  predicate DepositLeaves(s: PoolState, t: PoolState, coin: nat, pc: nat, minted: nat)
    requires TotalsRefusal(s).None?
  {
    && t.vaultCoin == s.vaultCoin + coin && t.vaultPc == s.vaultPc + pc
    && t.bookCoin == s.bookCoin && t.bookPc == s.bookPc
    && t.amm.lpAmount == s.amm.lpAmount + minted
    && t.amm.stateData.totalPnlCoin == MoreOwed(s.amm.stateData.totalPnlCoin, s.target.calcPnlY)
    && t.amm.stateData.totalPnlPc == MoreOwed(s.amm.stateData.totalPnlPc, s.target.calcPnlX)
    && t.target.calcPnlX == XKept(s, pc) && t.target.calcPnlY == YKept(s, coin)
    && t.amm == s.amm.(lpAmount := t.amm.lpAmount,
                       stateData := s.amm.stateData.(totalPnlCoin := t.amm.stateData.totalPnlCoin,
                                                     totalPnlPc := t.amm.stateData.totalPnlPc))
    && t.target == s.target.(calcPnlX := t.target.calcPnlX, calcPnlY := t.target.calcPnlY)
  }

  lemma ExchangesAre(lp: u64, given: u64, total: u64, other: u64)
    ensures total == 0 ==> ExchangeCeiling(given, other, total) == Err(Panicked)
    ensures total > 0 ==>
              var terms := DepositTerms(lp, given, total, other);
              && ExchangeCeiling(given, other, total)
                 == (if terms.taken >= U64_LIMIT then Err(Panicked) else Ok(terms.taken))
              && ExchangeFloor(lp, given, total)
                 == (if terms.minted >= U64_LIMIT then Err(Panicked) else Ok(terms.minted))
  {
    Mul64(given, other);
    if total > 0 {
      RoundedIs(given * other, total);
    }
  }

  lemma DepositQuoteIs(lp: u64, pc: u64, coin: u64, args: DepositArgs)
    ensures var (given, total, other) := if args.baseSide == 0 then (args.maxCoinAmount, coin, pc)
                                         else (args.maxPcAmount, pc, coin);
            if total == 0 then DepositQuote(lp, (pc, coin), args) == Err(Panicked)
            else
              var terms := DepositTerms(lp, given, total, other);
              match TermsRefusal(args, terms)
              case Some(e) => DepositQuote(lp, (pc, coin), args) == Err(e)
              case None => DepositQuote(lp, (pc, coin), args) == Ok(AmountsOf(args, terms))
  {
    var (given, total, other) := if args.baseSide == 0 then (args.maxCoinAmount, coin, pc)
                                 else (args.maxPcAmount, pc, coin);
    ExchangesAre(lp, given, total, other);
  }

  function AmountsOf(args: DepositArgs, terms: Terms): DepositAmounts
    requires TermsRefusal(args, terms).None?
  {
    DepositAmounts(Taken(args, terms).0, Taken(args, terms).1, terms.minted)
  }

  lemma PriceDepositIs(s: PoolState, args: DepositArgs)
    ensures match DepositPriceRefusal(s, args)
            case Some(e) => PriceDeposit(s, args) == Err(e)
            case None => PriceDeposit(s, args) == Ok(AmountsOf(args, TermsFor(s, args)))
  {
    TotalsAre(s);
    if TotalsRefusal(s).None? {
      var pc: u64 := PcAll(s) - s.amm.stateData.needTakePnlPc;
      var coin: u64 := CoinAll(s) - s.amm.stateData.needTakePnlCoin;
      ScaledIs(pc, s.amm.pcDecimals, s.amm.sysDecimalValue);
      ScaledIs(coin, s.amm.coinDecimals, s.amm.sysDecimalValue);
      DepositQuoteIs(s.amm.lpAmount, LessPnl(pc, s.target.calcPnlX), LessPnl(coin, s.target.calcPnlY), args);
    }
  }

  lemma DepositCheckedIs(s: PoolState, args: DepositArgs, env: LiquidityEnv)
    ensures match DepositCheckRefusal(s, args, env)
            case Some(e) => DepositChecked(s, args, env) == Err(e)
            case None => DepositChecked(s, args, env) == Ok(AmountsOf(args, TermsFor(s, args)))
  {
    PriceDepositIs(s, args);
  }

  /** A deposit into any pool: accepted exactly when the table names no error, refused with the error it
      names, and leaving exactly the state described. */
  lemma DepositIs(s: PoolState, args: DepositArgs, env: LiquidityEnv)
    ensures match DepositRefusal(s, args, env)
            case Some(e) => Deposit(s, args, env) == Err(e)
            case None =>
              var terms := TermsFor(s, args);
              && Deposit(s, args, env).Ok?
              && DepositLeaves(s, Deposit(s, args, env).value, Taken(args, terms).0, Taken(args, terms).1,
                               terms.minted)
  {
    DepositCheckedIs(s, args, env);
    if DepositCheckRefusal(s, args, env).None? {
      TakeInIs(s, env, DepositChecked(s, args, env).value);
    }
  }

  lemma TakeInIs(s: PoolState, env: LiquidityEnv, a: DepositAmounts)
    requires TotalsRefusal(s).None? && ScalesFit(s)
    ensures match TakingRefusal(s, env, a.coin, a.pc, a.lp)
            case Some(e) => TakeIn(s, env, a) == Err(e)
            case None => TakeIn(s, env, a).Ok? && DepositLeaves(s, TakeIn(s, env, a).value, a.coin, a.pc, a.lp)
  {
    TotalsAre(s);
    var totals := Totals(s, OrderbookPermission(s.amm.status)).value;
    ScaledIs(totals.0, s.amm.pcDecimals, s.amm.sysDecimalValue);
    ScaledIs(totals.1, s.amm.coinDecimals, s.amm.sysDecimalValue);
    ScaledIs(a.pc, s.amm.pcDecimals, s.amm.sysDecimalValue);
    ScaledIs(a.coin, s.amm.coinDecimals, s.amm.sysDecimalValue);
  }

  // ---------------------------------------------------------------- when a swap may run

  /** Open pools trade at any time, waiting ones from their open time, order-book pools from their
      switch time; no other status trades. */
  predicate TradingOpen(s: PoolState, now: u64) {
    || s.amm.status == 1 || s.amm.status == 6
    || (s.amm.status == 7 && now >= s.amm.stateData.poolOpenTime)
    || (s.amm.status == 5 && now >= s.amm.stateData.orderbookToInitTime)
  }

  /** A waiting pool becomes SwapOnly with its first trade, an order-book pool Initialized. */
  function StatusAfterSwap(status: u64): u64 {
    if status == 7 then 6 else if status == 5 then 1 else status
  }

  function Opened(s: PoolState): PoolState {
    s.(amm := s.amm.(status := StatusAfterSwap(s.amm.status)))
  }

  lemma SwapStatusIs(s: PoolState, now: u64)
    ensures SwapStatus(s, now)
            == if TradingOpen(s, now) then Ok(StatusAfterSwap(s.amm.status))
               else Err(if s.amm.status > 7 then Panicked else InvalidStatus)
  {
  }

  /** An exact-in swap at a closed time is refused; an accepted one leaves the status of an open pool;
      and from the open time on the outcome is that of the opened pool at any time whatever. */
  lemma SwapBaseInTiming(build: Build, s: PoolState, direction: SwapDirection, args: SwapBaseInArgs, env: SwapEnv,
                         anyTime: u64)
    ensures !TradingOpen(s, env.now) ==>
              SwapBaseIn(build, s, direction, args, env)
              == Err(if s.amm.status > 7 then Panicked else InvalidStatus)
    ensures SwapBaseIn(build, s, direction, args, env).Ok? ==>
              TradingOpen(s, env.now)
              && SwapBaseIn(build, s, direction, args, env).value.amm.status == StatusAfterSwap(s.amm.status)
    ensures TradingOpen(s, env.now) ==>
              SwapBaseIn(build, s, direction, args, env)
              == SwapBaseIn(build, Opened(s), direction, args, env.(now := anyTime))
  {
    SwapStatusIs(s, env.now);
    if TradingOpen(s, env.now) {
      SwapStatusIs(Opened(s), anyTime);
      assert SwapBaseInQuote(s, direction, args.amountIn) == SwapBaseInQuote(Opened(s), direction, args.amountIn);
      OpenedBaseIn(build, s, direction, args, env, anyTime, SwapBaseInQuote(s, direction, args.amountIn));
    }
  }

  lemma OpenedBaseIn(build: Build, s: PoolState, direction: SwapDirection, args: SwapBaseInArgs, env: SwapEnv,
                     anyTime: u64, quoted: Result<BaseInQuote>)
    requires TradingOpen(s, env.now)
    ensures var (t, later) := (Opened(s), env.(now := anyTime));
            ExecuteBaseIn(build, s, direction, args, env, AcceptBaseIn(s, direction, args, env, quoted))
            == ExecuteBaseIn(build, t, direction, args, later, AcceptBaseIn(t, direction, args, later, quoted))
  {
    var (t, later) := (Opened(s), env.(now := anyTime));
    SwapStatusIs(s, env.now);
    SwapStatusIs(t, anyTime);
    var accepted := AcceptBaseIn(s, direction, args, env, quoted);
    assert accepted == AcceptBaseIn(t, direction, args, later, quoted);
    if accepted.Ok? {
      var paid := PaidIn(build, direction, args.amountIn, accepted.value.out);
      TransfersIgnoreStatus(s, t.amm.status, direction, env.userSource, paid, args.amountIn, accepted.value.out,
                            accepted.value.fee);
    }
  }

  /** The same of exact-out swaps. */
  lemma SwapBaseOutTiming(s: PoolState, direction: SwapDirection, args: SwapBaseOutArgs, env: SwapEnv, anyTime: u64)
    ensures !TradingOpen(s, env.now) ==>
              SwapBaseOut(s, direction, args, env) == Err(if s.amm.status > 7 then Panicked else InvalidStatus)
    ensures SwapBaseOut(s, direction, args, env).Ok? ==>
              TradingOpen(s, env.now)
              && SwapBaseOut(s, direction, args, env).value.amm.status == StatusAfterSwap(s.amm.status)
    ensures TradingOpen(s, env.now) ==>
              SwapBaseOut(s, direction, args, env) == SwapBaseOut(Opened(s), direction, args, env.(now := anyTime))
  {
    SwapStatusIs(s, env.now);
    if TradingOpen(s, env.now) {
      SwapStatusIs(Opened(s), anyTime);
      assert SwapBaseOutQuote(s, direction, args.amountOut) == SwapBaseOutQuote(Opened(s), direction, args.amountOut);
      OpenedBaseOut(s, direction, args, env, anyTime, SwapBaseOutQuote(s, direction, args.amountOut));
    }
  }

  lemma OpenedBaseOut(s: PoolState, direction: SwapDirection, args: SwapBaseOutArgs, env: SwapEnv, anyTime: u64,
                      quoted: Result<BaseOutQuote>)
    requires TradingOpen(s, env.now)
    ensures var (t, later) := (Opened(s), env.(now := anyTime));
            ExecuteBaseOut(s, direction, args, env, AcceptBaseOut(s, direction, args, env, quoted))
            == ExecuteBaseOut(t, direction, args, later, AcceptBaseOut(t, direction, args, later, quoted))
  {
    var (t, later) := (Opened(s), env.(now := anyTime));
    SwapStatusIs(s, env.now);
    SwapStatusIs(t, anyTime);
    var accepted := AcceptBaseOut(s, direction, args, env, quoted);
    assert accepted == AcceptBaseOut(t, direction, args, later, quoted);
    if accepted.Ok? {
      TransfersIgnoreStatus(s, t.amm.status, direction, env.userSource, accepted.value.after, accepted.value.after,
                            args.amountOut, accepted.value.fee);
    }
  }

  // ---------------------------------------------------------------- swaps

  /** The totals (in, out) a swap is priced on: what is set aside for pnl is left out. */
  function PricedForSwap(s: PoolState, direction: SwapDirection): (u64, u64)
    requires TotalsRefusal(s).None?
  {
    var pc: u64 := PcAll(s) - s.amm.stateData.needTakePnlPc;
    var coin: u64 := CoinAll(s) - s.amm.stateData.needTakePnlCoin;
    if direction == Coin2PC then (coin, pc) else (pc, coin)
  }

  /** The book moves into the vaults first when the handler reads it and the vault that pays is short. */
  predicate SettlesFirst(s: PoolState, direction: SwapDirection, out: u64) {
    OnBook(s) && out > if direction == Coin2PC then s.vaultPc else s.vaultCoin
  }

  /** Why the transfers of a swap fail, or nothing. */
  function TransfersRefusal(s: PoolState, direction: SwapDirection, userSource: u64, paid: u64, gross: u64, out: u64,
                            fee: u64): Option<Error> {
    var settles := SettlesFirst(s, direction, out);
    var (coin, pc) := (if settles then CoinAll(s) else s.vaultCoin, if settles then PcAll(s) else s.vaultPc);
    var data := s.amm.stateData;
    if settles && (coin >= U64_LIMIT || pc >= U64_LIMIT) then Some(TransferRejected)
    else if paid > userSource then Some(TransferRejected)
    else if direction == Coin2PC then
      if coin + paid >= U64_LIMIT || out > pc then Some(TransferRejected)
      else if data.swapCoinInAmount + gross >= U128_LIMIT || data.swapPcOutAmount + out >= U128_LIMIT
              || data.swapAccCoinFee + fee >= U64_LIMIT then Some(Panicked)
      else None
    else
      if pc + paid >= U64_LIMIT || out > coin then Some(TransferRejected)
      else if data.swapPcInAmount + gross >= U128_LIMIT || data.swapCoinOutAmount + out >= U128_LIMIT
              || data.swapAccPcFee + fee >= U64_LIMIT then Some(Panicked)
      else None
  }

  /** The state a swap leaves: balances, counters of its direction, status; all else is kept. */
  predicate SwapLeaves(s: PoolState, t: PoolState, direction: SwapDirection, paid: u64, gross: u64, out: u64,
                       fee: u64) {
    var settles := SettlesFirst(s, direction, out);
    var (coin, pc) := (if settles then CoinAll(s) else s.vaultCoin, if settles then PcAll(s) else s.vaultPc);
    var (d, d') := (s.amm.stateData, t.amm.stateData);
    && t.bookCoin == (if settles then 0 else s.bookCoin) && t.bookPc == (if settles then 0 else s.bookPc)
    && t.target == s.target
    && t.amm == s.amm.(status := StatusAfterSwap(s.amm.status), stateData := d')
    && (if direction == Coin2PC then
          && t.vaultCoin == coin + paid && t.vaultPc == pc - out
          && d'.swapCoinInAmount == d.swapCoinInAmount + gross && d'.swapPcOutAmount == d.swapPcOutAmount + out
          && d'.swapAccCoinFee == d.swapAccCoinFee + fee
          && d' == d.(swapCoinInAmount := d'.swapCoinInAmount, swapPcOutAmount := d'.swapPcOutAmount,
                      swapAccCoinFee := d'.swapAccCoinFee)
        else
          && t.vaultPc == pc + paid && t.vaultCoin == coin - out
          && d'.swapPcInAmount == d.swapPcInAmount + gross && d'.swapCoinOutAmount == d.swapCoinOutAmount + out
          && d'.swapAccPcFee == d.swapAccPcFee + fee
          && d' == d.(swapPcInAmount := d'.swapPcInAmount, swapCoinOutAmount := d'.swapCoinOutAmount,
                      swapAccPcFee := d'.swapAccPcFee))
  }

  lemma TransfersAre(s: PoolState, direction: SwapDirection, userSource: u64, paid: u64, gross: u64, out: u64, fee: u64)
    ensures match TransfersRefusal(s, direction, userSource, paid, gross, out, fee)
            case Some(e) => SwapTransfers(s, direction, userSource, paid, gross, out, fee) == Err(e)
            case None =>
              && SwapTransfers(s, direction, userSource, paid, gross, out, fee).Ok?
              && var t := SwapTransfers(s, direction, userSource, paid, gross, out, fee).value;
                 SwapLeaves(s, Opened(t), direction, paid, gross, out, fee)
  {
    var settled := SettleFor(s, direction, out);
    assert SettlesFirst(s, direction, out) ==> settled == Settle(s);
    assert !SettlesFirst(s, direction, out) ==> settled == Ok(s);
  }

  /** The error of an exact-in swap priced at `quoted`, or nothing if it is accepted. */
  function BaseInRefusal(build: Build, s: PoolState, direction: SwapDirection, args: SwapBaseInArgs, env: SwapEnv,
                         quoted: Result<BaseInQuote>): Option<Error> {
    if !TradingOpen(s, env.now) then Some(if s.amm.status > 7 then Panicked else InvalidStatus)
    else if TotalsRefusal(s).Some? then TotalsRefusal(s)
    else if args.amountIn > env.userSource then Some(InsufficientFunds)
    else
      match quoted
      case Err(e) => Some(e)
      case Ok(quote) =>
        if quote.out < args.minimumAmountOut then Some(ExceededSlippage)
        else if quote.out == 0 || args.amountIn == 0 then Some(InvalidInput)
        else if quote.out >= PricedForSwap(s, direction).1 then Some(InsufficientFunds)
        else TransfersRefusal(s, direction, env.userSource,
                              if build == AsWritten && direction == PC2Coin then quote.out else args.amountIn,
                              args.amountIn, quote.out, quote.fee)
  }

  lemma ExecuteBaseInIs(build: Build, s: PoolState, direction: SwapDirection, args: SwapBaseInArgs, env: SwapEnv,
                        quoted: Result<BaseInQuote>)
    ensures var r := ExecuteBaseIn(build, s, direction, args, env, AcceptBaseIn(s, direction, args, env, quoted));
            match BaseInRefusal(build, s, direction, args, env, quoted)
            case Some(e) => r == Err(e)
            case None =>
              && r.Ok? && quoted.Ok?
              && SwapLeaves(s, r.value, direction,
                            if build == AsWritten && direction == PC2Coin then quoted.value.out else args.amountIn,
                            args.amountIn, quoted.value.out, quoted.value.fee)
  {
    SwapStatusIs(s, env.now);
    TotalsAre(s);
    if quoted.Ok? {
      var quote := quoted.value;
      TransfersAre(s, direction, env.userSource, PaidIn(build, direction, args.amountIn, quote.out), args.amountIn,
                   quote.out, quote.fee);
    }
  }

  /** The price of an exact-in swap: the pool's own swap fee, on the totals of the swap. */
  function PoolBaseInQuote(s: PoolState, direction: SwapDirection, amount: u64): Result<BaseInQuote> {
    if TotalsRefusal(s).Some? then Err(TotalsRefusal(s).value)
    else
      var (resIn, resOut) := PricedForSwap(s, direction);
      QuoteBaseIn(s.amm.fees.swapFeeNumerator, s.amm.fees.swapFeeDenominator, resIn, resOut, amount)
  }

  lemma PoolBaseInQuoteIs(s: PoolState, direction: SwapDirection, amount: u64)
    ensures SwapBaseInQuote(s, direction, amount) == PoolBaseInQuote(s, direction, amount)
  {
    TotalsAre(s);
  }

  /** An exact-in swap on any pool: accepted exactly when the table names no error, refused with the
      error it names, and leaving exactly the state described. */
  lemma SwapBaseInIs(build: Build, s: PoolState, direction: SwapDirection, args: SwapBaseInArgs, env: SwapEnv)
    ensures var quoted := PoolBaseInQuote(s, direction, args.amountIn);
            var r := SwapBaseIn(build, s, direction, args, env);
            match BaseInRefusal(build, s, direction, args, env, quoted)
            case Some(e) => r == Err(e)
            case None =>
              && r.Ok? && quoted.Ok?
              && SwapLeaves(s, r.value, direction,
                            if build == AsWritten && direction == PC2Coin then quoted.value.out else args.amountIn,
                            args.amountIn, quoted.value.out, quoted.value.fee)
  {
    PoolBaseInQuoteIs(s, direction, args.amountIn);
    ExecuteBaseInIs(build, s, direction, args, env, SwapBaseInQuote(s, direction, args.amountIn));
  }

  /** The error of an exact-out swap priced at `quoted`, or nothing if it is accepted. */
  function BaseOutRefusal(s: PoolState, direction: SwapDirection, args: SwapBaseOutArgs, env: SwapEnv,
                          quoted: Result<BaseOutQuote>): Option<Error> {
    if !TradingOpen(s, env.now) then Some(if s.amm.status > 7 then Panicked else InvalidStatus)
    else if TotalsRefusal(s).Some? then TotalsRefusal(s)
    else
      match quoted
      case Err(e) => Some(e)
      case Ok(quote) =>
        if quote.after > env.userSource then Some(InsufficientFunds)
        else if quote.after > args.maxAmountIn then Some(ExceededSlippage)
        else if quote.after == 0 || args.amountOut == 0 then Some(InvalidInput)
        else if args.amountOut >= PricedForSwap(s, direction).1 then Some(InsufficientFunds)
        else TransfersRefusal(s, direction, env.userSource, quote.after, quote.after, args.amountOut, quote.fee)
  }

  lemma ExecuteBaseOutIs(s: PoolState, direction: SwapDirection, args: SwapBaseOutArgs, env: SwapEnv,
                         quoted: Result<BaseOutQuote>)
    ensures var r := ExecuteBaseOut(s, direction, args, env, AcceptBaseOut(s, direction, args, env, quoted));
            match BaseOutRefusal(s, direction, args, env, quoted)
            case Some(e) => r == Err(e)
            case None =>
              && r.Ok? && quoted.Ok?
              && SwapLeaves(s, r.value, direction, quoted.value.after, quoted.value.after, args.amountOut,
                            quoted.value.fee)
  {
    SwapStatusIs(s, env.now);
    TotalsAre(s);
    if quoted.Ok? {
      var quote := quoted.value;
      TransfersAre(s, direction, env.userSource, quote.after, quote.after, args.amountOut, quote.fee);
    }
  }

  /** The price of an exact-out swap: the pool's own swap fee, on the totals of the swap. */
  function PoolBaseOutQuote(s: PoolState, direction: SwapDirection, amount: u64): Result<BaseOutQuote> {
    if TotalsRefusal(s).Some? then Err(TotalsRefusal(s).value)
    else
      var (resIn, resOut) := PricedForSwap(s, direction);
      QuoteBaseOut(s.amm.fees.swapFeeNumerator, s.amm.fees.swapFeeDenominator, resIn, resOut, amount)
  }

  lemma PoolBaseOutQuoteIs(s: PoolState, direction: SwapDirection, amount: u64)
    ensures SwapBaseOutQuote(s, direction, amount) == PoolBaseOutQuote(s, direction, amount)
  {
    TotalsAre(s);
  }

  /** An exact-out swap on any pool: accepted exactly when the table names no error, refused with the
      error it names, and leaving exactly the state described. */
  lemma SwapBaseOutIs(s: PoolState, direction: SwapDirection, args: SwapBaseOutArgs, env: SwapEnv)
    ensures var quoted := PoolBaseOutQuote(s, direction, args.amountOut);
            var r := SwapBaseOut(s, direction, args, env);
            match BaseOutRefusal(s, direction, args, env, quoted)
            case Some(e) => r == Err(e)
            case None =>
              && r.Ok? && quoted.Ok?
              && SwapLeaves(s, r.value, direction, quoted.value.after, quoted.value.after, args.amountOut,
                            quoted.value.fee)
  {
    PoolBaseOutQuoteIs(s, direction, args.amountOut);
    ExecuteBaseOutIs(s, direction, args, env, SwapBaseOutQuote(s, direction, args.amountOut));
  }

  // ---------------------------------------------------------------- the other instructions

  /** A monitor step of any pool: it owes the recorded pnl, writes the totals after pnl as targets, and
      settles if there are orders. */
  lemma MonitorStepIs(s: PoolState, hasOrders: bool)
    ensures var (pc, coin) := (ReservePc(s), ReserveCoin(s));
            var (needPc, needCoin) := (s.amm.stateData.needTakePnlPc, s.amm.stateData.needTakePnlCoin);
            var r := MonitorStep(s, hasOrders);
            if s.amm.status == 0 then r == Err(InvalidStatus)
            else if pc >= U64_LIMIT then r == Err(CheckedAddOverflow)
            else if pc < needPc then r == Err(CheckedSubOverflow)
            else if coin >= U64_LIMIT then r == Err(CheckedAddOverflow)
            else if coin < needCoin then r == Err(CheckedSubOverflow)
            else
              && r.Ok?
              && var t := r.value;
                 && t.target.targetX == LessPnl(pc - needPc, s.target.calcPnlX)
                 && t.target.targetY == LessPnl(coin - needCoin, s.target.calcPnlY)
                 && t.target.calcPnlX == s.target.calcPnlX && t.target.calcPnlY == s.target.calcPnlY
                 && t.amm.stateData.totalPnlPc == MoreOwed(s.amm.stateData.totalPnlPc, s.target.calcPnlX)
                 && t.amm.stateData.totalPnlCoin == MoreOwed(s.amm.stateData.totalPnlCoin, s.target.calcPnlY)
                 && t.amm == s.amm.(stateData := s.amm.stateData.(totalPnlPc := t.amm.stateData.totalPnlPc,
                                                                  totalPnlCoin := t.amm.stateData.totalPnlCoin))
                 && (t.vaultCoin, t.vaultPc) == (if hasOrders then (coin, pc) else (s.vaultCoin, s.vaultPc))
                 && (t.bookCoin, t.bookPc) == (if hasOrders then (0, 0) else (s.bookCoin, s.bookPc))
  {
  }

  /** A payout of any pool. */
  lemma WithdrawPnlIs(s: PoolState)
    ensures var (coin, pc) := (s.amm.stateData.totalPnlCoin, s.amm.stateData.totalPnlPc);
            var r := WithdrawPnl(s);
            if s.amm.status == 0 then r == Err(InvalidStatus)
            else if coin == 0 && pc == 0 then r == Err(InsufficientFunds)
            else if coin > s.vaultCoin || pc > s.vaultPc then r == Err(TransferRejected)
            else
              && r.Ok? && r.value.vaultCoin == s.vaultCoin - coin && r.value.vaultPc == s.vaultPc - pc
              && r.value == s.(vaultCoin := r.value.vaultCoin, vaultPc := r.value.vaultPc,
                               amm := s.amm.(stateData := s.amm.stateData.(totalPnlCoin := 0, totalPnlPc := 0)))
  {
  }

  /** Which field each parameter writes, if the value it takes is there; the others write nothing. */
  lemma SetParamsIs(s: PoolState, args: SetParamsArgs)
    ensures s.amm.status == 0 ==> SetParams(s, args) == Err(InvalidStatus)
    ensures s.amm.status != 0 && args.param > 17 ==> SetParams(s, args) == Err(Panicked)
    ensures s.amm.status != 0 && args.param <= 17 ==>
              && SetParams(s, args).Ok?
              && SetParams(s, args).value == s.(amm := SetParams(s, args).value.amm)
              && var (amm, next) := (s.amm, SetParams(s, args).value.amm);
                 var v := if args.value.Some? then args.value.value else 0;
                 next ==
                 (match args.param
                  case 9 => if args.fees.Some? then amm.(fees := args.fees.value) else amm
                  case 10 => if args.newPubkey.Some? then amm.(ammOwner := args.newPubkey.value) else amm
                  case 15 => amm.(stateData := amm.stateData.(poolOpenTime := 0))
                  case 0 => if args.value.Some? then amm.(status := v) else amm
                  case 1 => if args.value.Some? then amm.(state := v) else amm
                  case 2 => if args.value.Some? then amm.(orderNum := v) else amm
                  case 3 => if args.value.Some? then amm.(depth := v) else amm
                  case 4 => if args.value.Some? then amm.(amountWave := v) else amm
                  case 5 => if args.value.Some? then amm.(minPriceMultiplier := v) else amm
                  case 6 => if args.value.Some? then amm.(maxPriceMultiplier := v) else amm
                  case 7 => if args.value.Some? then amm.(minSize := v) else amm
                  case 8 => if args.value.Some? then amm.(volMaxCutRatio := v) else amm
                  case 11 => if args.value.Some? then amm.(stateData := amm.stateData.(poolOpenTime := v)) else amm
                  case _ => amm)
  {
  }

  /** A new pool: the LP amount is the floor of the square root of the product of the amounts paid in,
      the vaults gain those amounts, and every record starts at its initial value. */
  lemma InitializedPoolIs(args: InitializeArgs, env: LiquidityEnv, vaultCoin: u64, vaultPc: u64, owner: Pubkey)
    ensures var r := InitializedPool(args, env, vaultCoin, vaultPc, owner);
            && (r.Err? ==> r == Err(TransferRejected))
            && (r.Ok? ==>
                  var t := r.value;
                  && t.amm.lpAmount * t.amm.lpAmount <= args.initCoinAmount * args.initPcAmount
                                                     < (t.amm.lpAmount + 1) * (t.amm.lpAmount + 1)
                  && t.vaultCoin == vaultCoin + args.initCoinAmount && t.vaultPc == vaultPc + args.initPcAmount
                  && t.bookCoin == 0 && t.bookPc == 0
                  && t.amm.status == 1 && t.amm.ammOwner == owner
                  && t.amm.fees == Fees(5, 10000, 25, 10000, 12, 100, 25, 10000)
                  && t.amm == AmmInfo(1, 0, 0, 0, 0, 0, 0, 0, 0, 0, 0, 0, t.amm.fees, t.amm.stateData, owner,
                                      t.amm.lpAmount)
                  && t.amm.stateData == StateData(0, 0, 0, 0, args.openTime, 0, 0, 0, 0, 0, 0, 0)
                  && t.target == TargetOrders(0, 0, 0, 0))
  {
  }

  /** It is refused exactly when a transfer is: the LP minted overflows the supply, the payer is short,
      or a vault overflows. */
  lemma InitializeAcceptedIff(args: InitializeArgs, env: LiquidityEnv, vaultCoin: u64, vaultPc: u64, owner: Pubkey,
                              root: nat)
    requires root * root <= args.initCoinAmount * args.initPcAmount < (root + 1) * (root + 1)
    ensures InitializedPool(args, env, vaultCoin, vaultPc, owner).Ok?
            <==> && env.lpSupply + root < U64_LIMIT
                 && args.initCoinAmount <= env.userCoin && args.initPcAmount <= env.userPc
                 && vaultCoin + args.initCoinAmount < U64_LIMIT && vaultPc + args.initPcAmount < U64_LIMIT
  {
    FloorSqrtUnique(root, args.initCoinAmount * args.initPcAmount);
  }

  // ---------------------------------------------------------------- runs

  /** No accepted swap of a waiting pool precedes its open time, at any moment of any run. */
  lemma NoSwapBeforeOpening(build: Build, s: PoolState, steps: seq<Step>, i: nat)
    requires i < |steps| && (steps[i].SwapBaseInStep? || steps[i].SwapBaseOutStep?)
    requires Outcome(build, StateAt(build, s, steps, i), steps[i]).Ok?
    ensures var before := StateAt(build, s, steps, i);
            && (before.amm.status == 7 ==> steps[i].swapEnv.now >= before.amm.stateData.poolOpenTime)
            && (before.amm.status == 5 ==> steps[i].swapEnv.now >= before.amm.stateData.orderbookToInitTime)
            && before.amm.status in {1, 5, 6, 7}
  {
    var before := StateAt(build, s, steps, i);
    match steps[i]
    case SwapBaseInStep(direction, args, env) => SwapBaseInTiming(build, before, direction, args, env, 0);
    case SwapBaseOutStep(direction, args, env) => SwapBaseOutTiming(before, direction, args, env, 0);
  }

  /** What keeps a waiting pool shut: nobody changes its parameters, and every swap comes too early. */
  predicate KeepsShut(step: Step, openTime: u64) {
    && !step.SetParamsStep?
    && (step.SwapBaseInStep? || step.SwapBaseOutStep? ==> step.swapEnv.now < openTime)
  }

  lemma StepKeepsShut(build: Build, s: PoolState, step: Step)
    requires s.amm.status == 7 && KeepsShut(step, s.amm.stateData.poolOpenTime)
    ensures var t := Apply(build, s, step);
            t.amm.status == 7 && t.amm.stateData.poolOpenTime == s.amm.stateData.poolOpenTime && SameCounters(s, t)
  {
    match step
    case DepositStep(args, env) => DepositIs(s, args, env);
    case WithdrawStep(args, env) => WithdrawIs(s, args, env);
    case SwapBaseInStep(direction, args, env) => SwapBaseInTiming(build, s, direction, args, env, 0);
    case SwapBaseOutStep(direction, args, env) => SwapBaseOutTiming(s, direction, args, env, 0);
    case MonitoringStep(hasOrders) => MonitorStepIs(s, hasOrders);
    case WithdrawPnlStep => WithdrawPnlIs(s);
  }

  /** Such a pool has traded nothing at the end of any run. */
  lemma {:induction false} WaitingPoolStaysShut(build: Build, s: PoolState, steps: seq<Step>)
    requires s.amm.status == 7
    requires forall i | 0 <= i < |steps| :: KeepsShut(steps[i], s.amm.stateData.poolOpenTime)
    ensures Run(build, s, steps).amm.status == 7 && SameCounters(s, Run(build, s, steps))
    decreases |steps|
  {
    if steps != [] {
      StepKeepsShut(build, s, steps[0]);
      WaitingPoolStaysShut(build, Apply(build, s, steps[0]), steps[1..]);
    }
  }
}
