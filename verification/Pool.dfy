/** The pool as the program runs it: handlers that update its fields step by step, and the runtime
    that undoes a handler that fails. */
module Pool {
  import opened Machine
  import opened Bytes
  import opened CeilDiv
  import opened Quotes
  import opened Decimals
  import opened InitialLp
  import opened PoolState
  import opened Steps
  import opened Growth
  import opened Runs

  /** `InvariantToken` and `InvariantPool` with direction Ceiling. */
  method ExchangeUp(amount: u64, numerator: u64, denominator: u64) returns (r: Result<u64>)
    ensures r == ExchangeCeiling(amount, numerator, denominator)
  {
    Mul64(amount, numerator);
    var quotient := CheckedCeilDiv(amount * numerator, denominator);
    match quotient
    case None => return Err(Panicked);
    case Some(pair) =>
      if pair.0 >= U64_LIMIT {
        return Err(Panicked);
      }
      return Ok(pair.0);
  }

  /** The fee of an exact-in swap and the price of what it leaves. */
  method PriceBaseIn(fees: Fees, resIn: u64, resOut: u64, amountIn: u64) returns (r: Result<BaseInQuote>)
    ensures r == QuoteBaseIn(fees.swapFeeNumerator, fees.swapFeeDenominator, resIn, resOut, amountIn)
  {
    Mul64(amountIn, fees.swapFeeNumerator);
    var swapFee := CheckedCeilDiv(amountIn * fees.swapFeeNumerator, fees.swapFeeDenominator);
    if swapFee == None || swapFee.value.0 > amountIn {
      return Err(Panicked);
    }
    var afterFee := amountIn - swapFee.value.0;
    var out := AmountOut(resIn, resOut, afterFee);
    if out == None {
      return Err(Panicked);
    }
    return Ok(BaseInQuote(swapFee.value.0, afterFee, out.value));
  }

  /** The price of an exact output and the fee on top of it. */
  method PriceBaseOut(fees: Fees, resIn: u64, resOut: u64, amountOut: u64) returns (r: Result<BaseOutQuote>)
    ensures r == QuoteBaseOut(fees.swapFeeNumerator, fees.swapFeeDenominator, resIn, resOut, amountOut)
  {
    if amountOut > resOut {
      return Err(Panicked);
    }
    Mul64(resIn, amountOut);
    var before := CheckedCeilDiv(resIn * amountOut, resOut - amountOut);
    if before == None {
      return Err(Panicked);
    }
    var beforeFee := before.value.0;
    var scaled := beforeFee * fees.swapFeeDenominator;
    if scaled >= U128_LIMIT || fees.swapFeeDenominator < fees.swapFeeNumerator {
      return Err(Panicked);
    }
    assert 0 <= scaled;
    var after := CheckedCeilDiv(scaled, fees.swapFeeDenominator - fees.swapFeeNumerator);
    if after == None || after.value.0 >= U64_LIMIT || beforeFee >= U64_LIMIT || after.value.0 < beforeFee {
      return Err(Panicked);
    }
    return Ok(BaseOutQuote(beforeFee, after.value.0, after.value.0 - beforeFee));
  }

  class Pool {
    var amm: AmmInfo
    var target: TargetOrders
    var vaultCoin: u64
    var vaultPc: u64
    var bookCoin: u64
    var bookPc: u64

    function State(): PoolState
      reads this
    {
      PoolState(amm, target, vaultCoin, vaultPc, bookCoin, bookPc)
    }

    // -------------------------------------------------------------- shared pieces

    method SettleFunds() returns (r: Result<()>)
      modifies this`vaultCoin, this`vaultPc, this`bookCoin, this`bookPc
      ensures match Settle(old(State()))
              case Ok(t) => r.Ok? && State() == t
              case Err(e) => r == Err(e)
    {
      if vaultCoin + bookCoin >= U64_LIMIT || vaultPc + bookPc >= U64_LIMIT {
        return Err(TransferRejected);
      }
      vaultCoin, bookCoin := vaultCoin + bookCoin, 0;
      vaultPc, bookPc := vaultPc + bookPc, 0;
      return Ok(());
    }

    /** `calc_take_pnl`: records the pnl as owed and takes it off the totals (pc, coin). */
    method CalcTakePnl(totals: (u64, u64)) returns (r: (u64, u64))
      modifies this`amm
      ensures State() == TakePnl(old(State())) && r == TotalsAfterPnl(old(State()), totals)
    {
      var deltaX, deltaY := Truncate64(target.calcPnlX), Truncate64(target.calcPnlY);
      amm := amm.(stateData := amm.stateData.(totalPnlPc := SaturatingAdd(amm.stateData.totalPnlPc, deltaX)));
      amm := amm.(stateData := amm.stateData.(totalPnlCoin := SaturatingAdd(amm.stateData.totalPnlCoin, deltaY)));
      r := (SaturatingSub(totals.0, deltaX), SaturatingSub(totals.1, deltaY));
    }

    method TransferCoinIn(amount: u64) returns (r: Result<()>)
      modifies this`vaultCoin
      ensures match CreditCoin(old(State()), amount)
              case Ok(t) => r.Ok? && State() == t
              case Err(e) => r == Err(e)
    {
      if vaultCoin + amount >= U64_LIMIT {
        return Err(TransferRejected);
      }
      vaultCoin := vaultCoin + amount;
      return Ok(());
    }

    method TransferPcIn(amount: u64) returns (r: Result<()>)
      modifies this`vaultPc
      ensures match CreditPc(old(State()), amount)
              case Ok(t) => r.Ok? && State() == t
              case Err(e) => r == Err(e)
    {
      if vaultPc + amount >= U64_LIMIT {
        return Err(TransferRejected);
      }
      vaultPc := vaultPc + amount;
      return Ok(());
    }

    method TransferCoinOut(amount: u64) returns (r: Result<()>)
      modifies this`vaultCoin
      ensures match DebitCoin(old(State()), amount)
              case Ok(t) => r.Ok? && State() == t
              case Err(e) => r == Err(e)
    {
      if vaultCoin < amount {
        return Err(TransferRejected);
      }
      vaultCoin := vaultCoin - amount;
      return Ok(());
    }

    method TransferPcOut(amount: u64) returns (r: Result<()>)
      modifies this`vaultPc
      ensures match DebitPc(old(State()), amount)
              case Ok(t) => r.Ok? && State() == t
              case Err(e) => r == Err(e)
    {
      if vaultPc < amount {
        return Err(TransferRejected);
      }
      vaultPc := vaultPc - amount;
      return Ok(());
    }

    // -------------------------------------------------------------- Initialize2

    /** A zeroed pool account next to two vaults that may already hold something. */
    constructor (owner: Pubkey, coinBalance: u64, pcBalance: u64)
      ensures amm.status == UNINITIALIZED && vaultCoin == coinBalance && vaultPc == pcBalance
    {
      amm := AmmInfo(UNINITIALIZED, 0, 0, 0, 0, 0, 0, 0, 0, 0, 0, 0, Fees(0, 0, 0, 0, 0, 0, 0, 0),
                     StateData(0, 0, 0, 0, 0, 0, 0, 0, 0, 0, 0, 0), owner, 0);
      target := TargetOrders(0, 0, 0, 0);
      vaultCoin, vaultPc, bookCoin, bookPc := coinBalance, pcBalance, 0, 0;
    }

    /** Overwrites the account; the first deposit enters the vaults and its square root is the LP. */
    method Initialize2(args: InitializeArgs, env: LiquidityEnv, owner: Pubkey) returns (r: Result<()>)
      modifies this
      ensures match InitializedPool(args, env, old(vaultCoin), old(vaultPc), owner)
              case Ok(t) => r.Ok? && State() == t
              case Err(e) => r == Err(e)
    {
      amm := AmmInfo(INITIALIZED, 0, 0, 0, 0, 0, 0, 0, 0, 0, 0, 0, INITIAL_FEES,
                     StateData(0, 0, 0, 0, args.openTime, 0, 0, 0, 0, 0, 0, 0), owner, 0);
      target := TargetOrders(0, 0, 0, 0);
      bookCoin, bookPc := 0, 0;
      var initialLpAmount := InitialLpAmount(args.initCoinAmount, args.initPcAmount);
      if env.lpSupply + initialLpAmount >= U64_LIMIT {
        return Err(TransferRejected);
      }
      amm := amm.(lpAmount := initialLpAmount);
      if args.initCoinAmount > env.userCoin || args.initPcAmount > env.userPc {
        return Err(TransferRejected);
      }
      var _ :- TransferCoinIn(args.initCoinAmount);
      var _ :- TransferPcIn(args.initPcAmount);
      return Ok(());
    }

    // -------------------------------------------------------------- Deposit

    method PriceDeposit(totals: (u64, u64), args: DepositArgs) returns (r: Result<DepositAmounts>)
      ensures r == DepositQuote(amm.lpAmount, totals, args)
    {
      var (pc, coin) := totals;
      if args.baseSide == 0 {
        var deductPc :- ExchangeUp(args.maxCoinAmount, pc, coin);
        if deductPc > args.maxPcAmount {
          return Err(ExceededSlippage);
        }
        if args.otherAmountMin.Some? && deductPc < args.otherAmountMin.value {
          return Err(ExceededSlippage);
        }
        var minted :- ExchangeFloor(amm.lpAmount, args.maxCoinAmount, coin);
        return Ok(DepositAmounts(args.maxCoinAmount, deductPc, minted));
      } else {
        var deductCoin :- ExchangeUp(args.maxPcAmount, coin, pc);
        if deductCoin > args.maxCoinAmount {
          return Err(ExceededSlippage);
        }
        if args.otherAmountMin.Some? && deductCoin < args.otherAmountMin.value {
          return Err(ExceededSlippage);
        }
        var minted :- ExchangeFloor(amm.lpAmount, args.maxPcAmount, pc);
        return Ok(DepositAmounts(deductCoin, args.maxPcAmount, minted));
      }
    }

    method Deposit(args: DepositArgs, env: LiquidityEnv) returns (r: Result<()>)
      modifies this
      ensures match Steps.Deposit(old(State()), args, env)
              case Ok(t) => r.Ok? && State() == t
              case Err(e) => r == Err(e)
    {
      if amm.status == UNINITIALIZED {
        return Err(InvalidStatus);
      }
      if args.maxCoinAmount == 0 || args.maxPcAmount == 0 {
        return Err(InvalidInput);
      }
      var loaded :- LoadedStatus(State());
      if !DepositPermission(loaded) {
        return Err(InvalidStatus);
      }
      var totals :- Totals(State(), OrderbookPermission(loaded));
      var x1 :- NormalizeDecimalV2(totals.0, amm.pcDecimals, amm.sysDecimalValue);
      var y1 :- NormalizeDecimalV2(totals.1, amm.coinDecimals, amm.sysDecimalValue);
      var deltaX, deltaY := target.calcPnlX, target.calcPnlY;
      var priced := CalcTakePnl(totals);
      if amm.lpAmount == 0 {
        return Err(NotAllowZeroLP);
      }
      var amounts :- PriceDeposit(priced, args);
      if amounts.coin > env.userCoin || amounts.pc > env.userPc {
        return Err(InsufficientFunds);
      }
      if amounts.lp == 0 || amounts.coin == 0 || amounts.pc == 0 {
        return Err(InvalidInput);
      }
      var _ :- TransferCoinIn(amounts.coin);
      var _ :- TransferPcIn(amounts.pc);
      var _ :- Check(env.lpSupply + amounts.lp < U64_LIMIT, TransferRejected);
      var _ :- Check(amm.lpAmount + amounts.lp < U64_LIMIT, Panicked);
      amm := amm.(lpAmount := amm.lpAmount + amounts.lp);
      // both normalizations go through: the scale was accepted above
      var dx := NormalizeDecimalV2(amounts.pc, amm.pcDecimals, amm.sysDecimalValue).value;
      var x :- PnlAfter(x1, dx, 0, deltaX);
      target := target.(calcPnlX := x);
      var dy := NormalizeDecimalV2(amounts.coin, amm.coinDecimals, amm.sysDecimalValue).value;
      var y :- PnlAfter(y1, dy, 0, deltaY);
      target := target.(calcPnlY := y);
      return Ok(());
    }

    // -------------------------------------------------------------- Withdraw

    /** The vault balances checked here were read before settling. */
    method CheckWithdraw(args: WithdrawArgs, amounts: WithdrawAmounts, coinVaultRead: u64, pcVaultRead: u64)
      returns (r: Result<()>)
      ensures r == WithdrawAllowed(args, amounts, coinVaultRead, pcVaultRead)
    {
      if args.amount == 0 || amounts.coin == 0 || amounts.pc == 0 {
        return Err(InvalidInput);
      }
      if amounts.coin < coinVaultRead && amounts.pc < pcVaultRead {
        if args.minCoinAmount.Some? && args.minPcAmount.Some? {
          if args.minCoinAmount.value > amounts.coin || args.minPcAmount.value > amounts.pc {
            return Err(ExceededSlippage);
          }
        }
        return Ok(());
      } else {
        return Err(TakePnlError);
      }
    }

    method Withdraw(args: WithdrawArgs, env: LiquidityEnv) returns (r: Result<()>)
      modifies this
      ensures match Steps.Withdraw(old(State()), args, env)
              case Ok(t) => r.Ok? && State() == t
              case Err(e) => r == Err(e)
    {
      var loaded :- LoadedStatus(State());
      if !WithdrawPermission(loaded) {
        return Err(InvalidStatus);
      }
      var enableOrderbook := OrderbookPermission(loaded);
      var coinVaultRead, pcVaultRead := vaultCoin, vaultPc;
      if args.amount > env.userLp {
        return Err(InsufficientFunds);
      }
      if args.amount > env.lpSupply || args.amount >= amm.lpAmount {
        return Err(NotAllowZeroLP);
      }
      // the totals are computed after settling, from what was read before it
      var read := Totals(State(), enableOrderbook);
      if enableOrderbook {
        var _ :- SettleFunds();
      }
      var totals :- read;
      var x1 :- NormalizeDecimalV2(totals.0, amm.pcDecimals, amm.sysDecimalValue);
      var y1 :- NormalizeDecimalV2(totals.1, amm.coinDecimals, amm.sysDecimalValue);
      var deltaX, deltaY, priced := 0, 0, totals;
      if amm.status != WITHDRAW_ONLY {
        deltaX, deltaY := target.calcPnlX, target.calcPnlY;
        priced := CalcTakePnl(totals);
      }
      var amounts :- WithdrawQuote(amm.lpAmount, priced, args.amount);
      var _ :- CheckWithdraw(args, amounts, coinVaultRead, pcVaultRead);
      var _ :- TransferCoinOut(amounts.coin);
      var _ :- TransferPcOut(amounts.pc);
      amm := amm.(lpAmount := amm.lpAmount - args.amount);
      // both normalizations go through: the scale was accepted above
      var dx := NormalizeDecimalV2(amounts.pc, amm.pcDecimals, amm.sysDecimalValue).value;
      var x :- PnlAfter(x1, 0, dx, deltaX);
      target := target.(calcPnlX := x);
      var dy := NormalizeDecimalV2(amounts.coin, amm.coinDecimals, amm.sysDecimalValue).value;
      var y :- PnlAfter(y1, 0, dy, deltaY);
      target := target.(calcPnlY := y);
      return Ok(());
    }

    // -------------------------------------------------------------- swaps

    /** The status a swap finds, advanced when its time has come; says whether the book is read. */
    method OpenForSwap(now: u64) returns (r: Result<bool>)
      modifies this`amm
      ensures match SwapStatus(old(State()), now)
              case Ok(next) => r == Ok(OrderbookPermission(old(amm.status))) && amm == old(amm).(status := next)
              case Err(e) => r == Err(e)
    {
      var loaded :- LoadedStatus(State());
      var enableOrderbook := OrderbookPermission(loaded);
      if !SwapPermission(amm.status) {
        if amm.status == ORDER_BOOK_ONLY && now >= amm.stateData.orderbookToInitTime {
          amm := amm.(status := INITIALIZED);
        } else {
          return Err(InvalidStatus);
        }
      } else if amm.status == WAITING_TRADE {
        if now < amm.stateData.poolOpenTime {
          return Err(InvalidStatus);
        } else {
          amm := amm.(status := SWAP_ONLY);
        }
      }
      return Ok(enableOrderbook);
    }

    /** Cancelling orders moves nothing between vault and book; settling does. */
    method TransferAndCount(enableOrderbook: bool, direction: SwapDirection, userSource: u64,
                            paid: u64, gross: u64, out: u64, fee: u64) returns (r: Result<()>)
      requires enableOrderbook == OrderbookPermission(amm.status)
      modifies this`vaultCoin, this`vaultPc, this`bookCoin, this`bookPc, this`amm
      ensures match SwapTransfers(old(State()), direction, userSource, paid, gross, out, fee)
              case Ok(t) => r.Ok? && State() == t
              case Err(e) => r == Err(e)
    {
      match direction
      case Coin2PC =>
        if enableOrderbook && out > vaultPc {
          var _ :- SettleFunds();
        }
        var _ :- Check(paid <= userSource, TransferRejected);
        var _ :- TransferCoinIn(paid);
        var _ :- TransferPcOut(out);
        var _ :- Check(amm.stateData.swapCoinInAmount + gross < U128_LIMIT, Panicked);
        amm := amm.(stateData := amm.stateData.(swapCoinInAmount := amm.stateData.swapCoinInAmount + gross));
        var _ :- Check(amm.stateData.swapPcOutAmount + out < U128_LIMIT, Panicked);
        amm := amm.(stateData := amm.stateData.(swapPcOutAmount := amm.stateData.swapPcOutAmount + out));
        var _ :- Check(amm.stateData.swapAccCoinFee + fee < U64_LIMIT, Panicked);
        amm := amm.(stateData := amm.stateData.(swapAccCoinFee := amm.stateData.swapAccCoinFee + fee));
        return Ok(());
      case PC2Coin =>
        if enableOrderbook && out > vaultCoin {
          var _ :- SettleFunds();
        }
        var _ :- Check(paid <= userSource, TransferRejected);
        var _ :- TransferPcIn(paid);
        var _ :- TransferCoinOut(out);
        var _ :- Check(amm.stateData.swapPcInAmount + gross < U128_LIMIT, Panicked);
        amm := amm.(stateData := amm.stateData.(swapPcInAmount := amm.stateData.swapPcInAmount + gross));
        var _ :- Check(amm.stateData.swapCoinOutAmount + out < U128_LIMIT, Panicked);
        amm := amm.(stateData := amm.stateData.(swapCoinOutAmount := amm.stateData.swapCoinOutAmount + out));
        var _ :- Check(amm.stateData.swapAccPcFee + fee < U64_LIMIT, Panicked);
        amm := amm.(stateData := amm.stateData.(swapAccPcFee := amm.stateData.swapAccPcFee + fee));
        return Ok(());
    }

    /** The part of `process_swap_base_in` after its price is known; s is the pool it was called on. */
    method CompleteBaseIn(ghost s: PoolState, build: Build, direction: SwapDirection, args: SwapBaseInArgs,
                          env: SwapEnv, enableOrderbook: bool, resOut: u64, quoted: Result<BaseInQuote>)
      returns (r: Result<()>)
      requires SwapStatus(s, env.now).Ok? && State() == s.(amm := s.amm.(status := SwapStatus(s, env.now).value))
      requires enableOrderbook == OrderbookPermission(s.amm.status)
      requires Totals(s, enableOrderbook).Ok? && resOut == InAndOut(direction, Totals(s, enableOrderbook).value).1
      requires args.amountIn <= env.userSource
      modifies this
      ensures match ExecuteBaseIn(build, s, direction, args, env, AcceptBaseIn(s, direction, args, env, quoted))
              case Ok(t) => r.Ok? && State() == t
              case Err(e) => r == Err(e)
    {
      var quote :- quoted;
      if quote.out < args.minimumAmountOut {
        return Err(ExceededSlippage);
      }
      if quote.out == 0 || args.amountIn == 0 {
        return Err(InvalidInput);
      }
      if quote.out >= resOut {
        return Err(InsufficientFunds);
      }
      // line 412 pays the output into the pc vault; lines 312, 433 and 840 use the input amount
      var paid := if build == AsWritten && direction == PC2Coin then quote.out else args.amountIn;
      SwapStatusBook(s, env.now);
      TransfersIgnoreStatus(s, amm.status, direction, env.userSource, paid, args.amountIn, quote.out, quote.fee);
      r := TransferAndCount(enableOrderbook, direction, env.userSource, paid, args.amountIn, quote.out, quote.fee);
    }

    method SwapBaseIn(build: Build, direction: SwapDirection, args: SwapBaseInArgs, env: SwapEnv)
      returns (r: Result<()>)
      modifies this
      ensures match Steps.SwapBaseIn(build, old(State()), direction, args, env)
              case Ok(t) => r.Ok? && State() == t
              case Err(e) => r == Err(e)
    {
      ghost var s := State();
      var enableOrderbook :- OpenForSwap(env.now);
      var totals :- Totals(State(), enableOrderbook);
      if env.userSource < args.amountIn {
        return Err(InsufficientFunds);
      }
      var (resIn, resOut) := InAndOut(direction, totals);
      var quoted := PriceBaseIn(amm.fees, resIn, resOut, args.amountIn);
      assert quoted == SwapBaseInQuote(s, direction, args.amountIn);
      r := CompleteBaseIn(s, build, direction, args, env, enableOrderbook, resOut, quoted);
    }

    /** The part of `process_swap_base_out` after its price is known; s is the pool it was called on. */
    method CompleteBaseOut(ghost s: PoolState, direction: SwapDirection, args: SwapBaseOutArgs, env: SwapEnv,
                           enableOrderbook: bool, resOut: u64, quoted: Result<BaseOutQuote>) returns (r: Result<()>)
      requires SwapStatus(s, env.now).Ok? && State() == s.(amm := s.amm.(status := SwapStatus(s, env.now).value))
      requires enableOrderbook == OrderbookPermission(s.amm.status)
      requires Totals(s, enableOrderbook).Ok? && resOut == InAndOut(direction, Totals(s, enableOrderbook).value).1
      modifies this
      ensures match ExecuteBaseOut(s, direction, args, env, AcceptBaseOut(s, direction, args, env, quoted))
              case Ok(t) => r.Ok? && State() == t
              case Err(e) => r == Err(e)
    {
      var quote :- quoted;
      if env.userSource < quote.after {
        return Err(InsufficientFunds);
      }
      if args.maxAmountIn < quote.after {
        return Err(ExceededSlippage);
      }
      if quote.after == 0 || args.amountOut == 0 {
        return Err(InvalidInput);
      }
      if args.amountOut >= resOut {
        return Err(InsufficientFunds);
      }
      SwapStatusBook(s, env.now);
      TransfersIgnoreStatus(s, amm.status, direction, env.userSource, quote.after, quote.after, args.amountOut,
                            quote.fee);
      r := TransferAndCount(enableOrderbook, direction, env.userSource, quote.after, quote.after, args.amountOut,
                            quote.fee);
    }

    method SwapBaseOut(direction: SwapDirection, args: SwapBaseOutArgs, env: SwapEnv) returns (r: Result<()>)
      modifies this
      ensures match Steps.SwapBaseOut(old(State()), direction, args, env)
              case Ok(t) => r.Ok? && State() == t
              case Err(e) => r == Err(e)
    {
      ghost var s := State();
      var enableOrderbook :- OpenForSwap(env.now);
      var totals :- Totals(State(), enableOrderbook);
      var (resIn, resOut) := InAndOut(direction, totals);
      var quoted := PriceBaseOut(amm.fees, resIn, resOut, args.amountOut);
      assert quoted == SwapBaseOutQuote(s, direction, args.amountOut);
      r := CompleteBaseOut(s, direction, args, env, enableOrderbook, resOut, quoted);
    }

    // -------------------------------------------------------------- MonitorStep, WithdrawPnl, SetParams

    method MonitorStep(hasOrders: bool) returns (r: Result<()>)
      modifies this
      ensures match Steps.MonitorStep(old(State()), hasOrders)
              case Ok(t) => r.Ok? && State() == t
              case Err(e) => r == Err(e)
    {
      if amm.status == UNINITIALIZED {
        return Err(InvalidStatus);
      }
      var totals :- Totals(State(), true);
      var priced := CalcTakePnl(totals);
      target := target.(targetX := priced.0, targetY := priced.1);
      if hasOrders {
        var _ :- SettleFunds();
      }
      return Ok(());
    }

    method WithdrawPnl() returns (r: Result<()>)
      modifies this
      ensures match Steps.WithdrawPnl(old(State()))
              case Ok(t) => r.Ok? && State() == t
              case Err(e) => r == Err(e)
    {
      if amm.status == UNINITIALIZED {
        return Err(InvalidStatus);
      }
      var coinPnl, pcPnl := amm.stateData.totalPnlCoin, amm.stateData.totalPnlPc;
      if coinPnl == 0 && pcPnl == 0 {
        return Err(InsufficientFunds);
      }
      if coinPnl > 0 {
        var _ :- TransferCoinOut(coinPnl);
      }
      if pcPnl > 0 {
        var _ :- TransferPcOut(pcPnl);
      }
      amm := amm.(stateData := amm.stateData.(totalPnlCoin := 0));
      amm := amm.(stateData := amm.stateData.(totalPnlPc := 0));
      return Ok(());
    }

    method SetParams(args: SetParamsArgs) returns (r: Result<()>)
      modifies this
      ensures match Steps.SetParams(old(State()), args)
              case Ok(t) => r.Ok? && State() == t
              case Err(e) => r == Err(e)
    {
      if amm.status == UNINITIALIZED {
        return Err(InvalidStatus);
      }
      if args.param > 17 {
        return Err(Panicked);
      }
      if args.param == 9 {
        if args.fees.Some? {
          amm := amm.(fees := args.fees.value);
        }
      } else if args.param == 10 {
        if args.newPubkey.Some? {
          amm := amm.(ammOwner := args.newPubkey.value);
        }
      } else if args.param == 15 {
        amm := amm.(stateData := amm.stateData.(poolOpenTime := 0));
      } else if args.value.Some? {
        match args.param
        case 0 => amm := amm.(status := args.value.value);
        case 1 => amm := amm.(state := args.value.value);
        case 2 => amm := amm.(orderNum := args.value.value);
        case 3 => amm := amm.(depth := args.value.value);
        case 4 => amm := amm.(amountWave := args.value.value);
        case 5 => amm := amm.(minPriceMultiplier := args.value.value);
        case 6 => amm := amm.(maxPriceMultiplier := args.value.value);
        case 7 => amm := amm.(minSize := args.value.value);
        case 8 => amm := amm.(volMaxCutRatio := args.value.value);
        case 11 => amm := amm.(stateData := amm.stateData.(poolOpenTime := args.value.value));
        case _ =>
      }
      return Ok(());
    }

    // -------------------------------------------------------------- the runtime

    /** Undoing the writes of a failed handler. */
    method Restore(saved: PoolState)
      modifies this
      ensures State() == saved
    {
      amm, target := saved.amm, saved.target;
      vaultCoin, vaultPc, bookCoin, bookPc := saved.vaultCoin, saved.vaultPc, saved.bookCoin, saved.bookPc;
    }

    method Dispatch(build: Build, step: Step) returns (r: Result<()>)
      modifies this
      ensures match Outcome(build, old(State()), step)
              case Ok(t) => r.Ok? && State() == t
              case Err(e) => r == Err(e)
    {
      match step
      case DepositStep(args, env) => r := Deposit(args, env);
      case WithdrawStep(args, env) => r := Withdraw(args, env);
      case SwapBaseInStep(direction, args, env) => r := SwapBaseIn(build, direction, args, env);
      case SwapBaseOutStep(direction, args, env) => r := SwapBaseOut(direction, args, env);
      case MonitoringStep(hasOrders) => r := MonitorStep(hasOrders);
      case WithdrawPnlStep => r := WithdrawPnl();
      case SetParamsStep(params) => r := SetParams(params);
    }

    /** One instruction as the runtime executes it: all of its writes or none. */
    method Process(build: Build, step: Step) returns (r: Result<()>)
      modifies this
      ensures State() == Apply(build, old(State()), step)
      ensures r.Ok? <==> Outcome(build, old(State()), step).Ok?
      ensures r.Err? ==> State() == old(State())
    {
      var saved := State();
      r := Dispatch(build, step);
      if r.Err? {
        Restore(saved);
      }
    }

    /** A whole run executed on the pool object is the run of the specification. */
    method ProcessAll(build: Build, steps: seq<Step>)
      modifies this
      ensures State() == Run(build, old(State()), steps)
    {
      var i := 0;
      while i < |steps|
        invariant i <= |steps|
        invariant Run(build, State(), steps[i..]) == Run(build, old(State()), steps)
      {
        assert steps[i..][0] == steps[i] && steps[i..][1..] == steps[i + 1..];
        var _ := Process(build, steps[i]);
        i := i + 1;
      }
      assert steps[i..] == [];
    }
  }
}
