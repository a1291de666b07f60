/** The instructions of the pool as functions from state to state or failure.  The runtime discards
    every write of an instruction that fails, so a failure carries no state. */
module Steps {
  import opened Machine
  import opened Bytes
  import opened CeilDiv
  import opened Quotes
  import opened Decimals
  import opened InitialLp
  import opened PoolState

  datatype InitializeArgs = InitializeArgs(openTime: u64, initPcAmount: u64, initCoinAmount: u64)
  datatype DepositArgs = DepositArgs(maxCoinAmount: u64, maxPcAmount: u64, baseSide: u64, otherAmountMin: Option<u64>)
  datatype WithdrawArgs = WithdrawArgs(amount: u64, minCoinAmount: Option<u64>, minPcAmount: Option<u64>)
  datatype SwapBaseInArgs = SwapBaseInArgs(amountIn: u64, minimumAmountOut: u64)
  datatype SwapBaseOutArgs = SwapBaseOutArgs(maxAmountIn: u64, amountOut: u64)
  datatype SetParamsArgs = SetParamsArgs(param: u8, value: Option<u64>, newPubkey: Option<Pubkey>, fees: Option<Fees>,
                                         lastOrderDistance: Option<(u64, u64)>)

  /** What the instruction finds outside the pool: balances of the caller's token accounts, the
      supply of the LP mint, the clock. */
  datatype LiquidityEnv = LiquidityEnv(userCoin: u64, userPc: u64, userLp: u64, lpSupply: u64)
  datatype SwapEnv = SwapEnv(now: u64, userSource: u64)

  // ---------------------------------------------------------------- shared pieces

  /** `load_mut_checked` refuses status 0; `AmmStatus::from_u64` panics on unknown numbers. */
  function LoadedStatus(s: PoolState): Result<u64> {
    if s.amm.status == UNINITIALIZED then Err(InvalidStatus)
    else if s.amm.status > WAITING_TRADE then Err(Panicked)
    else Ok(s.amm.status)
  }

  function SubNeeded(total: nat, need: u64): Result<u64> {
    if total >= U64_LIMIT then Err(CheckedAddOverflow)
    else if total < need then Err(CheckedSubOverflow)
    else Ok(total - need)
  }

  /** `calc_total_without_take_pnl` and its variant without order book: (pc, coin). */
  function Totals(s: PoolState, withBook: bool): Result<(u64, u64)> {
    var pc :- SubNeeded(if withBook then s.vaultPc + s.bookPc else s.vaultPc, s.amm.stateData.needTakePnlPc);
    var coin :- SubNeeded(if withBook then s.vaultCoin + s.bookCoin else s.vaultCoin, s.amm.stateData.needTakePnlCoin);
    Ok((pc, coin))
  }

  /** Cancelling every order and settling moves what is on the book into the vaults. */
  function Settle(s: PoolState): Result<PoolState> {
    if s.vaultCoin + s.bookCoin >= U64_LIMIT || s.vaultPc + s.bookPc >= U64_LIMIT then Err(TransferRejected)
    else Ok(s.(vaultCoin := s.vaultCoin + s.bookCoin, vaultPc := s.vaultPc + s.bookPc, bookCoin := 0, bookPc := 0))
  }

  function SaturatingAdd(a: u64, b: u64): u64 {
    if a + b >= U64_LIMIT then U64_LIMIT - 1 else a + b
  }

  function SaturatingSub(a: u64, b: u64): u64 {
    if a < b then 0 else a - b
  }

  function Truncate64(v: u128): u64 {
    v % U64_LIMIT
  }

  /** `calc_take_pnl`: adds the recorded pnl to the totals owed ... */
  function TakePnl(s: PoolState): PoolState {
    s.(amm := s.amm.(stateData := s.amm.stateData.(
       totalPnlPc := SaturatingAdd(s.amm.stateData.totalPnlPc, Truncate64(s.target.calcPnlX)),
       totalPnlCoin := SaturatingAdd(s.amm.stateData.totalPnlCoin, Truncate64(s.target.calcPnlY)))))
  }

  /** ... and takes it from the totals (pc, coin) that are priced. */
  function TotalsAfterPnl(s: PoolState, totals: (u64, u64)): (u64, u64) {
    (SaturatingSub(totals.0, Truncate64(s.target.calcPnlX)), SaturatingSub(totals.1, Truncate64(s.target.calcPnlY)))
  }

  function CreditCoin(s: PoolState, amount: u64): Result<PoolState> {
    if s.vaultCoin + amount >= U64_LIMIT then Err(TransferRejected) else Ok(s.(vaultCoin := s.vaultCoin + amount))
  }

  function CreditPc(s: PoolState, amount: u64): Result<PoolState> {
    if s.vaultPc + amount >= U64_LIMIT then Err(TransferRejected) else Ok(s.(vaultPc := s.vaultPc + amount))
  }

  function DebitCoin(s: PoolState, amount: u64): Result<PoolState> {
    if s.vaultCoin < amount then Err(TransferRejected) else Ok(s.(vaultCoin := s.vaultCoin - amount))
  }

  function DebitPc(s: PoolState, amount: u64): Result<PoolState> {
    if s.vaultPc < amount then Err(TransferRejected) else Ok(s.(vaultPc := s.vaultPc - amount))
  }

  /** `InvariantToken` and `InvariantPool`, rounding up and down. */
  function ExchangeCeiling(amount: u64, numerator: u64, denominator: u64): Result<u64> {
    Mul64(amount, numerator);
    match CeilDivPair(amount * numerator, denominator)
    case None => Err(Panicked)
    case Some((q, _)) => if q >= U64_LIMIT then Err(Panicked) else Ok(q)
  }

  function ExchangeFloor(amount: u64, numerator: u64, denominator: u64): Result<u64> {
    Mul64(amount, numerator);
    if denominator == 0 || amount * numerator / denominator >= U64_LIMIT then Err(Panicked)
    else
      QuotientFits(amount * numerator, denominator);
      Ok(amount * numerator / denominator)
  }

  // ---------------------------------------------------------------- Initialize2

  /** A new pool over two vaults that may already hold something. */
  ghost function InitializedPool(args: InitializeArgs, env: LiquidityEnv, vaultCoin: u64, vaultPc: u64,
                                 owner: Pubkey): Result<PoolState> {
    ProductFits(args.initCoinAmount, args.initPcAmount);
    var lp: u64 := FloorSqrt(args.initCoinAmount * args.initPcAmount);
    var _ :- Check(env.lpSupply + lp < U64_LIMIT, TransferRejected);
    var _ :- Check(args.initCoinAmount <= env.userCoin && args.initPcAmount <= env.userPc, TransferRejected);
    var _ :- Check(vaultCoin + args.initCoinAmount < U64_LIMIT, TransferRejected);
    var _ :- Check(vaultPc + args.initPcAmount < U64_LIMIT, TransferRejected);
    Ok(PoolState(
      AmmInfo(INITIALIZED, 0, 0, 0, 0, 0, 0, 0, 0, 0, 0, 0, INITIAL_FEES,
              StateData(0, 0, 0, 0, args.openTime, 0, 0, 0, 0, 0, 0, 0), owner, lp),
      TargetOrders(0, 0, 0, 0),
      vaultCoin + args.initCoinAmount, vaultPc + args.initPcAmount, 0, 0))
  }

  // ---------------------------------------------------------------- Deposit

  datatype DepositAmounts = DepositAmounts(coin: u64, pc: u64, lp: u64)

  /** The amounts taken and minted for totals (pc, coin), with the slippage checks. */
  function DepositQuote(lpAmount: u64, totals: (u64, u64), args: DepositArgs): Result<DepositAmounts> {
    var (pc, coin) := totals;
    if args.baseSide == 0 then
      var deductPc :- ExchangeCeiling(args.maxCoinAmount, pc, coin);
      var _ :- Check(deductPc <= args.maxPcAmount, ExceededSlippage);
      var _ :- Check(args.otherAmountMin.Some? ==> args.otherAmountMin.value <= deductPc, ExceededSlippage);
      var lp :- ExchangeFloor(lpAmount, args.maxCoinAmount, coin);
      Ok(DepositAmounts(args.maxCoinAmount, deductPc, lp))
    else
      var deductCoin :- ExchangeCeiling(args.maxPcAmount, coin, pc);
      var _ :- Check(deductCoin <= args.maxCoinAmount, ExceededSlippage);
      var _ :- Check(args.otherAmountMin.Some? ==> args.otherAmountMin.value <= deductCoin, ExceededSlippage);
      var lp :- ExchangeFloor(lpAmount, args.maxPcAmount, pc);
      Ok(DepositAmounts(deductCoin, args.maxPcAmount, lp))
  }

  /** The bookkeeping of pnl after liquidity moved: total +- moved - delta, or a panic. */
  function PnlAfter(before: u128, plus: u128, minus: u128, delta: u128): Result<u128> {
    if before + plus >= U128_LIMIT || before + plus < minus || before + plus - minus < delta then Err(Panicked)
    else Ok(before + plus - minus - delta)
  }

  /** The amounts of a deposit on the totals after pnl. */
  function PriceDeposit(s: PoolState, args: DepositArgs): Result<DepositAmounts> {
    var totals :- Totals(s, OrderbookPermission(s.amm.status));
    var _ :- NormalizeDecimalV2(totals.0, s.amm.pcDecimals, s.amm.sysDecimalValue);
    var _ :- NormalizeDecimalV2(totals.1, s.amm.coinDecimals, s.amm.sysDecimalValue);
    var _ :- Check(s.amm.lpAmount != 0, NotAllowZeroLP);
    DepositQuote(s.amm.lpAmount, TotalsAfterPnl(s, totals), args)
  }

  /** The checks of a deposit around its pricing, in the handler's order. */
  function AcceptDeposit(s: PoolState, args: DepositArgs, env: LiquidityEnv,
                         priced: Result<DepositAmounts>): Result<DepositAmounts> {
    var _ :- Check(s.amm.status != UNINITIALIZED, InvalidStatus);
    var _ :- Check(args.maxCoinAmount != 0 && args.maxPcAmount != 0, InvalidInput);
    var status :- LoadedStatus(s);
    var _ :- Check(DepositPermission(status), InvalidStatus);
    var amounts :- priced;
    var _ :- Check(amounts.coin <= env.userCoin && amounts.pc <= env.userPc, InsufficientFunds);
    var _ :- Check(amounts.lp != 0 && amounts.coin != 0 && amounts.pc != 0, InvalidInput);
    Ok(amounts)
  }

  function DepositChecked(s: PoolState, args: DepositArgs, env: LiquidityEnv): Result<DepositAmounts> {
    AcceptDeposit(s, args, env, PriceDeposit(s, args))
  }

  function Deposit(s: PoolState, args: DepositArgs, env: LiquidityEnv): Result<PoolState> {
    var amounts :- DepositChecked(s, args, env);
    TakeIn(s, env, amounts)
  }

  /** The transfers and records of a deposit. */
  function TakeIn(s: PoolState, env: LiquidityEnv, amounts: DepositAmounts): Result<PoolState> {
    var totals :- Totals(s, OrderbookPermission(s.amm.status));
    var s1 :- CreditCoin(TakePnl(s), amounts.coin);
    var s2 :- CreditPc(s1, amounts.pc);
    var _ :- Check(env.lpSupply + amounts.lp < U64_LIMIT, TransferRejected);
    var _ :- Check(s.amm.lpAmount + amounts.lp < U64_LIMIT, Panicked);
    var x1 :- NormalizeDecimalV2(totals.0, s.amm.pcDecimals, s.amm.sysDecimalValue);
    var y1 :- NormalizeDecimalV2(totals.1, s.amm.coinDecimals, s.amm.sysDecimalValue);
    var dx :- NormalizeDecimalV2(amounts.pc, s.amm.pcDecimals, s.amm.sysDecimalValue);
    var x :- PnlAfter(x1, dx, 0, s.target.calcPnlX);
    var dy :- NormalizeDecimalV2(amounts.coin, s.amm.coinDecimals, s.amm.sysDecimalValue);
    var y :- PnlAfter(y1, dy, 0, s.target.calcPnlY);
    Ok(s2.(amm := s2.amm.(lpAmount := s.amm.lpAmount + amounts.lp),
           target := s2.target.(calcPnlX := x, calcPnlY := y)))
  }

  // ---------------------------------------------------------------- Withdraw

  datatype WithdrawAmounts = WithdrawAmounts(coin: u64, pc: u64)

  function WithdrawQuote(lpAmount: u64, totals: (u64, u64), amount: u64): Result<WithdrawAmounts> {
    var coin :- ExchangeFloor(totals.1, amount, lpAmount);
    var pc :- ExchangeFloor(totals.0, amount, lpAmount);
    Ok(WithdrawAmounts(coin, pc))
  }

  /** In status WithdrawOnly the pnl is neither taken nor subtracted. */
  function WithdrawTotals(s: PoolState, totals: (u64, u64)): (u64, u64) {
    if s.amm.status != WITHDRAW_ONLY then TotalsAfterPnl(s, totals) else totals
  }

  function WithdrawAllowed(args: WithdrawArgs, amounts: WithdrawAmounts, vaultCoin: u64, vaultPc: u64): Result<()> {
    var _ :- Check(args.amount != 0 && amounts.coin != 0 && amounts.pc != 0, InvalidInput);
    var _ :- Check(amounts.coin < vaultCoin && amounts.pc < vaultPc, TakePnlError);
    Check(args.minCoinAmount.Some? && args.minPcAmount.Some? ==>
            args.minCoinAmount.value <= amounts.coin && args.minPcAmount.value <= amounts.pc,
          ExceededSlippage)
  }

  /** The amounts of a withdrawal on the totals after settling. */
  function PriceWithdraw(s: PoolState, amount: u64): Result<WithdrawAmounts> {
    var withBook := OrderbookPermission(s.amm.status);
    var _ :- if withBook then Settle(s) else Ok(s);
    var totals :- Totals(s, withBook);
    var _ :- NormalizeDecimalV2(totals.0, s.amm.pcDecimals, s.amm.sysDecimalValue);
    var _ :- NormalizeDecimalV2(totals.1, s.amm.coinDecimals, s.amm.sysDecimalValue);
    WithdrawQuote(s.amm.lpAmount, WithdrawTotals(s, totals), amount)
  }

  /** The checks of a withdrawal around its pricing, in the handler's order. */
  function AcceptWithdraw(s: PoolState, args: WithdrawArgs, env: LiquidityEnv,
                          priced: Result<WithdrawAmounts>): (r: Result<WithdrawAmounts>)
    ensures r.Ok? ==> args.amount < s.amm.lpAmount
  {
    var status :- LoadedStatus(s);
    var _ :- Check(WithdrawPermission(status), InvalidStatus);
    var _ :- Check(args.amount <= env.userLp, InsufficientFunds);
    var _ :- Check(args.amount <= env.lpSupply && args.amount < s.amm.lpAmount, NotAllowZeroLP);
    var amounts :- priced;
    // compared with the vault balances read before settling
    var _ :- WithdrawAllowed(args, amounts, s.vaultCoin, s.vaultPc);
    Ok(amounts)
  }

  function WithdrawChecked(s: PoolState, args: WithdrawArgs, env: LiquidityEnv): (r: Result<WithdrawAmounts>)
    ensures r.Ok? ==> args.amount < s.amm.lpAmount
  {
    AcceptWithdraw(s, args, env, PriceWithdraw(s, args.amount))
  }

  function Withdraw(s: PoolState, args: WithdrawArgs, env: LiquidityEnv): Result<PoolState> {
    var amounts :- WithdrawChecked(s, args, env);
    PayOut(s, args.amount, amounts)
  }

  /** The transfers and records of a withdrawal. */
  function PayOut(s: PoolState, amount: u64, amounts: WithdrawAmounts): Result<PoolState>
    requires amount <= s.amm.lpAmount
  {
    var withBook := OrderbookPermission(s.amm.status);
    var totals :- Totals(s, withBook);
    var s1 :- if withBook then Settle(s) else Ok(s);
    var takes := s.amm.status != WITHDRAW_ONLY;
    var s2 := if takes then TakePnl(s1) else s1;
    var s3 :- DebitCoin(s2, amounts.coin);
    var s4 :- DebitPc(s3, amounts.pc);
    var x1 :- NormalizeDecimalV2(totals.0, s.amm.pcDecimals, s.amm.sysDecimalValue);
    var y1 :- NormalizeDecimalV2(totals.1, s.amm.coinDecimals, s.amm.sysDecimalValue);
    var dx :- NormalizeDecimalV2(amounts.pc, s.amm.pcDecimals, s.amm.sysDecimalValue);
    var x :- PnlAfter(x1, 0, dx, if takes then s.target.calcPnlX else 0);
    var dy :- NormalizeDecimalV2(amounts.coin, s.amm.coinDecimals, s.amm.sysDecimalValue);
    var y :- PnlAfter(y1, 0, dy, if takes then s.target.calcPnlY else 0);
    Ok(s4.(amm := s4.amm.(lpAmount := s.amm.lpAmount - amount),
           target := s4.target.(calcPnlX := x, calcPnlY := y)))
  }

  // ---------------------------------------------------------------- swaps

  /** The status a swap leaves, or why it may not run now. */
  function SwapStatus(s: PoolState, now: u64): Result<u64> {
    var status :- LoadedStatus(s);
    if !SwapPermission(status) then
      if status == ORDER_BOOK_ONLY && now >= s.amm.stateData.orderbookToInitTime then Ok(INITIALIZED)
      else Err(InvalidStatus)
    else if status == WAITING_TRADE then
      if now < s.amm.stateData.poolOpenTime then Err(InvalidStatus) else Ok(SWAP_ONLY)
    else Ok(status)
  }

  function InAndOut<T>(direction: SwapDirection, totals: (T, T)): (T, T) {
    match direction
    case Coin2PC => (totals.1, totals.0)
    case PC2Coin => totals
  }

  function SwapBaseInQuote(s: PoolState, direction: SwapDirection, amountIn: u64): Result<BaseInQuote> {
    var totals :- Totals(s, OrderbookPermission(s.amm.status));
    var (resIn, resOut) := InAndOut(direction, totals);
    QuoteBaseIn(s.amm.fees.swapFeeNumerator, s.amm.fees.swapFeeDenominator, resIn, resOut, amountIn)
  }

  function SwapBaseOutQuote(s: PoolState, direction: SwapDirection, amountOut: u64): Result<BaseOutQuote> {
    var totals :- Totals(s, OrderbookPermission(s.amm.status));
    var (resIn, resOut) := InAndOut(direction, totals);
    QuoteBaseOut(s.amm.fees.swapFeeNumerator, s.amm.fees.swapFeeDenominator, resIn, resOut, amountOut)
  }

  /** What an exact-in swap moves into the vault on its way in. */
  function PaidIn(build: Build, direction: SwapDirection, amountIn: u64, out: u64): u64 {
    if build == AsWritten && direction == PC2Coin then out else amountIn
  }

  /** Settling before a swap that the vault alone cannot pay, when there is an order book. */
  function SettleFor(s: PoolState, direction: SwapDirection, out: u64): Result<PoolState> {
    if OrderbookPermission(s.amm.status)
       && out > (match direction case Coin2PC => s.vaultPc case PC2Coin => s.vaultCoin)
    then Settle(s)
    else Ok(s)
  }

  /** The transfers and counters common to both swap modes: `paid` enters a vault, `out` leaves the
      other, and the counters record the gross input, the output and the fee. */
  function SwapTransfers(s: PoolState, direction: SwapDirection, userSource: u64, paid: u64, gross: u64, out: u64,
                         fee: u64): Result<PoolState> {
    var s1 :- SettleFor(s, direction, out);
    var _ :- Check(paid <= userSource, TransferRejected);
    var data := s.amm.stateData;
    match direction
    case Coin2PC =>
      var s2 :- CreditCoin(s1, paid);
      var s3 :- DebitPc(s2, out);
      var _ :- Check(data.swapCoinInAmount + gross < U128_LIMIT, Panicked);
      var _ :- Check(data.swapPcOutAmount + out < U128_LIMIT, Panicked);
      var _ :- Check(data.swapAccCoinFee + fee < U64_LIMIT, Panicked);
      Ok(s3.(amm := s3.amm.(stateData := data.(
         swapCoinInAmount := data.swapCoinInAmount + gross,
         swapPcOutAmount := data.swapPcOutAmount + out,
         swapAccCoinFee := data.swapAccCoinFee + fee))))
    case PC2Coin =>
      var s2 :- CreditPc(s1, paid);
      var s3 :- DebitCoin(s2, out);
      var _ :- Check(data.swapPcInAmount + gross < U128_LIMIT, Panicked);
      var _ :- Check(data.swapCoinOutAmount + out < U128_LIMIT, Panicked);
      var _ :- Check(data.swapAccPcFee + fee < U64_LIMIT, Panicked);
      Ok(s3.(amm := s3.amm.(stateData := data.(
         swapPcInAmount := data.swapPcInAmount + gross,
         swapCoinOutAmount := data.swapCoinOutAmount + out,
         swapAccPcFee := data.swapAccPcFee + fee))))
  }

  /** The checks of an exact-in swap on its quote, in the handler's order. */
  function AcceptBaseIn(s: PoolState, direction: SwapDirection, args: SwapBaseInArgs, env: SwapEnv,
                        quoted: Result<BaseInQuote>): Result<BaseInQuote> {
    var _ :- SwapStatus(s, env.now);
    var totals :- Totals(s, OrderbookPermission(s.amm.status));
    var _ :- Check(args.amountIn <= env.userSource, InsufficientFunds);
    var quote :- quoted;
    var _ :- Check(args.minimumAmountOut <= quote.out, ExceededSlippage);
    var _ :- Check(quote.out != 0 && args.amountIn != 0, InvalidInput);
    var _ :- Check(quote.out < InAndOut(direction, totals).1, InsufficientFunds);
    Ok(quote)
  }

  function SwapBaseInChecked(s: PoolState, direction: SwapDirection, args: SwapBaseInArgs,
                             env: SwapEnv): Result<BaseInQuote> {
    AcceptBaseIn(s, direction, args, env, SwapBaseInQuote(s, direction, args.amountIn))
  }

  function ExecuteBaseIn(build: Build, s: PoolState, direction: SwapDirection, args: SwapBaseInArgs, env: SwapEnv,
                         accepted: Result<BaseInQuote>): Result<PoolState> {
    var status :- SwapStatus(s, env.now);
    var quote :- accepted;
    var paid := PaidIn(build, direction, args.amountIn, quote.out);
    var s1 :- SwapTransfers(s, direction, env.userSource, paid, args.amountIn, quote.out, quote.fee);
    Ok(s1.(amm := s1.amm.(status := status)))
  }

  function SwapBaseIn(build: Build, s: PoolState, direction: SwapDirection, args: SwapBaseInArgs,
                      env: SwapEnv): Result<PoolState> {
    ExecuteBaseIn(build, s, direction, args, env, SwapBaseInChecked(s, direction, args, env))
  }

  /** The checks of an exact-out swap on its quote, in the handler's order. */
  function AcceptBaseOut(s: PoolState, direction: SwapDirection, args: SwapBaseOutArgs, env: SwapEnv,
                         quoted: Result<BaseOutQuote>): Result<BaseOutQuote> {
    var _ :- SwapStatus(s, env.now);
    var totals :- Totals(s, OrderbookPermission(s.amm.status));
    var quote :- quoted;
    var _ :- Check(quote.after <= env.userSource, InsufficientFunds);
    var _ :- Check(quote.after <= args.maxAmountIn, ExceededSlippage);
    var _ :- Check(quote.after != 0 && args.amountOut != 0, InvalidInput);
    var _ :- Check(args.amountOut < InAndOut(direction, totals).1, InsufficientFunds);
    Ok(quote)
  }

  function SwapBaseOutChecked(s: PoolState, direction: SwapDirection, args: SwapBaseOutArgs,
                              env: SwapEnv): Result<BaseOutQuote> {
    AcceptBaseOut(s, direction, args, env, SwapBaseOutQuote(s, direction, args.amountOut))
  }

  function ExecuteBaseOut(s: PoolState, direction: SwapDirection, args: SwapBaseOutArgs, env: SwapEnv,
                          accepted: Result<BaseOutQuote>): Result<PoolState> {
    var status :- SwapStatus(s, env.now);
    var quote :- accepted;
    var s1 :- SwapTransfers(s, direction, env.userSource, quote.after, quote.after, args.amountOut, quote.fee);
    Ok(s1.(amm := s1.amm.(status := status)))
  }

  function SwapBaseOut(s: PoolState, direction: SwapDirection, args: SwapBaseOutArgs, env: SwapEnv): Result<PoolState> {
    ExecuteBaseOut(s, direction, args, env, SwapBaseOutChecked(s, direction, args, env))
  }

  // ---------------------------------------------------------------- MonitorStep, WithdrawPnl, SetParams

  function MonitorStep(s: PoolState, hasOrders: bool): Result<PoolState> {
    var _ :- Check(s.amm.status != UNINITIALIZED, InvalidStatus);
    var totals :- Totals(s, true);
    var priced := TotalsAfterPnl(s, totals);
    var s1 := TakePnl(s).(target := s.target.(targetX := priced.0, targetY := priced.1));
    if hasOrders then Settle(s1) else Ok(s1)
  }

  function WithdrawPnl(s: PoolState): Result<PoolState> {
    var data := s.amm.stateData;
    var _ :- Check(s.amm.status != UNINITIALIZED, InvalidStatus);
    var _ :- Check(data.totalPnlCoin != 0 || data.totalPnlPc != 0, InsufficientFunds);
    var s1 :- DebitCoin(s, data.totalPnlCoin);
    var s2 :- DebitPc(s1, data.totalPnlPc);
    Ok(s2.(amm := s.amm.(stateData := data.(totalPnlCoin := 0, totalPnlPc := 0))))
  }

  function WithValue(amm: AmmInfo, param: u8, value: u64): AmmInfo {
    match param
    case 0 => amm.(status := value)
    case 1 => amm.(state := value)
    case 2 => amm.(orderNum := value)
    case 3 => amm.(depth := value)
    case 4 => amm.(amountWave := value)
    case 5 => amm.(minPriceMultiplier := value)
    case 6 => amm.(maxPriceMultiplier := value)
    case 7 => amm.(minSize := value)
    case 8 => amm.(volMaxCutRatio := value)
    case 11 => amm.(stateData := amm.stateData.(poolOpenTime := value))
    case _ => amm
  }

  /** Any value is stored unchecked: no fee fraction and no status number is validated here. */
  function SetParams(s: PoolState, args: SetParamsArgs): Result<PoolState> {
    var _ :- Check(s.amm.status != UNINITIALIZED, InvalidStatus);
    var _ :- Check(args.param <= 17, Panicked);
    Ok(s.(amm :=
        if args.param == 9 then (if args.fees.Some? then s.amm.(fees := args.fees.value) else s.amm)
        else if args.param == 10 then (if args.newPubkey.Some? then s.amm.(ammOwner := args.newPubkey.value) else s.amm)
        else if args.param == 15 then s.amm.(stateData := s.amm.stateData.(poolOpenTime := 0))
        else if args.value.Some? then WithValue(s.amm, args.param, args.value.value)
        else s.amm))
  }
}
