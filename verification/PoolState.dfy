/** What the program stores about one pool, and the token amounts it owns. */
module PoolState {
  import opened Machine
  import opened Bytes

  // AmmStatus
  const UNINITIALIZED: u64 := 0
  const INITIALIZED: u64 := 1
  const WITHDRAW_ONLY: u64 := 3
  const LIQUIDITY_ONLY: u64 := 4
  const ORDER_BOOK_ONLY: u64 := 5
  const SWAP_ONLY: u64 := 6
  const WAITING_TRADE: u64 := 7

  predicate DepositPermission(status: u64) {
    status == INITIALIZED || LIQUIDITY_ONLY <= status <= WAITING_TRADE
  }

  predicate WithdrawPermission(status: u64) {
    status == INITIALIZED || WITHDRAW_ONLY <= status <= WAITING_TRADE
  }

  predicate SwapPermission(status: u64) {
    status == INITIALIZED || status == SWAP_ONLY || status == WAITING_TRADE
  }

  predicate OrderbookPermission(status: u64) {
    status == INITIALIZED || status == ORDER_BOOK_ONLY
  }

  datatype Fees = Fees(
    minSeparateNumerator: u64, minSeparateDenominator: u64,
    tradeFeeNumerator: u64, tradeFeeDenominator: u64,
    pnlNumerator: u64, pnlDenominator: u64,
    swapFeeNumerator: u64, swapFeeDenominator: u64)

  const INITIAL_FEES := Fees(5, 10000, 25, 10000, 12, 100, 25, 10000)

  datatype StateData = StateData(
    needTakePnlCoin: u64, needTakePnlPc: u64,
    totalPnlPc: u64, totalPnlCoin: u64,
    poolOpenTime: u64, orderbookToInitTime: u64,
    swapCoinInAmount: u128, swapPcOutAmount: u128, swapAccPcFee: u64,
    swapPcInAmount: u128, swapCoinOutAmount: u128, swapAccCoinFee: u64)

  /** The fields of `AmmInfo` that a handler reads or writes; keys other than the owner are left out. */
  datatype AmmInfo = AmmInfo(
    status: u64, orderNum: u64, depth: u64, coinDecimals: u64, pcDecimals: u64, state: u64,
    minSize: u64, volMaxCutRatio: u64, amountWave: u64,
    minPriceMultiplier: u64, maxPriceMultiplier: u64, sysDecimalValue: u64,
    fees: Fees, stateData: StateData, ammOwner: Pubkey, lpAmount: u64)

  datatype TargetOrders = TargetOrders(calcPnlX: u128, calcPnlY: u128, targetX: u128, targetY: u128)

  /** The vault amounts are the balances of the two token accounts; the book amounts are what
      `calc_exact_vault_in_serum` finds on the order book, which settling moves into the vaults. */
  datatype PoolState = PoolState(
    amm: AmmInfo, target: TargetOrders,
    vaultCoin: u64, vaultPc: u64, bookCoin: u64, bookPc: u64)

  function ReserveCoin(s: PoolState): nat {
    s.vaultCoin + s.bookCoin
  }

  function ReservePc(s: PoolState): nat {
    s.vaultPc + s.bookPc
  }

  /** Which code line 412 of swap.rs is read as.  `AsWritten`: an exact-in swap from pc to coin pays
      its OUTPUT amount into the pc vault.  `Intended`: it pays its input amount, as the mirrored
      branch (line 312), the exact-out branch (line 840) and the counter (line 433) do. */
  datatype Build = AsWritten | Intended
}
