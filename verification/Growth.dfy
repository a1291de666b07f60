/** What each accepted instruction does to the reserves and to the reserves per LP unit. */
module Growth {
  import opened Machine
  import opened Arith
  import opened CeilDiv
  import opened Quotes
  import opened Decimals
  import opened PoolState
  import opened Steps

  /** No scale is set and no pnl is recorded, taken or owed. */
  predicate Clean(s: PoolState) {
    && s.amm.sysDecimalValue == 0
    && s.amm.stateData.needTakePnlCoin == 0 && s.amm.stateData.needTakePnlPc == 0
    && s.amm.stateData.totalPnlCoin == 0 && s.amm.stateData.totalPnlPc == 0
    && s.target.calcPnlX == 0 && s.target.calcPnlY == 0
  }

  /** The handlers price the whole reserves: the book is read, or holds nothing. */
  predicate Priced(s: PoolState) {
    OrderbookPermission(s.amm.status) || (s.bookCoin == 0 && s.bookPc == 0)
  }

  /** The product of the reserves per squared LP unit has not fallen from s to t, compared without
      dividing; a pool without LP stays so and keeps at least its product. */
  predicate GrowthHolds(s: PoolState, t: PoolState) {
    NotFallen(Product(s), s.amm.lpAmount, Product(t), t.amm.lpAmount)
  }

  /** The constant product's k. */
  function Product(s: PoolState): nat {
    ReserveCoin(s) * ReservePc(s)
  }

  predicate NotFallen(ps: nat, ls: nat, pt: nat, lt: nat) {
    if ls == 0 then lt == 0 && pt >= ps
    else lt > 0 && pt * (ls * ls) >= ps * (lt * lt)
  }

  /** The pool owns at least its LP amount squared. */
  predicate Backed(s: PoolState) {
    s.amm.lpAmount * s.amm.lpAmount <= Product(s)
  }

  // ---------------------------------------------------------------- arithmetic of shares

  lemma Swap4(a: int, b: int, c: int, d: int)
    ensures (a * b) * (c * d) == (a * c) * (b * d)
  {
    assert (a * b) * (c * d) == a * (b * (c * d));
    assert b * (c * d) == c * (b * d);
    assert a * (c * (b * d)) == (a * c) * (b * d);
  }

  lemma ProductOfShares(c: nat, p: nat, l: nat, c': nat, p': nat, l': nat)
    requires c' * l >= c * l' && p' * l >= p * l'
    ensures (c' * p') * (l * l) >= (c * p) * (l' * l')
  {
    MulLe(c * l', c' * l, p * l');
    MulLe(p * l', p' * l, c' * l);
    Swap4(c', l, p', l);
    Swap4(c, l', p, l');
  }

  lemma SumShares(c: nat, l: nat, dc: nat, m: nat)
    requires m * c <= l * dc
    ensures (c + dc) * l >= c * (l + m)
    ensures (c + dc) * m <= dc * (l + m)
  {
    assert (c + dc) * l == c * l + l * dc;
    assert c * (l + m) == c * l + m * c;
    assert (c + dc) * m == m * c + dc * m;
    assert dc * (l + m) == l * dc + dc * m;
  }

  /** The LP minted from one side is covered by the true ceiling taken on the other side. */
  lemma OtherSideCovers(c: nat, p: nat, l: nat, dc: nat, dp: nat, m: nat)
    requires c > 0 && m * c <= l * dc && dc * p <= dp * c
    ensures m * p <= l * dp
  {
    MulLe(m * c, l * dc, p);
    MulLe(dc * p, dp * c, l);
    assert (m * c) * p == (m * p) * c;
    assert (l * dc) * p == l * (dc * p);
    assert l * (dp * c) == (l * dp) * c;
    MulCancel(m * p, l * dp, c);
  }

  lemma GrowthTransitive(s: PoolState, t: PoolState, u: PoolState)
    requires GrowthHolds(s, t) && GrowthHolds(t, u)
    ensures GrowthHolds(s, u)
  {
    NotFallenTransitive(Product(s), s.amm.lpAmount, Product(t), t.amm.lpAmount, Product(u), u.amm.lpAmount);
  }

  lemma NotFallenTransitive(ps: nat, ls: nat, pt: nat, lt: nat, pu: nat, lu: nat)
    requires NotFallen(ps, ls, pt, lt) && NotFallen(pt, lt, pu, lu)
    ensures NotFallen(ps, ls, pu, lu)
  {
    if ls > 0 {
      MulLe(1, lt, lt);
      Transitive(ps, ls * ls, pt, lt * lt, pu, lu * lu);
    }
  }

  lemma Transitive(ps: nat, ls: nat, pt: nat, at: nat, pu: nat, au: nat)
    requires at > 0
    requires pt * ls >= ps * at && pu * at >= pt * au
    ensures pu * ls >= ps * au
  {
    MulLe(ps * at, pt * ls, au);
    MulLe(pt * au, pu * at, ls);
    assert (ps * at) * au == (ps * au) * at;
    assert (pt * ls) * au == (pt * au) * ls;
    assert (pu * at) * ls == (pu * ls) * at;
    MulCancel(ps * au, pu * ls, at);
  }

  lemma BackedGrows(s: PoolState, t: PoolState)
    requires Backed(s) && GrowthHolds(s, t)
    ensures Backed(t)
  {
    BackedStays(Product(s), s.amm.lpAmount, Product(t), t.amm.lpAmount);
  }

  lemma BackedStays(ps: nat, ls: nat, pt: nat, lt: nat)
    requires ls * ls <= ps && NotFallen(ps, ls, pt, lt)
    ensures lt * lt <= pt
  {
    if ls > 0 {
      MulLe(1, ls, ls);
      MulLe(ls * ls, ps, lt * lt);
      MulCancel(lt * lt, pt, ls * ls);
    }
  }

  // ---------------------------------------------------------------- clean states

  lemma CleanTotals(s: PoolState, withBook: bool)
    requires Clean(s) && (withBook || (s.bookCoin == 0 && s.bookPc == 0))
    ensures Totals(s, withBook).Ok? ==> Totals(s, withBook).value == (ReservePc(s), ReserveCoin(s))
    ensures TakePnl(s) == s
    ensures forall totals :: TotalsAfterPnl(s, totals) == totals
  {
  }

  lemma CleanNormalize(val: u64, decimals: u64)
    ensures NormalizeDecimalV2(val, decimals, 0).Ok? ==> NormalizeDecimalV2(val, decimals, 0).value == 0
  {
    FloorAdjoint(0, Pow10(decimals), 1);
    QuotientFits(0, Pow10(decimals));
  }

  predicate SameCounters(s: PoolState, t: PoolState) {
    var (d, d') := (s.amm.stateData, t.amm.stateData);
    && d'.swapCoinInAmount == d.swapCoinInAmount && d'.swapCoinOutAmount == d.swapCoinOutAmount
    && d'.swapPcInAmount == d.swapPcInAmount && d'.swapPcOutAmount == d.swapPcOutAmount
    && d'.swapAccCoinFee == d.swapAccCoinFee && d'.swapAccPcFee == d.swapAccPcFee
  }

  // ---------------------------------------------------------------- deposit

  /** What any accepted deposit moves, in any state. */
  lemma DepositMoves(s: PoolState, args: DepositArgs, env: LiquidityEnv)
    requires Deposit(s, args, env).Ok?
    ensures DepositChecked(s, args, env).Ok?
    ensures var (amounts, t) := (DepositChecked(s, args, env).value, Deposit(s, args, env).value);
            && t.vaultCoin == s.vaultCoin + amounts.coin && t.vaultPc == s.vaultPc + amounts.pc
            && t.bookCoin == s.bookCoin && t.bookPc == s.bookPc
            && t.amm.lpAmount == s.amm.lpAmount + amounts.lp
            && SameCounters(s, t) && (Clean(s) ==> Clean(t))
  {
    var amounts := DepositChecked(s, args, env).value;
    var totals := Totals(s, OrderbookPermission(s.amm.status)).value;
    CleanNormalize(totals.0, s.amm.pcDecimals);
    CleanNormalize(totals.1, s.amm.coinDecimals);
    CleanNormalize(amounts.pc, s.amm.pcDecimals);
    CleanNormalize(amounts.coin, s.amm.coinDecimals);
  }

  lemma DepositEffect(s: PoolState, args: DepositArgs, env: LiquidityEnv)
    requires Clean(s) && Priced(s) && Deposit(s, args, env).Ok?
    ensures DepositChecked(s, args, env).Ok?
    ensures ReserveCoin(s) < U64_LIMIT && ReservePc(s) < U64_LIMIT && s.amm.lpAmount > 0
    ensures var amounts := DepositChecked(s, args, env).value;
            && DepositQuote(s.amm.lpAmount, (ReservePc(s), ReserveCoin(s)), args) == Ok(amounts)
            && amounts.lp > 0 && amounts.coin > 0 && amounts.pc > 0
            && amounts.coin <= args.maxCoinAmount && amounts.pc <= args.maxPcAmount
            && s.vaultCoin + amounts.coin < U64_LIMIT && s.vaultPc + amounts.pc < U64_LIMIT
            && s.amm.lpAmount + amounts.lp < U64_LIMIT
            && Deposit(s, args, env).value
               == s.(vaultCoin := s.vaultCoin + amounts.coin, vaultPc := s.vaultPc + amounts.pc,
                     amm := s.amm.(lpAmount := s.amm.lpAmount + amounts.lp))
  {
    CleanTotals(s, OrderbookPermission(s.amm.status));
    var amounts := DepositChecked(s, args, env).value;
    CleanNormalize(ReservePc(s), s.amm.pcDecimals);
    CleanNormalize(ReserveCoin(s), s.amm.coinDecimals);
    CleanNormalize(amounts.pc, s.amm.pcDecimals);
    CleanNormalize(amounts.coin, s.amm.coinDecimals);
  }

  /** An accepted deposit of either base side takes the given amount on its base side and the true
      ceiling of the matching amount on the other, although that division is no ceiling in general;
      it mints the largest LP share that the base side pays for, and the other side pays for it too. */
  lemma DepositPaysShare(lp: u64, pc: u64, coin: u64, args: DepositArgs)
    requires DepositQuote(lp, (pc, coin), args).Ok?
    requires var amounts := DepositQuote(lp, (pc, coin), args).value; amounts.coin != 0 && amounts.pc != 0
    ensures var amounts := DepositQuote(lp, (pc, coin), args).value;
            && coin > 0 && pc > 0 && amounts.lp * coin <= lp * amounts.coin && amounts.lp * pc <= lp * amounts.pc
            && (args.baseSide == 0 ==> amounts.coin == args.maxCoinAmount
                                       && amounts.pc == Ceil(args.maxCoinAmount * pc, coin)
                                       && lp * amounts.coin < (amounts.lp + 1) * coin)
            && (args.baseSide != 0 ==> amounts.pc == args.maxPcAmount
                                       && amounts.coin == Ceil(args.maxPcAmount * coin, pc)
                                       && lp * amounts.pc < (amounts.lp + 1) * pc)
  {
    var amounts := DepositQuote(lp, (pc, coin), args).value;
    if args.baseSide == 0 {
      ShareOf(amounts.coin, pc, coin, amounts.pc, lp, amounts.lp);
    } else {
      ShareOf(amounts.pc, coin, pc, amounts.coin, lp, amounts.lp);
    }
  }

  lemma ShareOf(given: u64, other: u64, total: u64, taken: u64, lp: u64, minted: u64)
    requires ExchangeCeiling(given, other, total) == Ok(taken) && taken != 0
    requires ExchangeFloor(lp, given, total) == Ok(minted)
    ensures minted * total <= lp * given && minted * other <= lp * taken
    ensures 0 < given && 0 < other && 0 < total && taken == Ceil(given * other, total)
    ensures lp * given < (minted + 1) * total
  {
    Mul64(given, other);
    Mul64(lp, given);
    NonzeroChargeIsCeiling(given, other, total);
    FloorAdjoint(lp * given, total, minted + 1);
    NonzeroIsCeiling(given * other, total);
    CeilAdjoint(given * other, total, taken);
    FloorAdjoint(lp * given, total, minted);
    OtherSideCovers(total, other, lp, given, taken, minted);
  }

  /** An accepted deposit lowers neither reserve per LP unit. */
  lemma DepositKeepsShares(s: PoolState, args: DepositArgs, env: LiquidityEnv)
    requires Clean(s) && Priced(s) && Deposit(s, args, env).Ok?
    ensures var t := Deposit(s, args, env).value;
            && ReserveCoin(t) * s.amm.lpAmount >= ReserveCoin(s) * t.amm.lpAmount
            && ReservePc(t) * s.amm.lpAmount >= ReservePc(s) * t.amm.lpAmount
            && GrowthHolds(s, t)
  {
    DepositEffect(s, args, env);
    var amounts := DepositChecked(s, args, env).value;
    DepositPaysShare(s.amm.lpAmount, ReservePc(s), ReserveCoin(s), args);
    SumShares(ReserveCoin(s), s.amm.lpAmount, amounts.coin, amounts.lp);
    SumShares(ReservePc(s), s.amm.lpAmount, amounts.pc, amounts.lp);
    var t := Deposit(s, args, env).value;
    ProductOfShares(ReserveCoin(s), ReservePc(s), s.amm.lpAmount, ReserveCoin(t), ReservePc(t), t.amm.lpAmount);
  }

  // ---------------------------------------------------------------- withdraw

  /** What any accepted withdrawal moves, in any state. */
  lemma WithdrawMoves(s: PoolState, args: WithdrawArgs, env: LiquidityEnv)
    requires Withdraw(s, args, env).Ok?
    ensures WithdrawChecked(s, args, env).Ok?
    ensures var (amounts, t) := (WithdrawChecked(s, args, env).value, Withdraw(s, args, env).value);
            && ReserveCoin(t) == ReserveCoin(s) - amounts.coin && ReservePc(t) == ReservePc(s) - amounts.pc
            && t.amm.lpAmount == s.amm.lpAmount - args.amount
            && (if OrderbookPermission(s.amm.status) then t.bookCoin == 0 && t.bookPc == 0
                else t.bookCoin == s.bookCoin && t.bookPc == s.bookPc)
            && SameCounters(s, t) && (Clean(s) ==> Clean(t))
  {
    var amounts := WithdrawChecked(s, args, env).value;
    var totals := Totals(s, OrderbookPermission(s.amm.status)).value;
    CleanNormalize(totals.0, s.amm.pcDecimals);
    CleanNormalize(totals.1, s.amm.coinDecimals);
    CleanNormalize(amounts.pc, s.amm.pcDecimals);
    CleanNormalize(amounts.coin, s.amm.coinDecimals);
  }

  lemma WithdrawEffect(s: PoolState, args: WithdrawArgs, env: LiquidityEnv)
    requires Clean(s) && Priced(s) && Withdraw(s, args, env).Ok?
    ensures WithdrawChecked(s, args, env).Ok?
    ensures 0 < args.amount < s.amm.lpAmount
    ensures var amounts := WithdrawChecked(s, args, env).value;
            var t := Withdraw(s, args, env).value;
            && amounts.coin == ReserveCoin(s) * args.amount / s.amm.lpAmount
            && amounts.pc == ReservePc(s) * args.amount / s.amm.lpAmount
            && ReserveCoin(t) == ReserveCoin(s) - amounts.coin
            && ReservePc(t) == ReservePc(s) - amounts.pc
            && t.amm == s.amm.(lpAmount := s.amm.lpAmount - args.amount)
            && t.target == s.target
            && 0 < amounts.coin && 0 < amounts.pc
            && (args.minCoinAmount.Some? && args.minPcAmount.Some? ==>
                  args.minCoinAmount.value <= amounts.coin && args.minPcAmount.value <= amounts.pc)
            && (if OrderbookPermission(s.amm.status) then t.bookCoin == 0 && t.bookPc == 0
                else t.bookCoin == s.bookCoin && t.bookPc == s.bookPc)
  {
    var withBook := OrderbookPermission(s.amm.status);
    CleanTotals(s, withBook);
    var s1 := if withBook then Settle(s).value else s;
    CleanTotals(s1, true);
    var amounts := WithdrawChecked(s, args, env).value;
    CleanNormalize(ReservePc(s), s.amm.pcDecimals);
    CleanNormalize(ReserveCoin(s), s.amm.coinDecimals);
    CleanNormalize(amounts.pc, s.amm.pcDecimals);
    CleanNormalize(amounts.coin, s.amm.coinDecimals);
  }

  lemma KeepShare(c: nat, l: nat, w: nat, o: nat)
    requires 0 < l && w <= l && o == c * w / l
    ensures o <= c && (c - o) * l >= c * (l - w)
  {
    FloorAdjoint(c * w, l, o);
    assert c * (l - w) == c * l - c * w;
    assert (c - o) * l == c * l - o * l;
    FloorAdjoint(c * w, l, c + 1);
    MulLe(w, l, c);
    assert (c + 1) * l == c * l + l;
  }

  /** An accepted withdrawal lowers neither reserve per LP unit. */
  lemma WithdrawKeepsShares(s: PoolState, args: WithdrawArgs, env: LiquidityEnv)
    requires Clean(s) && Priced(s) && Withdraw(s, args, env).Ok?
    ensures var t := Withdraw(s, args, env).value;
            && ReserveCoin(t) * s.amm.lpAmount >= ReserveCoin(s) * t.amm.lpAmount
            && ReservePc(t) * s.amm.lpAmount >= ReservePc(s) * t.amm.lpAmount
            && GrowthHolds(s, t)
  {
    WithdrawEffect(s, args, env);
    var t := Withdraw(s, args, env).value;
    var amounts := WithdrawChecked(s, args, env).value;
    KeepShare(ReserveCoin(s), s.amm.lpAmount, args.amount, amounts.coin);
    KeepShare(ReservePc(s), s.amm.lpAmount, args.amount, amounts.pc);
    ProductOfShares(ReserveCoin(s), ReservePc(s), s.amm.lpAmount, ReserveCoin(t), ReservePc(t), t.amm.lpAmount);
  }

  lemma PayoutBelow(c: nat, l: nat, dc: nat, m: nat)
    requires m * c <= l * dc && l + m > 0
    ensures (c + dc) * m / (l + m) <= dc
  {
    SumShares(c, l, dc, m);
    FloorAdjoint((c + dc) * m, l + m, dc + 1);
    assert (dc + 1) * (l + m) == dc * (l + m) + l + m;
  }

  /** Depositing and at once withdrawing the minted LP returns at most what was put in, of both
      tokens. */
  lemma DepositThenWithdraw(s: PoolState, dep: DepositArgs, env: LiquidityEnv, wd: WithdrawArgs, env': LiquidityEnv)
    requires Clean(s) && Priced(s) && Deposit(s, dep, env).Ok?
    requires Withdraw(Deposit(s, dep, env).value, wd, env').Ok?
    requires wd.amount == Deposit(s, dep, env).value.amm.lpAmount - s.amm.lpAmount
    ensures DepositChecked(s, dep, env).Ok? && WithdrawChecked(Deposit(s, dep, env).value, wd, env').Ok?
    ensures var put := DepositChecked(s, dep, env).value;
            var got := WithdrawChecked(Deposit(s, dep, env).value, wd, env').value;
            got.coin <= put.coin && got.pc <= put.pc
    ensures var u := Withdraw(Deposit(s, dep, env).value, wd, env').value;
            && u.amm == s.amm
            && ReserveCoin(u) >= ReserveCoin(s) && ReservePc(u) >= ReservePc(s)
  {
    DepositEffect(s, dep, env);
    DepositPaysShare(s.amm.lpAmount, ReservePc(s), ReserveCoin(s), dep);
    WithdrawAfterDeposit(s, DepositChecked(s, dep, env).value, Deposit(s, dep, env).value, wd, env');
  }

  lemma WithdrawAfterDeposit(s: PoolState, put: DepositAmounts, t: PoolState, wd: WithdrawArgs, env: LiquidityEnv)
    requires Clean(s) && Priced(s) && s.amm.lpAmount > 0
    requires s.vaultCoin + put.coin < U64_LIMIT && s.vaultPc + put.pc < U64_LIMIT && s.amm.lpAmount + put.lp < U64_LIMIT
    requires put.lp * ReserveCoin(s) <= s.amm.lpAmount * put.coin && put.lp * ReservePc(s) <= s.amm.lpAmount * put.pc
    requires t == s.(vaultCoin := s.vaultCoin + put.coin, vaultPc := s.vaultPc + put.pc,
                     amm := s.amm.(lpAmount := s.amm.lpAmount + put.lp))
    requires wd.amount == put.lp && Withdraw(t, wd, env).Ok?
    ensures WithdrawChecked(t, wd, env).Ok?
    ensures WithdrawChecked(t, wd, env).value.coin <= put.coin && WithdrawChecked(t, wd, env).value.pc <= put.pc
    ensures var u := Withdraw(t, wd, env).value;
            u.amm == s.amm && ReserveCoin(u) >= ReserveCoin(s) && ReservePc(u) >= ReservePc(s)
  {
    WithdrawEffect(t, wd, env);
    PayoutBelow(ReserveCoin(s), s.amm.lpAmount, put.coin, put.lp);
    PayoutBelow(ReservePc(s), s.amm.lpAmount, put.pc, put.lp);
  }

  // ---------------------------------------------------------------- swaps

  lemma SettleKeepsReserves(s: PoolState)
    requires Settle(s).Ok?
    ensures ReserveCoin(Settle(s).value) == ReserveCoin(s) && ReservePc(Settle(s).value) == ReservePc(s)
    ensures Settle(s).value.amm == s.amm && Settle(s).value.target == s.target
    ensures Settle(s).value.bookCoin == 0 && Settle(s).value.bookPc == 0
  {
  }

  /** The counters of a direction advance by the gross input, the output and the fee, which is charged
      in the input token; those of the other direction stay. */
  predicate CountersMoved(s: PoolState, t: PoolState, direction: SwapDirection, gross: nat, out: nat, fee: nat) {
    var (d, d') := (s.amm.stateData, t.amm.stateData);
    var (coin2pc, pc2coin) := (direction == Coin2PC, direction == PC2Coin);
    && d'.swapCoinInAmount == d.swapCoinInAmount + (if coin2pc then gross else 0)
    && d'.swapPcOutAmount == d.swapPcOutAmount + (if coin2pc then out else 0)
    && d'.swapPcInAmount == d.swapPcInAmount + (if pc2coin then gross else 0)
    && d'.swapCoinOutAmount == d.swapCoinOutAmount + (if pc2coin then out else 0)
    && d'.swapAccCoinFee == d.swapAccCoinFee + (if coin2pc then fee else 0)
    && d'.swapAccPcFee == d.swapAccPcFee + (if pc2coin then fee else 0)
  }

  /** The transfers of a swap move the reserves by exactly what enters and leaves; the books are
      kept or emptied, and nothing outside the counters of `stateData` changes. */
  lemma TransfersEffect(s: PoolState, direction: SwapDirection, userSource: u64, paid: u64, gross: u64, out: u64,
                        fee: u64)
    requires SwapTransfers(s, direction, userSource, paid, gross, out, fee).Ok?
    ensures var t := SwapTransfers(s, direction, userSource, paid, gross, out, fee).value;
            && t.target == s.target && t.amm == s.amm.(stateData := t.amm.stateData)
            && (Clean(s) ==> Clean(t))
            && ((t.bookCoin == s.bookCoin && t.bookPc == s.bookPc) || t.bookCoin == t.bookPc == 0)
            && CountersMoved(s, t, direction, gross, out, fee)
            && match direction
               case Coin2PC => ReserveCoin(t) == ReserveCoin(s) + paid && ReservePc(t) == ReservePc(s) - out
               case PC2Coin => ReservePc(t) == ReservePc(s) + paid && ReserveCoin(t) == ReserveCoin(s) - out
  {
    var s1 := SettleFor(s, direction, out).value;
    if s1 != s {
      SettleKeepsReserves(s);
    }
  }

  /** The transfers do not depend on the status beyond whether it reads the order book. */
  lemma TransfersIgnoreStatus(s: PoolState, next: u64, direction: SwapDirection, userSource: u64,
                              paid: u64, gross: u64, out: u64, fee: u64)
    requires OrderbookPermission(next) == OrderbookPermission(s.amm.status)
    ensures SwapTransfers(s.(amm := s.amm.(status := next)), direction, userSource, paid, gross, out, fee)
            == (match SwapTransfers(s, direction, userSource, paid, gross, out, fee)
                case Ok(t) => Ok(t.(amm := t.amm.(status := next)))
                case Err(e) => Err(e))
  {
  }

  /** Swap statuses read the order book before the swap if and only if they do after it. */
  lemma SwapStatusBook(s: PoolState, now: u64)
    requires SwapStatus(s, now).Ok?
    ensures OrderbookPermission(SwapStatus(s, now).value) == OrderbookPermission(s.amm.status)
  {
  }

  /** What a swap leaves in any state: `paid` and `out` moved, counters advanced, the rest kept. */
  predicate SwapMoved(s: PoolState, t: PoolState, direction: SwapDirection, paid: nat, gross: nat, out: nat, fee: nat) {
    var (resIn, resOut) := InAndOut(direction, (ReservePc(s), ReserveCoin(s)));
    && InAndOut(direction, (ReservePc(t), ReserveCoin(t))) == (resIn + paid, resOut - out)
    && CountersMoved(s, t, direction, gross, out, fee)
    && t.amm.lpAmount == s.amm.lpAmount
    && (Clean(s) ==> Clean(t)) && (Priced(s) ==> Priced(t))
    && (s.bookCoin == s.bookPc == 0 ==> t.bookCoin == t.bookPc == 0)
  }

  lemma TransfersMove(s: PoolState, direction: SwapDirection, userSource: u64, paid: u64, gross: u64, out: u64,
                      fee: u64, status: u64)
    requires SwapTransfers(s, direction, userSource, paid, gross, out, fee).Ok?
    requires OrderbookPermission(status) == OrderbookPermission(s.amm.status)
    ensures var t := SwapTransfers(s, direction, userSource, paid, gross, out, fee).value;
            SwapMoved(s, t.(amm := t.amm.(status := status)), direction, paid, gross, out, fee)
  {
    TransfersEffect(s, direction, userSource, paid, gross, out, fee);
  }

  lemma ExecuteBaseInMoves(build: Build, s: PoolState, direction: SwapDirection, args: SwapBaseInArgs, env: SwapEnv,
                           quoted: Result<BaseInQuote>)
    requires ExecuteBaseIn(build, s, direction, args, env, AcceptBaseIn(s, direction, args, env, quoted)).Ok?
    ensures quoted.Ok? && AcceptBaseIn(s, direction, args, env, quoted) == quoted
    ensures var quote := quoted.value;
            var t := ExecuteBaseIn(build, s, direction, args, env, quoted).value;
            SwapMoved(s, t, direction, PaidIn(build, direction, args.amountIn, quote.out), args.amountIn, quote.out,
                      quote.fee)
  {
    SwapStatusBook(s, env.now);
    var quote := quoted.value;
    TransfersMove(s, direction, env.userSource, PaidIn(build, direction, args.amountIn, quote.out),
                  args.amountIn, quote.out, quote.fee, SwapStatus(s, env.now).value);
  }

  /** What any accepted exact-in swap moves, in any state; its fee is within its input. */
  lemma SwapBaseInMoves(build: Build, s: PoolState, direction: SwapDirection, args: SwapBaseInArgs, env: SwapEnv)
    requires SwapBaseIn(build, s, direction, args, env).Ok?
    ensures SwapBaseInChecked(s, direction, args, env).Ok?
    ensures var quote := SwapBaseInChecked(s, direction, args, env).value;
            && quote.fee <= args.amountIn
            && SwapMoved(s, SwapBaseIn(build, s, direction, args, env).value, direction,
                         PaidIn(build, direction, args.amountIn, quote.out), args.amountIn, quote.out, quote.fee)
  {
    ExecuteBaseInMoves(build, s, direction, args, env, SwapBaseInQuote(s, direction, args.amountIn));
  }

  lemma ExecuteBaseOutMoves(s: PoolState, direction: SwapDirection, args: SwapBaseOutArgs, env: SwapEnv,
                            quoted: Result<BaseOutQuote>)
    requires ExecuteBaseOut(s, direction, args, env, AcceptBaseOut(s, direction, args, env, quoted)).Ok?
    ensures quoted.Ok? && AcceptBaseOut(s, direction, args, env, quoted) == quoted
    ensures var quote := quoted.value;
            var t := ExecuteBaseOut(s, direction, args, env, quoted).value;
            SwapMoved(s, t, direction, quote.after, quote.after, args.amountOut, quote.fee)
  {
    SwapStatusBook(s, env.now);
    var quote := quoted.value;
    TransfersMove(s, direction, env.userSource, quote.after, quote.after, args.amountOut, quote.fee,
                  SwapStatus(s, env.now).value);
  }

  /** What any accepted exact-out swap moves, in any state; its fee is within its input. */
  lemma SwapBaseOutMoves(s: PoolState, direction: SwapDirection, args: SwapBaseOutArgs, env: SwapEnv)
    requires SwapBaseOut(s, direction, args, env).Ok?
    ensures SwapBaseOutChecked(s, direction, args, env).Ok?
    ensures var quote := SwapBaseOutChecked(s, direction, args, env).value;
            && quote.fee <= quote.after
            && SwapMoved(s, SwapBaseOut(s, direction, args, env).value, direction,
                         quote.after, quote.after, args.amountOut, quote.fee)
  {
    ExecuteBaseOutMoves(s, direction, args, env, SwapBaseOutQuote(s, direction, args.amountOut));
  }

  /** An accepted quote of a clean pool is over the whole reserves. */
  lemma AcceptedBaseIn(s: PoolState, direction: SwapDirection, args: SwapBaseInArgs, env: SwapEnv,
                       quoted: Result<BaseInQuote>)
    requires Clean(s) && Priced(s) && AcceptBaseIn(s, direction, args, env, quoted).Ok?
    ensures AcceptBaseIn(s, direction, args, env, quoted) == quoted
    ensures Totals(s, OrderbookPermission(s.amm.status)) == Ok((ReservePc(s), ReserveCoin(s)))
    ensures var quote := quoted.value;
            && 0 < quote.out < InAndOut(direction, (ReservePc(s), ReserveCoin(s))).1
            && args.minimumAmountOut <= quote.out && 0 < args.amountIn <= env.userSource
  {
    CleanTotals(s, OrderbookPermission(s.amm.status));
  }

  lemma AcceptedBaseOut(s: PoolState, direction: SwapDirection, args: SwapBaseOutArgs, env: SwapEnv,
                        quoted: Result<BaseOutQuote>)
    requires Clean(s) && Priced(s) && AcceptBaseOut(s, direction, args, env, quoted).Ok?
    ensures AcceptBaseOut(s, direction, args, env, quoted) == quoted
    ensures Totals(s, OrderbookPermission(s.amm.status)) == Ok((ReservePc(s), ReserveCoin(s)))
    ensures var quote := quoted.value;
            && 0 < args.amountOut < InAndOut(direction, (ReservePc(s), ReserveCoin(s))).1
            && 0 < quote.after <= env.userSource && quote.after <= args.maxAmountIn
  {
    CleanTotals(s, OrderbookPermission(s.amm.status));
  }

  /** Both reserves after an accepted exact-in swap are what its quote over the whole reserves says. */
  lemma SwapBaseInEffect(build: Build, s: PoolState, direction: SwapDirection, args: SwapBaseInArgs, env: SwapEnv)
    requires Clean(s) && Priced(s) && SwapBaseIn(build, s, direction, args, env).Ok?
    ensures SwapBaseInChecked(s, direction, args, env).Ok?
    ensures ReserveCoin(s) < U64_LIMIT && ReservePc(s) < U64_LIMIT
    ensures var quote := SwapBaseInChecked(s, direction, args, env).value;
            var t := SwapBaseIn(build, s, direction, args, env).value;
            var (resIn, resOut) := InAndOut(direction, (ReservePc(s), ReserveCoin(s)));
            && QuoteBaseIn(s.amm.fees.swapFeeNumerator, s.amm.fees.swapFeeDenominator, resIn, resOut, args.amountIn)
               == Ok(quote)
            && 0 < quote.out < resOut && args.minimumAmountOut <= quote.out && 0 < args.amountIn <= env.userSource
            && SwapMoved(s, t, direction, PaidIn(build, direction, args.amountIn, quote.out), args.amountIn, quote.out,
                         quote.fee)
  {
    AcceptedBaseIn(s, direction, args, env, SwapBaseInQuote(s, direction, args.amountIn));
    SwapBaseInMoves(build, s, direction, args, env);
  }

  lemma SwapBaseOutEffect(s: PoolState, direction: SwapDirection, args: SwapBaseOutArgs, env: SwapEnv)
    requires Clean(s) && Priced(s) && SwapBaseOut(s, direction, args, env).Ok?
    ensures SwapBaseOutChecked(s, direction, args, env).Ok?
    ensures ReserveCoin(s) < U64_LIMIT && ReservePc(s) < U64_LIMIT
    ensures var quote := SwapBaseOutChecked(s, direction, args, env).value;
            var t := SwapBaseOut(s, direction, args, env).value;
            var (resIn, resOut) := InAndOut(direction, (ReservePc(s), ReserveCoin(s)));
            && QuoteBaseOut(s.amm.fees.swapFeeNumerator, s.amm.fees.swapFeeDenominator, resIn, resOut, args.amountOut)
               == Ok(quote)
            && 0 < args.amountOut < resOut && 0 < quote.after <= env.userSource && quote.after <= args.maxAmountIn
            && SwapMoved(s, t, direction, quote.after, quote.after, args.amountOut, quote.fee)
  {
    AcceptedBaseOut(s, direction, args, env, SwapBaseOutQuote(s, direction, args.amountOut));
    SwapBaseOutMoves(s, direction, args, env);
  }

  /** For equal LP amounts growth is the product not falling. */
  lemma SameLpGrowth(s: PoolState, t: PoolState)
    requires t.amm.lpAmount == s.amm.lpAmount
    ensures GrowthHolds(s, t) <==> Product(t) >= Product(s)
  {
    ScaleIff(Product(s), Product(t), s.amm.lpAmount);
  }

  lemma ScaleIff(ps: nat, pt: nat, l: nat)
    ensures l > 0 ==> (pt * (l * l) >= ps * (l * l) <==> pt >= ps)
  {
    if l > 0 {
      MulLe(1, l, l);
      if pt >= ps {
        MulLe(ps, pt, l * l);
      } else if pt * (l * l) >= ps * (l * l) {
        MulCancel(ps, pt, l * l);
      }
    }
  }

  lemma SwapGrowth(s: PoolState, t: PoolState, direction: SwapDirection, paid: nat, out: nat)
    requires t.amm.lpAmount == s.amm.lpAmount
    requires var (resIn, resOut) := InAndOut(direction, (ReservePc(s), ReserveCoin(s)));
             && out <= resOut
             && InAndOut(direction, (ReservePc(t), ReserveCoin(t))) == (resIn + paid, resOut - out)
             && (resIn + paid) * (resOut - out) >= resIn * resOut
    ensures GrowthHolds(s, t)
  {
    SameLpGrowth(s, t);
  }

  /** An accepted exact-in swap whose gross input reaches the vault keeps the product, whatever the
      fee fraction: a fraction above one makes the swap panic. */
  lemma SwapBaseInKeepsProduct(build: Build, s: PoolState, direction: SwapDirection, args: SwapBaseInArgs, env: SwapEnv)
    requires Clean(s) && Priced(s) && SwapBaseIn(build, s, direction, args, env).Ok?
    requires build == Intended || direction == Coin2PC
    ensures GrowthHolds(s, SwapBaseIn(build, s, direction, args, env).value)
  {
    SwapBaseInEffect(build, s, direction, args, env);
    var (resIn, resOut) := InAndOut(direction, (ReservePc(s), ReserveCoin(s)));
    BaseInKeepsProduct(s.amm.fees.swapFeeNumerator, s.amm.fees.swapFeeDenominator, resIn, resOut, args.amountIn);
    SwapGrowth(s, SwapBaseIn(build, s, direction, args, env).value, direction, args.amountIn,
               SwapBaseInChecked(s, direction, args, env).value.out);
  }

  lemma SwapBaseOutKeepsProduct(s: PoolState, direction: SwapDirection, args: SwapBaseOutArgs, env: SwapEnv)
    requires Clean(s) && Priced(s) && SwapBaseOut(s, direction, args, env).Ok?
    ensures GrowthHolds(s, SwapBaseOut(s, direction, args, env).value)
  {
    SwapBaseOutEffect(s, direction, args, env);
    var (resIn, resOut) := InAndOut(direction, (ReservePc(s), ReserveCoin(s)));
    BaseOutKeepsProduct(s.amm.fees.swapFeeNumerator, s.amm.fees.swapFeeDenominator, resIn, resOut, args.amountOut);
    SwapGrowth(s, SwapBaseOut(s, direction, args, env).value, direction,
               SwapBaseOutChecked(s, direction, args, env).value.after, args.amountOut);
  }

  lemma EqualMoveIff(x: nat, y: nat, out: nat)
    requires 0 < out <= y
    ensures (y - out) * (x + out) >= y * x <==> x + out <= y
  {
    assert (y - out) * (x + out) == y * x + out * (y - x - out);
    if x + out <= y {
      MulLe(0, y - x - out, out);
    } else {
      MulLe(1, x + out - y, out);
      assert out * (y - x - out) == -(out * (x + out - y));
    }
  }

  /** What a caller can check before an exact-in swap from pc to coin under line 412 as written: with
      the fee taken off, the input is too small to lift the pc reserve above the coin reserve. */
  predicate PcStaysBelow(s: PoolState, amountIn: u64) {
    var fee := FeeOn(s.amm.fees.swapFeeNumerator, s.amm.fees.swapFeeDenominator, amountIn);
    (ReservePc(s) + amountIn - fee) * (ReservePc(s) - 1) < ReservePc(s) * ReserveCoin(s)
  }

  /** Line 412 as written: an accepted swap keeps the product exactly under that condition. */
  lemma AsWrittenKeepsProductIff(s: PoolState, args: SwapBaseInArgs, env: SwapEnv)
    requires Clean(s) && Priced(s) && SwapBaseIn(AsWritten, s, PC2Coin, args, env).Ok?
    ensures GrowthHolds(s, SwapBaseIn(AsWritten, s, PC2Coin, args, env).value) <==> PcStaysBelow(s, args.amountIn)
  {
    SwapBaseInEffect(AsWritten, s, PC2Coin, args, env);
    var quote := SwapBaseInChecked(s, PC2Coin, args, env).value;
    EqualMoveGrowth(s, SwapBaseIn(AsWritten, s, PC2Coin, args, env).value, quote.out);
    OutputWithinGapIff(ReservePc(s), ReserveCoin(s), quote.net);
  }

  /** What a caller can check before the same swap: net of its fee, the input buys exactly as much coin
      as its gross pc, so that line 412 as written pays the right amount by coincidence. */
  predicate PaysInFull(s: PoolState, amountIn: u64) {
    var net := amountIn - FeeOn(s.amm.fees.swapFeeNumerator, s.amm.fees.swapFeeDenominator, amountIn);
    amountIn * (ReservePc(s) + net) <= ReserveCoin(s) * net < (amountIn + 1) * (ReservePc(s) + net)
  }

  /** Line 412 as written: an accepted swap pays what the pc counter records exactly under that
      condition. */
  lemma AsWrittenPaysInFullIff(s: PoolState, args: SwapBaseInArgs, env: SwapEnv)
    requires Clean(s) && Priced(s) && SwapBaseIn(AsWritten, s, PC2Coin, args, env).Ok?
    ensures ReservePc(SwapBaseIn(AsWritten, s, PC2Coin, args, env).value) == ReservePc(s) + args.amountIn
            <==> PaysInFull(s, args.amountIn)
  {
    SwapBaseInEffect(AsWritten, s, PC2Coin, args, env);
    var quote := SwapBaseInChecked(s, PC2Coin, args, env).value;
    FloorAdjoint(ReserveCoin(s) * quote.net, ReservePc(s) + quote.net, args.amountIn);
    FloorAdjoint(ReserveCoin(s) * quote.net, ReservePc(s) + quote.net, args.amountIn + 1);
  }

  lemma EqualMoveGrowth(s: PoolState, t: PoolState, out: nat)
    requires t.amm.lpAmount == s.amm.lpAmount && 0 < out <= ReserveCoin(s)
    requires ReserveCoin(t) == ReserveCoin(s) - out && ReservePc(t) == ReservePc(s) + out
    ensures GrowthHolds(s, t) <==> ReservePc(s) + out <= ReserveCoin(s)
  {
    SameLpGrowth(s, t);
    EqualMoveIff(ReservePc(s), ReserveCoin(s), out);
  }
}
