/** Safety of the pool over arbitrary runs of its instructions. */
module Runs {
  import opened Machine
  import opened Arith
  import opened Bytes
  import opened Quotes
  import opened InitialLp
  import opened PoolState
  import opened Steps
  import opened Growth

  datatype Step =
    | DepositStep(deposit: DepositArgs, liquidityEnv: LiquidityEnv)
    | WithdrawStep(withdraw: WithdrawArgs, liquidityEnv: LiquidityEnv)
    | SwapBaseInStep(direction: SwapDirection, baseIn: SwapBaseInArgs, swapEnv: SwapEnv)
    | SwapBaseOutStep(direction: SwapDirection, baseOut: SwapBaseOutArgs, swapEnv: SwapEnv)
    | MonitoringStep(hasOrders: bool)
    | WithdrawPnlStep
    | SetParamsStep(params: SetParamsArgs)

  function Outcome(build: Build, s: PoolState, step: Step): Result<PoolState> {
    match step
    case DepositStep(args, env) => Deposit(s, args, env)
    case WithdrawStep(args, env) => Withdraw(s, args, env)
    case SwapBaseInStep(direction, args, env) => SwapBaseIn(build, s, direction, args, env)
    case SwapBaseOutStep(direction, args, env) => SwapBaseOut(s, direction, args, env)
    case MonitoringStep(hasOrders) => MonitorStep(s, hasOrders)
    case WithdrawPnlStep => WithdrawPnl(s)
    case SetParamsStep(params) => SetParams(s, params)
  }

  /** A failed instruction leaves the pool as it was. */
  function Apply(build: Build, s: PoolState, step: Step): PoolState {
    match Outcome(build, s, step)
    case Ok(t) => t
    case Err(_) => s
  }

  function Run(build: Build, s: PoolState, steps: seq<Step>): PoolState
    decreases |steps|
  {
    if steps == [] then s else Run(build, Apply(build, s, steps[0]), steps[1..])
  }

  /** The state after the first i instructions. */
  function StateAt(build: Build, s: PoolState, steps: seq<Step>, i: nat): PoolState
    requires i <= |steps|
  {
    Run(build, s, steps[..i])
  }

  predicate AlwaysPriced(build: Build, s: PoolState, steps: seq<Step>)
    decreases |steps|
  {
    Priced(s) && (steps != [] ==> AlwaysPriced(build, Apply(build, s, steps[0]), steps[1..]))
  }

  /** The one instruction that can lower the product, and what a caller can check before it: if line
      412 as written accepts the swap, its input must not push the pc reserve above the coin reserve. */
  predicate Guarded(build: Build, s: PoolState, step: Step) {
    build == AsWritten && step.SwapBaseInStep? && step.direction == PC2Coin && Outcome(build, s, step).Ok?
    ==> PcStaysBelow(s, step.baseIn.amountIn)
  }

  predicate AlwaysGuarded(build: Build, s: PoolState, steps: seq<Step>)
    decreases |steps|
  {
    steps != [] ==> Guarded(build, s, steps[0]) && AlwaysGuarded(build, Apply(build, s, steps[0]), steps[1..])
  }

  predicate EmptyBook(s: PoolState) {
    s.bookCoin == 0 && s.bookPc == 0
  }

  // ---------------------------------------------------------------- one step

  lemma Unmoved(s: PoolState, t: PoolState)
    requires t.amm.lpAmount == s.amm.lpAmount
    requires ReserveCoin(t) == ReserveCoin(s) && ReservePc(t) == ReservePc(s)
    ensures GrowthHolds(s, t)
  {
    SameLpGrowth(s, t);
  }

  /** A monitor step of any pool moves nothing in or out. */
  lemma MonitorStepEffect(s: PoolState, hasOrders: bool)
    requires MonitorStep(s, hasOrders).Ok?
    ensures var t := MonitorStep(s, hasOrders).value;
            && ReserveCoin(t) == ReserveCoin(s) && ReservePc(t) == ReservePc(s)
            && t.amm.lpAmount == s.amm.lpAmount && SameCounters(s, t)
            && (Clean(s) ==> Clean(t)) && (EmptyBook(s) ==> EmptyBook(t))
  {
  }

  lemma SetParamsEffect(s: PoolState, args: SetParamsArgs)
    requires SetParams(s, args).Ok?
    ensures var t := SetParams(s, args).value;
            && (Clean(s) ==> Clean(t)) && t.amm.lpAmount == s.amm.lpAmount
            && t.vaultCoin == s.vaultCoin && t.vaultPc == s.vaultPc && t.bookCoin == s.bookCoin && t.bookPc == s.bookPc
            && t.target == s.target
            && t.amm.stateData == s.amm.stateData.(poolOpenTime := t.amm.stateData.poolOpenTime)
  {
  }

  /** In a clean pool there is no pnl, so WithdrawPnl never pays out. */
  lemma WithdrawPnlNeverPays(s: PoolState)
    requires Clean(s)
    ensures WithdrawPnl(s).Err?
    ensures s.amm.status != UNINITIALIZED ==> WithdrawPnl(s) == Err(InsufficientFunds)
  {
  }

  lemma {:induction false} StepKeepsClean(build: Build, s: PoolState, step: Step)
    requires Clean(s)
    ensures Clean(Apply(build, s, step))
    ensures EmptyBook(s) ==> EmptyBook(Apply(build, s, step))
  {
    if Outcome(build, s, step).Ok? {
      match step
      case DepositStep(args, env) => DepositMoves(s, args, env);
      case WithdrawStep(args, env) => WithdrawMoves(s, args, env);
      case SwapBaseInStep(direction, args, env) => SwapBaseInMoves(build, s, direction, args, env);
      case SwapBaseOutStep(direction, args, env) => SwapBaseOutMoves(s, direction, args, env);
      case MonitoringStep(hasOrders) => MonitorStepEffect(s, hasOrders);
      case WithdrawPnlStep => WithdrawPnlNeverPays(s);
      case SetParamsStep(params) => SetParamsEffect(s, params);
    }
  }

  /** Every instruction, accepted or not and under any fees, keeps the product per squared LP unit
      from falling, except line 412 as written, which does so exactly when it is guarded. */
  lemma StepGrowsIff(build: Build, s: PoolState, step: Step)
    requires Clean(s) && Priced(s)
    ensures GrowthHolds(s, Apply(build, s, step)) <==> Guarded(build, s, step)
  {
    if Outcome(build, s, step).Err? {
      Unmoved(s, s);
    } else {
      match step
      case DepositStep(args, env) => DepositKeepsShares(s, args, env);
      case WithdrawStep(args, env) => WithdrawKeepsShares(s, args, env);
      case SwapBaseInStep(direction, args, env) =>
        if build == AsWritten && direction == PC2Coin {
          AsWrittenKeepsProductIff(s, args, env);
        } else {
          SwapBaseInKeepsProduct(build, s, direction, args, env);
        }
      case SwapBaseOutStep(direction, args, env) => SwapBaseOutKeepsProduct(s, direction, args, env);
      case MonitoringStep(hasOrders) =>
        MonitorStepEffect(s, hasOrders);
        Unmoved(s, Apply(build, s, step));
      case WithdrawPnlStep => WithdrawPnlNeverPays(s);
      case SetParamsStep(params) =>
        SetParamsEffect(s, params);
        Unmoved(s, Apply(build, s, step));
    }
  }

  // ---------------------------------------------------------------- whole runs

  /** Any clean run keeps the pool clean and its product per squared LP unit from falling, as long
      as the whole reserves are priced and line 412, if read as written, is guarded. */
  lemma {:induction false} RunGrows(build: Build, s: PoolState, steps: seq<Step>)
    requires Clean(s) && AlwaysPriced(build, s, steps) && AlwaysGuarded(build, s, steps)
    ensures Clean(Run(build, s, steps)) && GrowthHolds(s, Run(build, s, steps))
    decreases |steps|
  {
    if steps == [] {
      Unmoved(s, s);
    } else {
      var t := Apply(build, s, steps[0]);
      StepKeepsClean(build, s, steps[0]);
      StepGrowsIff(build, s, steps[0]);
      RunGrows(build, t, steps[1..]);
      GrowthTransitive(s, t, Run(build, t, steps[1..]));
    }
  }

  lemma {:induction false} IntendedIsGuarded(s: PoolState, steps: seq<Step>)
    ensures AlwaysGuarded(Intended, s, steps)
    decreases |steps|
  {
    if steps != [] {
      IntendedIsGuarded(Apply(Intended, s, steps[0]), steps[1..]);
    }
  }

  /** No instruction places orders: an empty book stays empty, so every step of such a run prices
      the whole reserves whatever the status. */
  lemma {:induction false} EmptyBookIsPriced(build: Build, s: PoolState, steps: seq<Step>)
    requires Clean(s) && EmptyBook(s)
    ensures AlwaysPriced(build, s, steps) && EmptyBook(Run(build, s, steps)) && Clean(Run(build, s, steps))
    decreases |steps|
  {
    if steps != [] {
      StepKeepsClean(build, s, steps[0]);
      EmptyBookIsPriced(build, Apply(build, s, steps[0]), steps[1..]);
    }
  }

  lemma InitializedIsClean(args: InitializeArgs, env: LiquidityEnv, vaultCoin: u64, vaultPc: u64, owner: Pubkey)
    requires InitializedPool(args, env, vaultCoin, vaultPc, owner).Ok?
    ensures var s := InitializedPool(args, env, vaultCoin, vaultPc, owner).value;
            Clean(s) && EmptyBook(s) && Backed(s)
  {
    var s := InitializedPool(args, env, vaultCoin, vaultPc, owner).value;
    MulLe(args.initCoinAmount, ReserveCoin(s), args.initPcAmount);
    MulLe(args.initPcAmount, ReservePc(s), ReserveCoin(s));
  }

  predicate GrowsAt(build: Build, s: PoolState, steps: seq<Step>, i: nat)
    requires i < |steps|
  {
    GrowthHolds(StateAt(build, s, steps, i), StateAt(build, s, steps, i + 1))
  }

  lemma FirstStates(build: Build, s: PoolState, steps: seq<Step>)
    requires steps != []
    ensures GrowsAt(build, s, steps, 0) <==> GrowthHolds(s, Apply(build, s, steps[0]))
    ensures forall i | 0 <= i < |steps| - 1 ::
              GrowsAt(build, s, steps, i + 1) <==> GrowsAt(build, Apply(build, s, steps[0]), steps[1..], i)
  {
    var t, rest := Apply(build, s, steps[0]), steps[1..];
    assert steps[..0] == [] && steps[..1][1..] == [];
    assert Run(build, t, []) == t;
    forall i | 0 <= i <= |rest|
      ensures StateAt(build, s, steps, i + 1) == StateAt(build, t, rest, i)
    {
      assert steps[..i + 1][0] == steps[0] && steps[..i + 1][1..] == rest[..i];
    }
  }

  lemma {:induction false} GuardedRunGrows(build: Build, s: PoolState, steps: seq<Step>, i: nat)
    requires Clean(s) && AlwaysPriced(build, s, steps) && AlwaysGuarded(build, s, steps) && i < |steps|
    ensures GrowsAt(build, s, steps, i)
    decreases |steps|
  {
    FirstStates(build, s, steps);
    StepKeepsClean(build, s, steps[0]);
    StepGrowsIff(build, s, steps[0]);
    if i > 0 {
      GuardedRunGrows(build, Apply(build, s, steps[0]), steps[1..], i - 1);
      assert GrowsAt(build, s, steps, (i - 1) + 1);
    }
  }

  lemma {:induction false} GrowingRunIsGuarded(build: Build, s: PoolState, steps: seq<Step>)
    requires Clean(s) && AlwaysPriced(build, s, steps)
    requires forall i | 0 <= i < |steps| :: GrowsAt(build, s, steps, i)
    ensures AlwaysGuarded(build, s, steps)
    decreases |steps|
  {
    if steps != [] {
      FirstStates(build, s, steps);
      StepKeepsClean(build, s, steps[0]);
      StepGrowsIff(build, s, steps[0]);
      assert GrowsAt(build, s, steps, 0);
      forall i | 0 <= i < |steps[1..]|
        ensures GrowsAt(build, Apply(build, s, steps[0]), steps[1..], i)
      {
        assert GrowsAt(build, s, steps, i + 1);
      }
      GrowingRunIsGuarded(build, Apply(build, s, steps[0]), steps[1..]);
    }
  }

  predicate GrowsBetween(build: Build, s: PoolState, steps: seq<Step>, i: nat, j: nat)
    requires i <= j <= |steps|
  {
    GrowthHolds(StateAt(build, s, steps, i), StateAt(build, s, steps, j))
  }

  lemma {:induction false} GrowingStepsAddUp(build: Build, s: PoolState, steps: seq<Step>, i: nat, j: nat)
    requires i <= j <= |steps|
    requires forall k | i <= k < j :: GrowsAt(build, s, steps, k)
    ensures GrowsBetween(build, s, steps, i, j)
    decreases j
  {
    if i == j {
      Unmoved(StateAt(build, s, steps, i), StateAt(build, s, steps, i));
    } else {
      GrowingStepsAddUp(build, s, steps, i, j - 1);
      assert GrowsAt(build, s, steps, j - 1);
      GrowthTransitive(StateAt(build, s, steps, i), StateAt(build, s, steps, j - 1), StateAt(build, s, steps, j));
    }
  }

  /** The product per squared LP unit never falls, at any step or between any two moments of a run,
      exactly when every exact-in swap from pc to coin in it, if line 412 is read as written, is guarded. */
  lemma RunGrowsIff(build: Build, s: PoolState, steps: seq<Step>)
    requires Clean(s) && AlwaysPriced(build, s, steps)
    ensures (forall i | 0 <= i < |steps| :: GrowsAt(build, s, steps, i)) <==> AlwaysGuarded(build, s, steps)
    ensures (forall i, j | 0 <= i <= j <= |steps| :: GrowsBetween(build, s, steps, i, j))
            <==> AlwaysGuarded(build, s, steps)
  {
    if AlwaysGuarded(build, s, steps) {
      forall i, j | 0 <= i <= j <= |steps|
        ensures GrowsBetween(build, s, steps, i, j)
      {
        GuardedMomentsGrow(build, s, steps, i, j);
      }
      forall i | 0 <= i < |steps|
        ensures GrowsAt(build, s, steps, i)
      {
        GuardedRunGrows(build, s, steps, i);
      }
    }
    if forall i, j | 0 <= i <= j <= |steps| :: GrowsBetween(build, s, steps, i, j) {
      forall i | 0 <= i < |steps|
        ensures GrowsAt(build, s, steps, i)
      {
        assert GrowsBetween(build, s, steps, i, i + 1);
      }
    }
    if forall i | 0 <= i < |steps| :: GrowsAt(build, s, steps, i) {
      GrowingRunIsGuarded(build, s, steps);
    }
  }

  lemma GuardedMomentsGrow(build: Build, s: PoolState, steps: seq<Step>, i: nat, j: nat)
    requires Clean(s) && AlwaysPriced(build, s, steps) && AlwaysGuarded(build, s, steps) && i <= j <= |steps|
    ensures GrowsBetween(build, s, steps, i, j)
  {
    forall k | i <= k < j
      ensures GrowsAt(build, s, steps, k)
    {
      GuardedRunGrows(build, s, steps, k);
    }
    GrowingStepsAddUp(build, s, steps, i, j);
  }

  /** In every state reachable from Initialize2 by a run of instructions that guards line 412, under
      any fees and statuses set on the way: the squared LP amount is covered by the product of the
      reserves; between any two moments the product per squared LP unit has not fallen; no pnl was
      ever recorded, so WithdrawPnl never pays. */
  lemma GuardedStatesAreBacked(build: Build, args: InitializeArgs, env: LiquidityEnv, vaultCoin: u64, vaultPc: u64,
                               owner: Pubkey, steps: seq<Step>, i: nat, j: nat)
    requires InitializedPool(args, env, vaultCoin, vaultPc, owner).Ok? && i <= j <= |steps|
    requires AlwaysGuarded(build, InitializedPool(args, env, vaultCoin, vaultPc, owner).value, steps)
    ensures var s := InitializedPool(args, env, vaultCoin, vaultPc, owner).value;
            var (si, sj) := (StateAt(build, s, steps, i), StateAt(build, s, steps, j));
            && Backed(si) && Backed(sj) && GrowthHolds(si, sj)
            && Clean(sj) && EmptyBook(sj) && WithdrawPnl(sj).Err?
  {
    var s := InitializedPool(args, env, vaultCoin, vaultPc, owner).value;
    InitializedIsClean(args, env, vaultCoin, vaultPc, owner);
    EmptyBookIsPriced(build, s, steps);
    GuardedMomentsGrow(build, s, steps, 0, i);
    GuardedMomentsGrow(build, s, steps, i, j);
    assert steps[..0] == [] && StateAt(build, s, steps, 0) == s;
    var (si, sj) := (StateAt(build, s, steps, i), StateAt(build, s, steps, j));
    BackedGrows(s, si);
    BackedGrows(si, sj);
    EmptyBookIsPriced(build, s, steps[..j]);
    WithdrawPnlNeverPays(sj);
  }

  /** The main safety result: with the intended line 412 this holds of every run. */
  lemma ReachableStatesAreBacked(args: InitializeArgs, env: LiquidityEnv, vaultCoin: u64, vaultPc: u64, owner: Pubkey,
                                 steps: seq<Step>, i: nat, j: nat)
    requires InitializedPool(args, env, vaultCoin, vaultPc, owner).Ok? && i <= j <= |steps|
    ensures var s := InitializedPool(args, env, vaultCoin, vaultPc, owner).value;
            var (si, sj) := (StateAt(Intended, s, steps, i), StateAt(Intended, s, steps, j));
            && Backed(si) && Backed(sj) && GrowthHolds(si, sj)
            && Clean(sj) && EmptyBook(sj) && WithdrawPnl(sj).Err?
  {
    IntendedIsGuarded(InitializedPool(args, env, vaultCoin, vaultPc, owner).value, steps);
    GuardedStatesAreBacked(Intended, args, env, vaultCoin, vaultPc, owner, steps, i, j);
  }

  // ---------------------------------------------------------------- no profit

  lemma OneSideUp(c: nat, p: nat, c': nat, p': nat)
    requires c * p > 0 && c' * p' >= c * p
    ensures c' <= c ==> p' >= p
    ensures p' <= p ==> c' >= c
  {
    assert c > 0 && p > 0;
    if c' <= c {
      MulLe(c', c, p');
      MulCancel(p, p', c);
    }
    if p' <= p {
      MulLe(p', p, c');
      MulCancel(c, c', p);
    }
  }

  /** Every accepted deposit, withdrawal and swap found both reserves nonempty. */
  lemma TradeNeedsReserves(build: Build, s: PoolState, step: Step)
    requires Clean(s) && Priced(s) && Outcome(build, s, step).Ok?
    requires step.DepositStep? || step.WithdrawStep? || step.SwapBaseInStep? || step.SwapBaseOutStep?
    ensures ReserveCoin(s) > 0 && ReservePc(s) > 0
  {
    match step
    case DepositStep(args, env) =>
      DepositEffect(s, args, env);
      DepositPaysShare(s.amm.lpAmount, ReservePc(s), ReserveCoin(s), args);
    case WithdrawStep(args, env) =>
      WithdrawEffect(s, args, env);
      FloorAdjoint(ReserveCoin(s) * args.amount, s.amm.lpAmount, 1);
      FloorAdjoint(ReservePc(s) * args.amount, s.amm.lpAmount, 1);
    case SwapBaseInStep(direction, args, env) =>
      SwapBaseInEffect(build, s, direction, args, env);
      BaseInNeedsReserves(s, direction, args.amountIn, SwapBaseInChecked(s, direction, args, env).value);
    case SwapBaseOutStep(direction, args, env) =>
      SwapBaseOutEffect(s, direction, args, env);
      var (fees, (resIn, resOut)) := (s.amm.fees, InAndOut(direction, (ReservePc(s), ReserveCoin(s))));
      AcceptedBaseOutIsCeiling(fees.swapFeeNumerator, fees.swapFeeDenominator, resIn, resOut, args.amountOut);
    case _ =>
  }

  /** So a pool with an empty reserve accepts nothing that moves a token. */
  lemma StepOnEmptyReserve(build: Build, s: PoolState, step: Step)
    requires Clean(s) && Priced(s) && Product(s) == 0
    ensures var t := Apply(build, s, step);
            ReserveCoin(t) == ReserveCoin(s) && ReservePc(t) == ReservePc(s)
  {
    if Outcome(build, s, step).Ok? {
      match step
      case MonitoringStep(hasOrders) => MonitorStepEffect(s, hasOrders);
      case WithdrawPnlStep => WithdrawPnlNeverPays(s);
      case SetParamsStep(params) => SetParamsEffect(s, params);
      case _ =>
        TradeNeedsReserves(build, s, step);
        ProductPositive(s);
        assert false;
    }
  }

  lemma ProductPositive(s: PoolState)
    requires ReserveCoin(s) > 0 && ReservePc(s) > 0
    ensures Product(s) > 0
  {
    MulLe(1, ReserveCoin(s), ReservePc(s));
  }

  lemma BaseInNeedsReserves(s: PoolState, direction: SwapDirection, amountIn: u64, quote: BaseInQuote)
    requires ReserveCoin(s) < U64_LIMIT && ReservePc(s) < U64_LIMIT
    requires var (resIn, resOut) := InAndOut(direction, (ReservePc(s), ReserveCoin(s)));
             && QuoteBaseIn(s.amm.fees.swapFeeNumerator, s.amm.fees.swapFeeDenominator, resIn, resOut, amountIn)
                == Ok(quote)
             && quote.out < resOut
    ensures ReserveCoin(s) > 0 && ReservePc(s) > 0
  {
    var (resIn, resOut) := InAndOut(direction, (ReservePc(s), ReserveCoin(s)));
    FloorAdjoint(resOut * quote.net, resIn + quote.net, resOut);
  }

  lemma {:induction false} RunOnEmptyReserve(build: Build, s: PoolState, steps: seq<Step>)
    requires Clean(s) && AlwaysPriced(build, s, steps) && Product(s) == 0
    ensures var t := Run(build, s, steps);
            ReserveCoin(t) == ReserveCoin(s) && ReservePc(t) == ReservePc(s)
    decreases |steps|
  {
    if steps != [] {
      StepOnEmptyReserve(build, s, steps[0]);
      StepKeepsClean(build, s, steps[0]);
      RunOnEmptyReserve(build, Apply(build, s, steps[0]), steps[1..]);
    }
  }

  /** No run that guards line 412 profits: whatever is traded, deposited and withdrawn on the way, if
      the LP amount does not end below its start, the product has not fallen, so neither reserve can
      end at or below its start without the other ending at or above its own. */
  lemma NoGuardedRunProfits(build: Build, s: PoolState, steps: seq<Step>)
    requires Clean(s) && AlwaysPriced(build, s, steps) && AlwaysGuarded(build, s, steps)
    requires Run(build, s, steps).amm.lpAmount >= s.amm.lpAmount
    ensures NoProfit(s, Run(build, s, steps))
  {
    RunGrows(build, s, steps);
    if Product(s) == 0 {
      RunOnEmptyReserve(build, s, steps);
    } else {
      GrowthLeavesNoProfit(s, Run(build, s, steps));
    }
  }

  /** With the intended line 412 that is every run. */
  lemma NoRunProfits(s: PoolState, steps: seq<Step>)
    requires Clean(s) && AlwaysPriced(Intended, s, steps)
    requires Run(Intended, s, steps).amm.lpAmount >= s.amm.lpAmount
    ensures NoProfit(s, Run(Intended, s, steps))
  {
    IntendedIsGuarded(s, steps);
    NoGuardedRunProfits(Intended, s, steps);
  }

  /** From s to t the product has not fallen, and no reserve is back at or below its start unless the
      other is at or above its own. */
  predicate NoProfit(s: PoolState, t: PoolState) {
    && Product(t) >= Product(s)
    && (ReserveCoin(t) <= ReserveCoin(s) ==> ReservePc(t) >= ReservePc(s))
    && (ReservePc(t) <= ReservePc(s) ==> ReserveCoin(t) >= ReserveCoin(s))
  }

  lemma GrowthLeavesNoProfit(s: PoolState, t: PoolState)
    requires GrowthHolds(s, t) && t.amm.lpAmount >= s.amm.lpAmount
    requires Product(s) > 0
    ensures NoProfit(s, t)
  {
    MoreLpMoreProduct(Product(s), s.amm.lpAmount, Product(t), t.amm.lpAmount);
    OneSideUp(ReserveCoin(s), ReservePc(s), ReserveCoin(t), ReservePc(t));
  }

  lemma MoreLpMoreProduct(ps: nat, ls: nat, pt: nat, lt: nat)
    requires NotFallen(ps, ls, pt, lt) && ls <= lt
    ensures pt >= ps
  {
    if ls > 0 {
      SquareMono(ls, lt);
      MulLe(1, ls, ls);
      MulLe(ls * ls, lt * lt, ps);
      MulCancel(ps, pt, ls * ls);
    }
  }
}
