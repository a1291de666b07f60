/** Conservation: the reserves are what the counters and the liquidity movements say. */
module Accounting {
  import opened Machine
  import opened Bytes
  import opened Quotes
  import opened InitialLp
  import opened PoolState
  import opened Steps
  import opened Growth
  import opened Runs

  /** What accepted liquidity instructions and pnl payouts moved, and what line 412 as written did not collect of
      the input amounts that the pc counter recorded. */
  datatype Flows = Flows(coinIn: nat, coinOut: nat, pcIn: nat, pcOut: nat, lpMinted: nat, lpBurned: nat,
                         coinPnl: nat, pcPnl: nat, pcUncollected: int)

  const NO_FLOWS := Flows(0, 0, 0, 0, 0, 0, 0, 0, 0)

  function StepFlows(build: Build, s: PoolState, step: Step): Flows {
    if Outcome(build, s, step).Err? then NO_FLOWS
    else
      match step
      case DepositStep(args, env) =>
        var a := DepositChecked(s, args, env).value;
        Flows(a.coin, 0, a.pc, 0, a.lp, 0, 0, 0, 0)
      case WithdrawStep(args, env) =>
        var a := WithdrawChecked(s, args, env).value;
        Flows(0, a.coin, 0, a.pc, 0, args.amount, 0, 0, 0)
      case SwapBaseInStep(direction, args, env) =>
        if build == AsWritten && direction == PC2Coin
        then Flows(0, 0, 0, 0, 0, 0, 0, 0, args.amountIn - SwapBaseInChecked(s, direction, args, env).value.out)
        else NO_FLOWS
      case WithdrawPnlStep => Flows(0, 0, 0, 0, 0, 0, s.amm.stateData.totalPnlCoin, s.amm.stateData.totalPnlPc, 0)
      case _ => NO_FLOWS
  }

  function Plus(f: Flows, g: Flows): Flows {
    Flows(f.coinIn + g.coinIn, f.coinOut + g.coinOut, f.pcIn + g.pcIn, f.pcOut + g.pcOut,
          f.lpMinted + g.lpMinted, f.lpBurned + g.lpBurned,
          f.coinPnl + g.coinPnl, f.pcPnl + g.pcPnl, f.pcUncollected + g.pcUncollected)
  }

  function RunFlows(build: Build, s: PoolState, steps: seq<Step>): Flows
    decreases |steps|
  {
    if steps == [] then NO_FLOWS
    else Plus(StepFlows(build, s, steps[0]), RunFlows(build, Apply(build, s, steps[0]), steps[1..]))
  }

  /** The books from s to t: each reserve moved by deposits less withdrawals plus the swap-in counter
      less the swap-out counter, less pnl paid and what was not collected; the LP by mints less burns. */
  predicate Balanced(s: PoolState, t: PoolState, f: Flows) {
    var (d, d') := (s.amm.stateData, t.amm.stateData);
    && ReserveCoin(t) == ReserveCoin(s) + f.coinIn - f.coinOut - f.coinPnl
                         + (d'.swapCoinInAmount - d.swapCoinInAmount) - (d'.swapCoinOutAmount - d.swapCoinOutAmount)
    && ReservePc(t) == ReservePc(s) + f.pcIn - f.pcOut - f.pcPnl
                       + (d'.swapPcInAmount - d.swapPcInAmount) - (d'.swapPcOutAmount - d.swapPcOutAmount)
                       - f.pcUncollected
    && t.amm.lpAmount == s.amm.lpAmount + f.lpMinted - f.lpBurned
  }

  lemma SwapBalanced(s: PoolState, t: PoolState, direction: SwapDirection, paid: nat, gross: nat, out: nat, fee: nat)
    requires SwapMoved(s, t, direction, paid, gross, out, fee) && (direction == Coin2PC ==> paid == gross)
    ensures Balanced(s, t, NO_FLOWS.(pcUncollected := gross - paid))
  {
  }

  lemma SwapStepBalanced(build: Build, s: PoolState, step: Step)
    requires (step.SwapBaseInStep? || step.SwapBaseOutStep?) && Outcome(build, s, step).Ok?
    ensures Balanced(s, Outcome(build, s, step).value, StepFlows(build, s, step))
  {
    var t, direction := Outcome(build, s, step).value, step.direction;
    if step.SwapBaseInStep? {
      var args := step.baseIn;
      SwapBaseInMoves(build, s, direction, args, step.swapEnv);
      var quote := SwapBaseInChecked(s, direction, args, step.swapEnv).value;
      SwapBalanced(s, t, direction, PaidIn(build, direction, args.amountIn, quote.out), args.amountIn, quote.out,
                   quote.fee);
    } else {
      SwapBaseOutMoves(s, direction, step.baseOut, step.swapEnv);
      var quote := SwapBaseOutChecked(s, direction, step.baseOut, step.swapEnv).value;
      SwapBalanced(s, t, direction, quote.after, quote.after, step.baseOut.amountOut, quote.fee);
    }
  }

  lemma StepBalanced(build: Build, s: PoolState, step: Step)
    ensures Balanced(s, Apply(build, s, step), StepFlows(build, s, step))
  {
    if Outcome(build, s, step).Ok? {
      match step
      case DepositStep(args, env) => DepositMoves(s, args, env);
      case WithdrawStep(args, env) => WithdrawMoves(s, args, env);
      case SwapBaseInStep(_, _, _) => SwapStepBalanced(build, s, step);
      case SwapBaseOutStep(_, _, _) => SwapStepBalanced(build, s, step);
      case MonitoringStep(hasOrders) => MonitorStepEffect(s, hasOrders);
      case WithdrawPnlStep =>
      case SetParamsStep(params) => SetParamsEffect(s, params);
    }
  }

  lemma RunOfFirst(build: Build, s: PoolState, steps: seq<Step>)
    requires steps != []
    ensures Run(build, s, steps) == Run(build, Apply(build, s, steps[0]), steps[1..])
    ensures RunFlows(build, s, steps)
            == Plus(StepFlows(build, s, steps[0]), RunFlows(build, Apply(build, s, steps[0]), steps[1..]))
  {
  }

  /** Over any run of any pool without book fills, in either reading of line 412. */
  lemma {:induction false} RunBalanced(build: Build, s: PoolState, steps: seq<Step>)
    ensures Balanced(s, Run(build, s, steps), RunFlows(build, s, steps))
    decreases |steps|
  {
    if steps != [] {
      var t, rest := Apply(build, s, steps[0]), steps[1..];
      RunBalanced(build, t, rest);
      StepBalanced(build, s, steps[0]);
      RunOfFirst(build, s, steps);
      BalancedTransitive(s, t, Run(build, t, rest), StepFlows(build, s, steps[0]), RunFlows(build, t, rest));
    }
  }

  lemma StepFlowsOnlyPay(build: Build, s: PoolState, step: Step)
    ensures build == Intended ==> StepFlows(build, s, step).pcUncollected == 0
    ensures Clean(s) ==> StepFlows(build, s, step).coinPnl == 0 && StepFlows(build, s, step).pcPnl == 0
  {
    if step.WithdrawPnlStep? && Clean(s) {
      WithdrawPnlNeverPays(s);
    }
  }

  /** With the intended line 412 nothing goes uncollected, and a clean pool pays no pnl. */
  lemma {:induction false} RunLeavesNothing(build: Build, s: PoolState, steps: seq<Step>)
    ensures build == Intended ==> RunFlows(build, s, steps).pcUncollected == 0
    ensures Clean(s) ==> RunFlows(build, s, steps).coinPnl == 0 && RunFlows(build, s, steps).pcPnl == 0
    decreases |steps|
  {
    if steps != [] {
      var t, rest := Apply(build, s, steps[0]), steps[1..];
      RunLeavesNothing(build, t, rest);
      StepFlowsOnlyPay(build, s, steps[0]);
      RunOfFirst(build, s, steps);
      if Clean(s) {
        StepKeepsClean(build, s, steps[0]);
      }
    }
  }

  lemma BalancedTransitive(s: PoolState, t: PoolState, u: PoolState, f: Flows, g: Flows)
    requires Balanced(s, t, f) && Balanced(t, u, g)
    ensures Balanced(s, u, Plus(f, g))
  {
  }

  /** What a caller can check before each instruction for line 412 as written to collect what the pc
      counter records. */
  predicate Collects(build: Build, s: PoolState, step: Step) {
    build == AsWritten && step.SwapBaseInStep? && step.direction == PC2Coin && Outcome(build, s, step).Ok?
    ==> PaysInFull(s, step.baseIn.amountIn)
  }

  predicate AlwaysCollects(build: Build, s: PoolState, steps: seq<Step>)
    decreases |steps|
  {
    steps != [] ==> Collects(build, s, steps[0]) && AlwaysCollects(build, Apply(build, s, steps[0]), steps[1..])
  }

  lemma StepCollectsIff(build: Build, s: PoolState, step: Step)
    requires Clean(s) && Priced(s)
    ensures StepFlows(build, s, step).pcUncollected == 0 <==> Collects(build, s, step)
  {
    if Outcome(build, s, step).Ok? && step.SwapBaseInStep? && build == AsWritten && step.direction == PC2Coin {
      SwapBaseInMoves(AsWritten, s, PC2Coin, step.baseIn, step.swapEnv);
      AsWrittenPaysInFullIff(s, step.baseIn, step.swapEnv);
    }
  }

  /** What the first i instructions left uncollected. */
  function Uncollected(build: Build, s: PoolState, steps: seq<Step>, i: nat): int
    requires i <= |steps|
  {
    RunFlows(build, s, steps[..i]).pcUncollected
  }

  lemma UncollectedFirst(build: Build, s: PoolState, steps: seq<Step>, i: nat)
    requires i < |steps|
    ensures Uncollected(build, s, steps, i + 1)
            == StepFlows(build, s, steps[0]).pcUncollected
               + Uncollected(build, Apply(build, s, steps[0]), steps[1..], i)
  {
    assert steps[..i + 1] == [steps[0]] + steps[1..][..i];
    UncollectedOfCons(build, s, steps[0], steps[1..][..i]);
  }

  lemma UncollectedOfCons(build: Build, s: PoolState, step: Step, rest: seq<Step>)
    ensures RunFlows(build, s, [step] + rest).pcUncollected
            == StepFlows(build, s, step).pcUncollected + RunFlows(build, Apply(build, s, step), rest).pcUncollected
  {
    RunOfFirst(build, s, [step] + rest);
    assert ([step] + rest)[1..] == rest;
  }

  /** Nothing is uncollected at any moment of a run exactly when every exact-in swap from pc to coin in
      it, if line 412 is read as written, meets the condition. */
  lemma {:induction false} CollectsIff(build: Build, s: PoolState, steps: seq<Step>)
    requires Clean(s) && AlwaysPriced(build, s, steps)
    ensures (forall i | 0 <= i <= |steps| :: Uncollected(build, s, steps, i) == 0) <==> AlwaysCollects(build, s, steps)
    decreases |steps|
  {
    assert steps[..0] == [] && Uncollected(build, s, steps, 0) == 0;
    if steps != [] {
      var t, rest := Apply(build, s, steps[0]), steps[1..];
      StepKeepsClean(build, s, steps[0]);
      StepCollectsIff(build, s, steps[0]);
      CollectsIff(build, t, rest);
      assert rest[..0] == [] && Uncollected(build, t, rest, 0) == 0;
      forall i | 0 <= i <= |rest|
        ensures Uncollected(build, s, steps, i + 1)
                == StepFlows(build, s, steps[0]).pcUncollected + Uncollected(build, t, rest, i)
      {
        UncollectedFirst(build, s, steps, i);
      }
      if forall i | 0 <= i <= |steps| :: Uncollected(build, s, steps, i) == 0 {
        assert Uncollected(build, s, steps, 0 + 1) == 0;
        forall i | 0 <= i <= |rest|
          ensures Uncollected(build, t, rest, i) == 0
        {
          assert Uncollected(build, s, steps, i + 1) == 0;
        }
      }
      if AlwaysCollects(build, s, steps) {
        forall i | 0 <= i <= |steps|
          ensures Uncollected(build, s, steps, i) == 0
        {
          if i > 0 {
            assert Uncollected(build, t, rest, i - 1) == 0;
          }
        }
      }
    }
  }

  /** The opening coin or pc plus deposits less withdrawals plus the counter of swaps in less that of
      swaps out. */
  predicate CoinBooks(s: PoolState, t: PoolState, f: Flows) {
    ReserveCoin(t) == ReserveCoin(s) + f.coinIn - f.coinOut
                      + t.amm.stateData.swapCoinInAmount - t.amm.stateData.swapCoinOutAmount
  }

  predicate PcBooks(s: PoolState, t: PoolState, f: Flows) {
    ReservePc(t) == ReservePc(s) + f.pcIn - f.pcOut
                    + t.amm.stateData.swapPcInAmount - t.amm.stateData.swapPcOutAmount
  }

  lemma BooksAt(build: Build, s: PoolState, steps: seq<Step>, i: nat)
    requires Clean(s) && i <= |steps|
    requires s.amm.stateData.swapCoinInAmount == s.amm.stateData.swapCoinOutAmount == 0
    requires s.amm.stateData.swapPcInAmount == s.amm.stateData.swapPcOutAmount == 0
    ensures CoinBooks(s, StateAt(build, s, steps, i), RunFlows(build, s, steps[..i]))
    ensures PcBooks(s, StateAt(build, s, steps, i), RunFlows(build, s, steps[..i]))
            <==> Uncollected(build, s, steps, i) == 0
  {
    RunBalanced(build, s, steps[..i]);
    RunLeavesNothing(build, s, steps[..i]);
  }

  /** From Initialize2, whose counters are zero, the counters account for every token at every moment of
      any run: for the coin side in both readings of line 412; for the pc side exactly when every
      exact-in swap from pc to coin, if line 412 is read as written, happens to pay in full. */
  lemma ReservesAccountedFor(build: Build, args: InitializeArgs, env: LiquidityEnv, vaultCoin: u64, vaultPc: u64,
                             owner: Pubkey, steps: seq<Step>)
    requires InitializedPool(args, env, vaultCoin, vaultPc, owner).Ok?
    ensures var s := InitializedPool(args, env, vaultCoin, vaultPc, owner).value;
            && ReserveCoin(s) == vaultCoin + args.initCoinAmount && ReservePc(s) == vaultPc + args.initPcAmount
            && (forall i | 0 <= i <= |steps| ::
                  CoinBooks(s, StateAt(build, s, steps, i), RunFlows(build, s, steps[..i])))
            && ((forall i | 0 <= i <= |steps| ::
                   PcBooks(s, StateAt(build, s, steps, i), RunFlows(build, s, steps[..i])))
                <==> AlwaysCollects(build, s, steps))
            && (build == Intended ==> AlwaysCollects(build, s, steps))
  {
    var s := InitializedPool(args, env, vaultCoin, vaultPc, owner).value;
    InitializedIsClean(args, env, vaultCoin, vaultPc, owner);
    EmptyBookIsPriced(build, s, steps);
    forall i | 0 <= i <= |steps|
      ensures CoinBooks(s, StateAt(build, s, steps, i), RunFlows(build, s, steps[..i]))
      ensures PcBooks(s, StateAt(build, s, steps, i), RunFlows(build, s, steps[..i]))
              <==> Uncollected(build, s, steps, i) == 0
    {
      BooksAt(build, s, steps, i);
    }
    CollectsIff(build, s, steps);
    if build == Intended {
      IntendedCollects(s, steps);
    }
  }

  /** With the intended line 412 every swap pays in full. */
  lemma {:induction false} IntendedCollects(s: PoolState, steps: seq<Step>)
    ensures AlwaysCollects(Intended, s, steps)
    decreases |steps|
  {
    if steps != [] {
      IntendedCollects(Apply(Intended, s, steps[0]), steps[1..]);
    }
  }

  // ---------------------------------------------------------------- fees

  /** The fees recorded for a token never exceed the inputs recorded for it. */
  predicate FeesCovered(s: PoolState) {
    && s.amm.stateData.swapAccCoinFee <= s.amm.stateData.swapCoinInAmount
    && s.amm.stateData.swapAccPcFee <= s.amm.stateData.swapPcInAmount
  }

  lemma StepKeepsFeesCovered(build: Build, s: PoolState, step: Step)
    requires FeesCovered(s)
    ensures FeesCovered(Apply(build, s, step))
  {
    if Outcome(build, s, step).Ok? {
      match step
      case DepositStep(args, env) => DepositMoves(s, args, env);
      case WithdrawStep(args, env) => WithdrawMoves(s, args, env);
      case SwapBaseInStep(direction, args, env) => SwapBaseInMoves(build, s, direction, args, env);
      case SwapBaseOutStep(direction, args, env) => SwapBaseOutMoves(s, direction, args, env);
      case MonitoringStep(hasOrders) => MonitorStepEffect(s, hasOrders);
      case WithdrawPnlStep =>
      case SetParamsStep(params) => SetParamsEffect(s, params);
    }
  }

  lemma {:induction false} RunKeepsFeesCovered(build: Build, s: PoolState, steps: seq<Step>)
    requires FeesCovered(s)
    ensures FeesCovered(Run(build, s, steps))
    decreases |steps|
  {
    if steps != [] {
      StepKeepsFeesCovered(build, s, steps[0]);
      RunKeepsFeesCovered(build, Apply(build, s, steps[0]), steps[1..]);
    }
  }

  // ---------------------------------------------------------------- line 412 as written

  const EXAMPLE_ARGS := InitializeArgs(0, 1000000, 1000000)
  const EXAMPLE_ENV := LiquidityEnv(1000000, 1000000, 0, 0)
  const EXAMPLE_SWAP := SwapBaseInStep(PC2Coin, SwapBaseInArgs(100000, 0), SwapEnv(0, 100000))

  ghost function ExamplePool(owner: Pubkey): Result<PoolState> {
    InitializedPool(EXAMPLE_ARGS, EXAMPLE_ENV, 0, 0, owner)
  }

  lemma ExampleQuote()
    ensures QuoteBaseIn(25, 10000, 1000000, 1000000, 100000) == Ok(BaseInQuote(250, 99750, 90702))
  {
    assert 100000 * 25 == 2500000 && (2500000 + 9999) / 10000 == 250;
    assert 1000000 * 99750 / 1099750 == 90702;
  }

  lemma ExamplePoolIs(owner: Pubkey)
    ensures ExamplePool(owner).Ok?
    ensures var s := ExamplePool(owner).value;
            && s.amm.status == INITIALIZED && s.amm.fees == INITIAL_FEES && s.amm.lpAmount == 1000000
            && Clean(s) && EmptyBook(s) && s.vaultCoin == s.vaultPc == 1000000
            && s.amm.stateData == StateData(0, 0, 0, 0, 0, 0, 0, 0, 0, 0, 0, 0)
  {
    FloorSqrtUnique(1000000, 1000000 * 1000000);
  }

  /** With its quote given, the swap passes every check and transfer. */
  lemma ExampleSwapRuns(s: PoolState, quote: BaseInQuote)
    requires s.amm.status == INITIALIZED && Clean(s) && EmptyBook(s) && s.vaultCoin == s.vaultPc == 1000000
    requires s.amm.stateData == StateData(0, 0, 0, 0, 0, 0, 0, 0, 0, 0, 0, 0)
    requires quote.fee == 250 && quote.out == 90702
    ensures var (args, env) := (EXAMPLE_SWAP.baseIn, EXAMPLE_SWAP.swapEnv);
            && AcceptBaseIn(s, PC2Coin, args, env, Ok(quote)) == Ok(quote)
            && ExecuteBaseIn(AsWritten, s, PC2Coin, args, env, Ok(quote)).Ok?
  {
  }

  /** Read as written, one accepted exact-in swap from pc to coin, the first after Initialize2,
      lowers the product below the squared LP amount and leaves 9298 pc uncollected. */
  lemma AsWrittenLosesBacking(owner: Pubkey)
    ensures ExamplePool(owner).Ok?
    ensures Outcome(AsWritten, ExamplePool(owner).value, EXAMPLE_SWAP).Ok?
    ensures var t := Run(AsWritten, ExamplePool(owner).value, [EXAMPLE_SWAP]);
            && !Backed(t) && !GrowthHolds(ExamplePool(owner).value, t)
            && RunFlows(AsWritten, ExamplePool(owner).value, [EXAMPLE_SWAP]).pcUncollected == 9298
  {
    ExamplePoolIs(owner);
    ExampleQuote();
    var s := ExamplePool(owner).value;
    ExampleSwapRuns(s, BaseInQuote(250, 99750, 90702));
    assert SwapBaseInQuote(s, PC2Coin, 100000) == Ok(BaseInQuote(250, 99750, 90702));
    ExampleResult(s);
  }

  lemma ExampleResult(s: PoolState)
    requires Clean(s) && EmptyBook(s) && s.vaultCoin == s.vaultPc == s.amm.lpAmount == 1000000
    requires SwapBaseInChecked(s, PC2Coin, EXAMPLE_SWAP.baseIn, EXAMPLE_SWAP.swapEnv)
             == Ok(BaseInQuote(250, 99750, 90702))
    requires Outcome(AsWritten, s, EXAMPLE_SWAP).Ok?
    ensures var t := Run(AsWritten, s, [EXAMPLE_SWAP]);
            && !Backed(t) && !GrowthHolds(s, t) && RunFlows(AsWritten, s, [EXAMPLE_SWAP]).pcUncollected == 9298
  {
    OneStep(AsWritten, s, EXAMPLE_SWAP);
    SwapBaseInEffect(AsWritten, s, PC2Coin, EXAMPLE_SWAP.baseIn, EXAMPLE_SWAP.swapEnv);
    EqualMoveGrowth(s, Apply(AsWritten, s, EXAMPLE_SWAP), 90702);
  }

  lemma OneStep(build: Build, s: PoolState, step: Step)
    ensures Run(build, s, [step]) == Apply(build, s, step)
    ensures RunFlows(build, s, [step]) == StepFlows(build, s, step)
  {
    var t := Apply(build, s, step);
    assert [step][1..] == [];
    assert Run(build, t, []) == t && RunFlows(build, t, []) == NO_FLOWS;
  }

  // ---------------------------------------------------------------- accepted liquidity

  const EXAMPLE_DEPOSIT := DepositArgs(100, 100, 0, None)
  const EXAMPLE_WITHDRAW := WithdrawArgs(100, None, None)

  /** A deposit of 100 of each token into the same pool is accepted, mints 100, and withdrawing those
      is accepted too: the results about accepted liquidity speak of something. */
  lemma LiquidityAcceptedExample(owner: Pubkey, env: LiquidityEnv, env': LiquidityEnv)
    requires env.userCoin >= 100 && env.userPc >= 100 && env.lpSupply == 1000000
    requires env'.userLp >= 100 && env'.lpSupply == 1000100
    ensures ExamplePool(owner).Ok?
    ensures var s := ExamplePool(owner).value;
            && DepositChecked(s, EXAMPLE_DEPOSIT, env) == Ok(DepositAmounts(100, 100, 100))
            && Deposit(s, EXAMPLE_DEPOSIT, env).Ok?
            && var t := Deposit(s, EXAMPLE_DEPOSIT, env).value;
               && WithdrawChecked(t, EXAMPLE_WITHDRAW, env') == Ok(WithdrawAmounts(100, 100))
               && Withdraw(t, EXAMPLE_WITHDRAW, env').Ok?
  {
    ExamplePoolIs(owner);
  }
}
