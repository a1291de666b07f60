/** What the pnl bookkeeping does in a pool that does carry pnl. */
module Pnl {
  import opened Machine
  import opened Arith
  import opened PoolState
  import opened Steps
  import opened Runs

  function Capped(v: nat): u64 {
    if v >= U64_LIMIT then U64_LIMIT - 1 else v
  }

  /** Monitor steps, each told whether the pool has orders on the book. */
  function Monitoring(hasOrders: seq<bool>): (steps: seq<Step>)
    ensures |steps| == |hasOrders|
  {
    seq(|hasOrders|, i requires 0 <= i < |hasOrders| => MonitoringStep(hasOrders[i]))
  }

  /** What is owed after n monitor steps: (coin, pc). */
  function Owed(s: PoolState, n: nat): (u64, u64) {
    (Capped(s.amm.stateData.totalPnlCoin + n * Truncate64(s.target.calcPnlY)),
     Capped(s.amm.stateData.totalPnlPc + n * Truncate64(s.target.calcPnlX)))
  }

  /** The vaults (coin, pc) once a step that found orders has settled the book. */
  function VaultsAfter(s: PoolState, settled: bool): (nat, nat) {
    if settled then (ReserveCoin(s), ReservePc(s)) else (s.vaultCoin, s.vaultPc)
  }

  /** The recorded pnl is never reset by a monitor step: n accepted steps in a row add it n times to
      what is owed, truncated to u64 each time and capped at the largest u64, and change neither the
      record nor any reserve; the first of them that finds orders moves the book into the vaults. */
  lemma {:induction false} MonitorAccumulates(build: Build, s: PoolState, hasOrders: seq<bool>)
    requires s.amm.status != UNINITIALIZED && Totals(s, true).Ok?
    ensures var (t, owed) := (Run(build, s, Monitoring(hasOrders)), Owed(s, |hasOrders|));
            && t.amm == s.amm.(stateData := s.amm.stateData.(totalPnlCoin := owed.0, totalPnlPc := owed.1))
            && t.target.calcPnlX == s.target.calcPnlX && t.target.calcPnlY == s.target.calcPnlY
            && ReserveCoin(t) == ReserveCoin(s) && ReservePc(t) == ReservePc(s)
            && (t.vaultCoin, t.vaultPc) == VaultsAfter(s, true in hasOrders)
    decreases |hasOrders|
  {
    if hasOrders != [] {
      var first, rest := hasOrders[0], hasOrders[1..];
      var t := Apply(build, s, MonitoringStep(first));
      assert Monitoring(hasOrders)[0] == MonitoringStep(first) && Monitoring(hasOrders)[1..] == Monitoring(rest);
      OneMonitorStep(build, s, first);
      MonitorAccumulates(build, t, rest);
      CapTwice(s.amm.stateData.totalPnlPc, Truncate64(s.target.calcPnlX), |rest|);
      CapTwice(s.amm.stateData.totalPnlCoin, Truncate64(s.target.calcPnlY), |rest|);
      assert true in hasOrders <==> first || true in rest;
    }
  }

  lemma OneMonitorStep(build: Build, s: PoolState, hasOrders: bool)
    requires s.amm.status != UNINITIALIZED && Totals(s, true).Ok?
    ensures var t := Apply(build, s, MonitoringStep(hasOrders));
            && Totals(t, true).Ok?
            && t.amm == TakePnl(s).amm
            && t.target.calcPnlX == s.target.calcPnlX && t.target.calcPnlY == s.target.calcPnlY
            && ReserveCoin(t) == ReserveCoin(s) && ReservePc(t) == ReservePc(s)
            && (t.vaultCoin, t.vaultPc) == VaultsAfter(s, hasOrders)
  {
  }

  lemma CapTwice(a: u64, b: u64, n: nat)
    ensures Capped(SaturatingAdd(a, b) + n * b) == Capped(a + (n + 1) * b)
  {
    MulLe(0, n, b);
    assert (n + 1) * b == n * b + b;
  }

  /** An accepted WithdrawPnl pays out exactly what is owed, once: the totals are zero afterwards and a
      second call is refused. */
  lemma WithdrawPnlPaysOnce(s: PoolState)
    requires WithdrawPnl(s).Ok?
    ensures var (t, d) := (WithdrawPnl(s).value, s.amm.stateData);
            && s.vaultCoin - t.vaultCoin == d.totalPnlCoin && s.vaultPc - t.vaultPc == d.totalPnlPc
            && t.bookCoin == s.bookCoin && t.bookPc == s.bookPc && t.target == s.target
            && t.amm == s.amm.(stateData := d.(totalPnlCoin := 0, totalPnlPc := 0))
            && WithdrawPnl(t) == Err(InsufficientFunds)
  {
  }

  /** Monitor steps, any number of them, and a payout: the pool pays the owed totals plus n times the
      record, in full or not at all, from the vaults and whatever a settled book added to them. */
  lemma MonitorThenWithdrawPnl(build: Build, s: PoolState, hasOrders: seq<bool>)
    requires s.amm.status != UNINITIALIZED && Totals(s, true).Ok?
    ensures var paid := WithdrawPnl(Run(build, s, Monitoring(hasOrders)));
            var (owed, vaults) := (Owed(s, |hasOrders|), VaultsAfter(s, true in hasOrders));
            && (paid.Ok? <==> owed != (0, 0) && owed.0 <= vaults.0 && owed.1 <= vaults.1)
            && (paid.Ok? ==> paid.value.vaultCoin == vaults.0 - owed.0 && paid.value.vaultPc == vaults.1 - owed.1)
  {
    MonitorAccumulates(build, s, hasOrders);
  }
}
