/** The instruction bytes: `AmmInstruction::pack` and `AmmInstruction::unpack`. */
module Instruction {
  import opened Machine
  import opened Bytes
  import opened PoolState
  import opened Steps
  import W = Whitelist

  /** Texts are given by their UTF-8 bytes.  `InitializeExtraAccountMetaList` stands for the empty list
      of extra account metas only. */
  datatype AmmInstruction =
    | Initialize(nonce: u8, openTime: u64)
    | Initialize2(nonce: u8, initialize: InitializeArgs)
    | MonitorStep(planOrderLimit: u16, placeOrderLimit: u16, cancelOrderLimit: u16)
    | Deposit(deposit: DepositArgs)
    | Withdraw(withdraw: WithdrawArgs)
    | MigrateToOpenBook
    | SetParams(params: SetParamsArgs)
    | WithdrawPnl
    | WithdrawSrm(amount: u64)
    | SwapBaseIn(baseIn: SwapBaseInArgs)
    | PreInitialize(nonce: u8)
    | SwapBaseOut(baseOut: SwapBaseOutArgs)
    | SimulateInfo(param: u8, baseInValue: Option<SwapBaseInArgs>, baseOutValue: Option<SwapBaseOutArgs>)
    | AdminCancelOrders(limit: u16)
    | CreateConfigAccount
    | UpdateConfigAccount(param: u8, owner: Option<Pubkey>, createPoolFee: Option<u64>)
    | CreateToken2022Mint(decimals: u8, mintAuthority: Pubkey, freezeAuthority: Option<Pubkey>,
                          transferHookProgramId: Option<Pubkey>, name: seq<u8>, symbol: seq<u8>, uri: seq<u8>)
    | UpdateHookWhitelist(hookProgramId: Pubkey, action: W.Action)
    | InitializeExtraAccountMetaList
    | InitializeHookWhitelist(authority: Pubkey)
    | UpdateWhitelistAuthority(newAuthority: Pubkey)

  // ---------------------------------------------------------------- numbers and keys

  function Le16(v: u16): seq<u8> {
    LittleEndian(v, 2)
  }

  function Le64(v: u64): seq<u8> {
    LittleEndian(v, 8)
  }

  lemma Widths()
    ensures Pow256(1) == 0x100 && Pow256(2) == 0x1_0000 && Pow256(8) == U64_LIMIT
  {
    assert Pow256(0) == 1 && Pow256(1) == 0x100 && Pow256(2) == 0x1_0000 && Pow256(3) == 0x100_0000;
    assert Pow256(4) == 0x1_0000_0000 && Pow256(5) == 0x100_0000_0000 && Pow256(6) == 0x1_0000_0000_0000;
    assert Pow256(7) == 0x100_0000_0000_0000;
  }

  function UnpackU8(s: seq<u8>): Result<(u8, seq<u8>)> {
    if |s| >= 1 then Ok((s[0], s[1..])) else Err(InvalidInstructionData)
  }

  function UnpackU16(s: seq<u8>): Result<(u16, seq<u8>)> {
    if |s| >= 2 then
      Widths();
      Ok((FromLittleEndian(s[..2]), s[2..]))
    else Err(InvalidInstructionData)
  }

  function UnpackU64(s: seq<u8>): Result<(u64, seq<u8>)> {
    if |s| >= 8 then
      Widths();
      Ok((FromLittleEndian(s[..8]), s[8..]))
    else Err(InvalidInstructionData)
  }

  /** `array_ref!` and slicing without a length check panic on short input. */
  function KeyOrPanic(s: seq<u8>): Result<(Pubkey, seq<u8>)> {
    if |s| >= 32 then Ok((s[..32], s[32..])) else Err(Panicked)
  }

  function KeyOrError(s: seq<u8>): Result<(Pubkey, seq<u8>)> {
    if |s| >= 32 then Ok((s[..32], s[32..])) else Err(InvalidInstructionData)
  }

  lemma ReadU8(v: u8, rest: seq<u8>)
    ensures UnpackU8([v] + rest) == Ok((v, rest))
  {
    assert ([v] + rest)[1..] == rest;
  }

  lemma ReadU16(v: u16, rest: seq<u8>)
    ensures UnpackU16(Le16(v) + rest) == Ok((v, rest))
  {
    Widths();
    LittleEndianRoundTrip(v, 2);
    assert (Le16(v) + rest)[..2] == Le16(v) && (Le16(v) + rest)[2..] == rest;
  }

  lemma ReadU64(v: u64, rest: seq<u8>)
    ensures UnpackU64(Le64(v) + rest) == Ok((v, rest))
  {
    Widths();
    LittleEndianRoundTrip(v, 8);
    assert (Le64(v) + rest)[..8] == Le64(v) && (Le64(v) + rest)[8..] == rest;
  }

  lemma ReadPair(a: u64, b: u64, rest: seq<u8>)
    ensures UnpackPair(Le64(a) + Le64(b) + rest) == Ok((a, b))
  {
    assert Le64(a) + Le64(b) + rest == Le64(a) + (Le64(b) + rest);
    ReadU64(a, Le64(b) + rest);
    ReadU64(b, rest);
  }

  lemma ReadKey(key: Pubkey, rest: seq<u8>)
    ensures KeyOrPanic(key + rest) == Ok((key, rest)) && KeyOrError(key + rest) == Ok((key, rest))
  {
    assert (key + rest)[..32] == key && (key + rest)[32..] == rest;
  }

  // ---------------------------------------------------------------- fees

  function FeesBytes(f: Fees): (s: seq<u8>)
    ensures |s| == 64
  {
    Le64(f.minSeparateNumerator) + Le64(f.minSeparateDenominator)
    + Le64(f.tradeFeeNumerator) + Le64(f.tradeFeeDenominator)
    + Le64(f.pnlNumerator) + Le64(f.pnlDenominator) + Le64(f.swapFeeNumerator) + Le64(f.swapFeeDenominator)
  }

  /** `Fees::unpack_from_slice` on the first 64 bytes. */
  function UnpackFees(s: seq<u8>): Result<Fees> {
    var (a, s1) :- UnpackU64(s);
    var (b, s2) :- UnpackU64(s1);
    var (c, s3) :- UnpackU64(s2);
    var (d, s4) :- UnpackU64(s3);
    var (e, s5) :- UnpackU64(s4);
    var (f, s6) :- UnpackU64(s5);
    var (g, s7) :- UnpackU64(s6);
    var (h, _) :- UnpackU64(s7);
    Ok(Fees(a, b, c, d, e, f, g, h))
  }

  /** The eight numbers one after the other, in the grouping in which they are read. */
  function FeesNested(f: Fees, rest: seq<u8>): seq<u8> {
    Le64(f.minSeparateNumerator) + (Le64(f.minSeparateDenominator)
    + (Le64(f.tradeFeeNumerator) + (Le64(f.tradeFeeDenominator)
    + (Le64(f.pnlNumerator) + (Le64(f.pnlDenominator)
    + (Le64(f.swapFeeNumerator) + (Le64(f.swapFeeDenominator) + rest)))))))
  }

  lemma ReadFees(f: Fees, rest: seq<u8>)
    ensures UnpackFees(FeesNested(f, rest)) == Ok(f)
  {
    var s7 := Le64(f.swapFeeDenominator) + rest;
    var s6 := Le64(f.swapFeeNumerator) + s7;
    var s5 := Le64(f.pnlDenominator) + s6;
    var s4 := Le64(f.pnlNumerator) + s5;
    var s3 := Le64(f.tradeFeeDenominator) + s4;
    var s2 := Le64(f.tradeFeeNumerator) + s3;
    var s1 := Le64(f.minSeparateDenominator) + s2;
    ReadU64(f.minSeparateNumerator, s1);
    ReadU64(f.minSeparateDenominator, s2);
    ReadU64(f.tradeFeeNumerator, s3);
    ReadU64(f.tradeFeeDenominator, s4);
    ReadU64(f.pnlNumerator, s5);
    ReadU64(f.pnlDenominator, s6);
    ReadU64(f.swapFeeNumerator, s7);
    ReadU64(f.swapFeeDenominator, rest);
  }

  // ---------------------------------------------------------------- pack

  function KeyOrZeros(key: Option<Pubkey>): Pubkey {
    match key
    case Some(k) => k
    case None => DefaultKey()
  }

  function Text(s: seq<u8>): seq<u8> {
    [|s| % 256] + s
  }

  function Required<T>(o: Option<T>): Result<T> {
    match o
    case Some(v) => Ok(v)
    case None => Err(InvalidInstructionData)
  }

  function PackSetParams(p: SetParamsArgs): Result<seq<u8>> {
    if p.param > 17 then Err(Panicked)
    else if p.param == 10 then
      var key :- Required(p.newPubkey);
      Ok([p.param] + key)
    else if p.param == 9 then
      var fees :- Required(p.fees);
      Ok([p.param] + FeesBytes(fees))
    else if p.param == 12 then
      var distance :- Required(p.lastOrderDistance);
      Ok([p.param] + Le64(distance.0) + Le64(distance.1))
    else
      var value :- Required(p.value);
      Ok([p.param] + Le64(value))
  }

  function PackSimulate(param: u8, baseIn: Option<SwapBaseInArgs>, baseOut: Option<SwapBaseOutArgs>): Result<seq<u8>> {
    match param
    case 1 =>
      var v :- Required(baseIn);
      Ok([param] + Le64(v.amountIn) + Le64(v.minimumAmountOut))
    case 2 =>
      var v :- Required(baseOut);
      Ok([param] + Le64(v.maxAmountIn) + Le64(v.amountOut))
    case _ =>
      if param == 0 || param == 3 then Ok([param]) else Err(Panicked)
  }

  function PackConfig(param: u8, owner: Option<Pubkey>, createPoolFee: Option<u64>): Result<seq<u8>> {
    if param == 0 || param == 1 then
      var key :- Required(owner);
      if key == DefaultKey() then Err(InvalidInstructionData) else Ok([param] + key)
    else if param == 2 then
      var fee :- Required(createPoolFee);
      Ok([param] + Le64(fee))
    else Err(InvalidInstructionData)
  }

  function PackMint(decimals: u8, mint: Pubkey, freeze: Pubkey, hook: Pubkey, name: seq<u8>, symbol: seq<u8>,
                    uri: seq<u8>): seq<u8> {
    [decimals] + mint + freeze + hook + Text(name) + Text(symbol) + Text(uri)
  }

  function Tag(i: AmmInstruction): u8 {
    match i
    case Initialize(_, _) => 0
    case Initialize2(_, _) => 1
    case MonitorStep(_, _, _) => 2
    case Deposit(_) => 3
    case Withdraw(_) => 4
    case MigrateToOpenBook => 5
    case SetParams(_) => 6
    case WithdrawPnl => 7
    case WithdrawSrm(_) => 8
    case SwapBaseIn(_) => 9
    case PreInitialize(_) => 10
    case SwapBaseOut(_) => 11
    case SimulateInfo(_, _, _) => 12
    case AdminCancelOrders(_) => 13
    case CreateConfigAccount => 14
    case UpdateConfigAccount(_, _, _) => 15
    case CreateToken2022Mint(_, _, _, _, _, _, _) => 16
    case UpdateHookWhitelist(_, _) => 17
    case InitializeExtraAccountMetaList => 18
    case InitializeHookWhitelist(_) => 19
    case UpdateWhitelistAuthority(_) => 20
  }

  /** What `pack` appends after the tag. */
  function PackBody(i: AmmInstruction): Result<seq<u8>> {
    match i
    case Initialize(nonce, openTime) => Ok([nonce] + Le64(openTime))
    case Initialize2(nonce, a) => Ok([nonce] + Le64(a.openTime) + Le64(a.initPcAmount) + Le64(a.initCoinAmount))
    case MonitorStep(plan, place, cancel) => Ok(Le16(plan) + Le16(place) + Le16(cancel))
    case Deposit(a) =>
      Ok(Le64(a.maxCoinAmount) + Le64(a.maxPcAmount) + Le64(a.baseSide)
         + (if a.otherAmountMin.Some? then Le64(a.otherAmountMin.value) else []))
    case Withdraw(a) =>
      Ok(Le64(a.amount)
         + (if a.minCoinAmount.Some? && a.minPcAmount.Some?
            then Le64(a.minCoinAmount.value) + Le64(a.minPcAmount.value) else []))
    case SetParams(p) => PackSetParams(p)
    case WithdrawSrm(amount) => Ok(Le64(amount))
    case SwapBaseIn(a) => Ok(Le64(a.amountIn) + Le64(a.minimumAmountOut))
    case PreInitialize(nonce) => Ok([nonce])
    case SwapBaseOut(a) => Ok(Le64(a.maxAmountIn) + Le64(a.amountOut))
    case SimulateInfo(param, baseIn, baseOut) => PackSimulate(param, baseIn, baseOut)
    case AdminCancelOrders(limit) => Ok(Le16(limit))
    case UpdateConfigAccount(param, owner, fee) => PackConfig(param, owner, fee)
    case CreateToken2022Mint(decimals, mint, freeze, hook, name, symbol, uri) =>
      Ok(PackMint(decimals, mint, KeyOrZeros(freeze), KeyOrZeros(hook), name, symbol, uri))
    case UpdateHookWhitelist(hook, action) => Ok(hook + [if action == W.Add then 0 else 1])
    case InitializeExtraAccountMetaList => Ok(LittleEndian(0, 4))
    case InitializeHookWhitelist(authority) => Ok(authority)
    case UpdateWhitelistAuthority(authority) => Ok(authority)
    case _ => Ok([])
  }

  function Pack(i: AmmInstruction): Result<seq<u8>> {
    var body :- PackBody(i);
    Ok([Tag(i)] + body)
  }

  // ---------------------------------------------------------------- unpack

  function UnpackSetParams(s: seq<u8>): Result<AmmInstruction> {
    var (param, rest) :- UnpackU8(s);
    if param > 17 then Err(Panicked)
    else if param == 10 then
      var (key, _) :- KeyOrError(rest);
      Ok(SetParams(SetParamsArgs(param, None, Some(key), None, None)))
    else if param == 9 then
      var fees :- UnpackFees(rest);
      Ok(SetParams(SetParamsArgs(param, None, None, Some(fees), None)))
    else if param == 12 then
      var distance :- UnpackPair(rest);
      Ok(SetParams(SetParamsArgs(param, None, None, None, Some(distance))))
    else
      var (value, _) :- UnpackU64(rest);
      Ok(SetParams(SetParamsArgs(param, Some(value), None, None, None)))
  }

  function UnpackSimulate(s: seq<u8>): Result<AmmInstruction> {
    var (param, rest) :- UnpackU8(s);
    if param > 3 then Err(Panicked)
    else if param == 1 then
      var (a, b) :- UnpackPair(rest);
      Ok(SimulateInfo(param, Some(SwapBaseInArgs(a, b)), None))
    else if param == 2 then
      var (a, b) :- UnpackPair(rest);
      Ok(SimulateInfo(param, None, Some(SwapBaseOutArgs(a, b))))
    else Ok(SimulateInfo(param, None, None))
  }

  function UnpackConfig(s: seq<u8>): Result<AmmInstruction> {
    var (param, rest) :- UnpackU8(s);
    if param == 0 || param == 1 then
      var (key, _) :- KeyOrPanic(rest);
      Ok(UpdateConfigAccount(param, Some(key), None))
    else if param == 2 then
      var (fee, _) :- UnpackU64(rest);
      Ok(UpdateConfigAccount(param, None, Some(fee)))
    else Err(InvalidInstructionData)
  }

  function NoneIfZeros(key: Pubkey): Option<Pubkey> {
    if key == DefaultKey() then None else Some(key)
  }

  /** A length byte and that many bytes, decoded by `String::from_utf8_lossy`. */
  function UnpackText(lossy: seq<u8> -> seq<u8>, s: seq<u8>): Result<(seq<u8>, seq<u8>)> {
    var (n, rest) :- UnpackU8(s);
    if |rest| < n then Err(InvalidInstructionData) else Ok((lossy(rest[..n]), rest[n..]))
  }

  function UnpackMint(lossy: seq<u8> -> seq<u8>, s: seq<u8>): Result<AmmInstruction> {
    var (decimals, s1) :- UnpackU8(s);
    var (mint, s2) :- KeyOrPanic(s1);
    var (freeze, s3) :- KeyOrPanic(s2);
    var (hook, s4) :- KeyOrPanic(s3);
    var (name, symbol, uri) :- UnpackTexts(lossy, s4);
    Ok(CreateToken2022Mint(decimals, mint, NoneIfZeros(freeze), NoneIfZeros(hook), name, symbol, uri))
  }

  function UnpackTexts(lossy: seq<u8> -> seq<u8>, s: seq<u8>): Result<(seq<u8>, seq<u8>, seq<u8>)> {
    var (name, s1) :- UnpackText(lossy, s);
    var (symbol, s2) :- UnpackText(lossy, s1);
    var (uri, _) :- UnpackText(lossy, s2);
    Ok((name, symbol, uri))
  }

  function UnpackDeposit(s: seq<u8>): Result<AmmInstruction> {
    var (a, s1) :- UnpackU64(s);
    var (b, s2) :- UnpackU64(s1);
    var (c, s3) :- UnpackU64(s2);
    if |s3| >= 8 then
      var (d, _) :- UnpackU64(s3);
      Ok(Deposit(DepositArgs(a, b, c, Some(d))))
    else Ok(Deposit(DepositArgs(a, b, c, None)))
  }

  function UnpackWithdraw(s: seq<u8>): Result<AmmInstruction> {
    var (a, s1) :- UnpackU64(s);
    if |s1| >= 16 then
      var (b, s2) :- UnpackU64(s1);
      var (c, _) :- UnpackU64(s2);
      Ok(Withdraw(WithdrawArgs(a, Some(b), Some(c))))
    else Ok(Withdraw(WithdrawArgs(a, None, None)))
  }

  function UnpackInitialize(s: seq<u8>): Result<AmmInstruction> {
    var (nonce, s1) :- UnpackU8(s);
    var (openTime, _) :- UnpackU64(s1);
    Ok(Initialize(nonce, openTime))
  }

  function UnpackInitialize2(s: seq<u8>): Result<AmmInstruction> {
    var (nonce, s1) :- UnpackU8(s);
    var (a, s2) :- UnpackU64(s1);
    var (b, s3) :- UnpackU64(s2);
    var (c, _) :- UnpackU64(s3);
    Ok(Initialize2(nonce, InitializeArgs(a, b, c)))
  }

  function UnpackMonitorStep(s: seq<u8>): Result<AmmInstruction> {
    var (a, s1) :- UnpackU16(s);
    var (b, s2) :- UnpackU16(s1);
    var (c, _) :- UnpackU16(s2);
    Ok(MonitorStep(a, b, c))
  }

  function UnpackPair(s: seq<u8>): Result<(u64, u64)> {
    var (a, s1) :- UnpackU64(s);
    var (b, _) :- UnpackU64(s1);
    Ok((a, b))
  }

  function UnpackUpdateHookWhitelist(s: seq<u8>): Result<AmmInstruction> {
    var (hook, s1) :- KeyOrPanic(s);
    if |s1| == 0 || s1[0] > 1 then Err(InvalidInstructionData)
    else Ok(UpdateHookWhitelist(hook, if s1[0] == 0 then W.Add else W.Remove))
  }

  /** Any list but the empty one holds records of a type of another crate, which are not modelled. */
  function UnpackMetaList(s: seq<u8>): Result<AmmInstruction> {
    if |s| < 4 then Err(InvalidInstructionData)
    else if FromLittleEndian(s[..4]) == 0 then Ok(InitializeExtraAccountMetaList)
    else Err(Panicked)
  }

  function UnpackBody(lossy: seq<u8> -> seq<u8>, tag: u8, s: seq<u8>): Result<AmmInstruction> {
    match tag
    case 0 => UnpackInitialize(s)
    case 1 => UnpackInitialize2(s)
    case 2 => UnpackMonitorStep(s)
    case 3 => UnpackDeposit(s)
    case 4 => UnpackWithdraw(s)
    case 5 => Ok(MigrateToOpenBook)
    case 6 => UnpackSetParams(s)
    case 7 => Ok(WithdrawPnl)
    case 8 =>
      var (amount, _) :- UnpackU64(s);
      Ok(WithdrawSrm(amount))
    case 9 =>
      var (a, b) :- UnpackPair(s);
      Ok(SwapBaseIn(SwapBaseInArgs(a, b)))
    case 10 =>
      var (nonce, _) :- UnpackU8(s);
      Ok(PreInitialize(nonce))
    case 11 =>
      var (a, b) :- UnpackPair(s);
      Ok(SwapBaseOut(SwapBaseOutArgs(a, b)))
    case 12 => UnpackSimulate(s)
    case 13 =>
      var (limit, _) :- UnpackU16(s);
      Ok(AdminCancelOrders(limit))
    case 14 => Ok(CreateConfigAccount)
    case 15 => UnpackConfig(s)
    case 16 => UnpackMint(lossy, s)
    case 17 => UnpackUpdateHookWhitelist(s)
    case 18 => UnpackMetaList(s)
    case 19 =>
      var (key, _) :- KeyOrError(s);
      Ok(InitializeHookWhitelist(key))
    case 20 =>
      var (key, _) :- KeyOrError(s);
      Ok(UpdateWhitelistAuthority(key))
    case _ => Err(InvalidInstructionData)
  }

  function Unpack(lossy: seq<u8> -> seq<u8>, input: seq<u8>): Result<AmmInstruction> {
    var (tag, s) :- UnpackU8(input);
    UnpackBody(lossy, tag, s)
  }

  // ---------------------------------------------------------------- the round trip

  predicate CanonicalParams(p: SetParamsArgs) {
    && (p.param == 10 <==> p.newPubkey.Some?)
    && (p.param == 9 <==> p.fees.Some?)
    && (p.param == 12 <==> p.lastOrderDistance.Some?)
    && (p.param !in {9, 10, 12} <==> p.value.Some?)
  }

  /** Nothing is set that the bytes do not carry, and the texts are texts. */
  predicate Canonical(lossy: seq<u8> -> seq<u8>, i: AmmInstruction) {
    match i
    case Withdraw(a) => a.minCoinAmount.Some? <==> a.minPcAmount.Some?
    case SetParams(p) => CanonicalParams(p)
    case SimulateInfo(param, baseIn, baseOut) => (param != 1 ==> baseIn.None?) && (param != 2 ==> baseOut.None?)
    case UpdateConfigAccount(param, owner, fee) => if param == 2 then owner.None? else fee.None?
    case CreateToken2022Mint(_, _, freeze, hook, name, symbol, uri) =>
      && freeze != Some(DefaultKey()) && hook != Some(DefaultKey())
      && IsText(lossy, name) && IsText(lossy, symbol) && IsText(lossy, uri)
    case _ => true
  }

  /** What `String::from_utf8_lossy` does to bytes, as far as it matters: what it returns is a text,
      which it returns unchanged, and cutting a text short leaves at most one broken character, for
      which it puts three bytes. */
  ghost predicate IsDecoder(lossy: seq<u8> -> seq<u8>) {
    && (forall s :: lossy(lossy(s)) == lossy(s))
    && (forall s, n: nat | n <= |s| && lossy(s) == s :: |lossy(s[..n])| <= n + 3)
  }

  /** A text that its length byte can announce. */
  predicate IsText(lossy: seq<u8> -> seq<u8>, s: seq<u8>) {
    lossy(s) == s && |s| < 256
  }

  /** The two short forms read what follows them when there is enough of it. */
  predicate ReadsOn(i: AmmInstruction, trailing: nat) {
    || (i.Deposit? && i.deposit.otherAmountMin.None? && trailing >= 8)
    || (i.Withdraw? && i.withdraw.minCoinAmount.None? && trailing >= 16)
  }

  lemma DepositRoundTrip(a: DepositArgs, t: seq<u8>)
    ensures UnpackDeposit(PackBody(Deposit(a)).value + t) == Ok(Deposit(a)) <==> !ReadsOn(Deposit(a), |t|)
  {
    var tail := if a.otherAmountMin.Some? then Le64(a.otherAmountMin.value) else [];
    var s3 := tail + t;
    assert PackBody(Deposit(a)).value + t == Le64(a.maxCoinAmount) + (Le64(a.maxPcAmount) + (Le64(a.baseSide) + s3));
    ReadU64(a.maxCoinAmount, Le64(a.maxPcAmount) + (Le64(a.baseSide) + s3));
    ReadU64(a.maxPcAmount, Le64(a.baseSide) + s3);
    ReadU64(a.baseSide, s3);
    if a.otherAmountMin.Some? {
      ReadU64(a.otherAmountMin.value, t);
    }
  }

  lemma WithdrawRoundTrip(a: WithdrawArgs, t: seq<u8>)
    ensures UnpackWithdraw(PackBody(Withdraw(a)).value + t) == Ok(Withdraw(a))
            <==> (a.minCoinAmount.Some? <==> a.minPcAmount.Some?) && !ReadsOn(Withdraw(a), |t|)
  {
    if a.minCoinAmount.Some? && a.minPcAmount.Some? {
      var s2 := Le64(a.minPcAmount.value) + t;
      var s1 := Le64(a.minCoinAmount.value) + s2;
      assert PackBody(Withdraw(a)).value + t == Le64(a.amount) + s1;
      ReadU64(a.amount, s1);
      ReadU64(a.minCoinAmount.value, s2);
      ReadU64(a.minPcAmount.value, t);
    } else {
      assert PackBody(Withdraw(a)).value + t == Le64(a.amount) + t;
      ReadU64(a.amount, t);
    }
  }

  lemma SetParamsRoundTrip(p: SetParamsArgs, t: seq<u8>)
    requires PackSetParams(p).Ok?
    ensures UnpackSetParams(PackSetParams(p).value + t) == Ok(SetParams(p)) <==> CanonicalParams(p)
  {
    if p.param == 10 {
      var key := p.newPubkey.value;
      assert [p.param] + key + t == [p.param] + (key + t);
      ReadU8(p.param, key + t);
      ReadKey(key, t);
    } else if p.param == 9 {
      var f := p.fees.value;
      assert [p.param] + FeesBytes(f) + t == [p.param] + FeesNested(f, t);
      ReadU8(p.param, FeesNested(f, t));
      ReadFees(f, t);
    } else if p.param == 12 {
      var (a, b) := p.lastOrderDistance.value;
      assert [p.param] + Le64(a) + Le64(b) + t == [p.param] + (Le64(a) + Le64(b) + t);
      ReadU8(p.param, Le64(a) + Le64(b) + t);
      ReadPair(a, b, t);
    } else {
      var v := p.value.value;
      assert [p.param] + Le64(v) + t == [p.param] + (Le64(v) + t);
      ReadU8(p.param, Le64(v) + t);
      ReadU64(v, t);
    }
  }

  lemma SimulateRoundTrip(i: AmmInstruction, t: seq<u8>)
    requires i.SimulateInfo? && PackBody(i).Ok?
    ensures UnpackSimulate(PackBody(i).value + t) == Ok(i) <==>
            (i.param != 1 ==> i.baseInValue.None?) && (i.param != 2 ==> i.baseOutValue.None?)
  {
    if i.param == 1 || i.param == 2 {
      var (a, b) := if i.param == 1 then (i.baseInValue.value.amountIn, i.baseInValue.value.minimumAmountOut)
                    else (i.baseOutValue.value.maxAmountIn, i.baseOutValue.value.amountOut);
      assert [i.param] + Le64(a) + Le64(b) + t == [i.param] + (Le64(a) + Le64(b) + t);
      ReadU8(i.param, Le64(a) + Le64(b) + t);
      ReadPair(a, b, t);
    } else {
      ReadU8(i.param, t);
    }
  }

  lemma ConfigRoundTrip(i: AmmInstruction, t: seq<u8>)
    requires i.UpdateConfigAccount? && PackBody(i).Ok?
    ensures UnpackConfig(PackBody(i).value + t) == Ok(i) <==>
            if i.param == 2 then i.owner.None? else i.createPoolFee.None?
  {
    if i.param == 2 {
      var fee := i.createPoolFee.value;
      assert [i.param] + Le64(fee) + t == [i.param] + (Le64(fee) + t);
      ReadU8(i.param, Le64(fee) + t);
      ReadU64(fee, t);
    } else {
      var key := i.owner.value;
      assert [i.param] + key + t == [i.param] + (key + t);
      ReadU8(i.param, key + t);
      ReadKey(key, t);
    }
  }

  /** A text comes back exactly when it is one and its length fits the length byte. */
  lemma ReadText(lossy: seq<u8> -> seq<u8>, text: seq<u8>, rest: seq<u8>)
    requires IsDecoder(lossy)
    ensures UnpackText(lossy, Text(text) + rest).Ok?
    ensures var (read, left) := UnpackText(lossy, Text(text) + rest).value;
            && (read == text <==> IsText(lossy, text))
            && (|text| < 256 ==> left == rest)
  {
    var n := |text| % 256;
    assert Text(text) + rest == [n] + (text + rest);
    ReadU8(n, text + rest);
    assert (text + rest)[..n] == text[..n];
    if |text| < 256 {
      assert text[..n] == text && (text + rest)[n..] == rest;
    } else {
      assert lossy(text[..n]) == text ==> lossy(text) == text;
    }
  }

  lemma ReadTexts(lossy: seq<u8> -> seq<u8>, name: seq<u8>, symbol: seq<u8>, uri: seq<u8>, t: seq<u8>)
    requires IsDecoder(lossy)
    ensures UnpackTexts(lossy, Text(name) + (Text(symbol) + (Text(uri) + t))) == Ok((name, symbol, uri))
            <==> IsText(lossy, name) && IsText(lossy, symbol) && IsText(lossy, uri)
  {
    ReadText(lossy, name, Text(symbol) + (Text(uri) + t));
    ReadText(lossy, symbol, Text(uri) + t);
    ReadText(lossy, uri, t);
  }

  /** What the three texts come back as, and that this decides whether they come back unchanged. */
  predicate TextsReadBack(lossy: seq<u8> -> seq<u8>, i: AmmInstruction, t: seq<u8>)
    requires i.CreateToken2022Mint?
  {
    UnpackTexts(lossy, Text(i.name) + (Text(i.symbol) + (Text(i.uri) + t))) == Ok((i.name, i.symbol, i.uri))
    <==> IsText(lossy, i.name) && IsText(lossy, i.symbol) && IsText(lossy, i.uri)
  }

  lemma MintRoundTrip(lossy: seq<u8> -> seq<u8>, i: AmmInstruction, t: seq<u8>)
    requires i.CreateToken2022Mint? && TextsReadBack(lossy, i, t)
    ensures UnpackMint(lossy, PackMint(i.decimals, i.mintAuthority, KeyOrZeros(i.freezeAuthority),
                                       KeyOrZeros(i.transferHookProgramId), i.name, i.symbol, i.uri) + t) == Ok(i)
            <==> Canonical(lossy, i)
  {
    MintHeader(i.decimals, i.mintAuthority, KeyOrZeros(i.freezeAuthority), KeyOrZeros(i.transferHookProgramId),
               Text(i.name), Text(i.symbol), Text(i.uri), t);
  }

  /** Cutting the fixed fields off the front, one after the other. */
  lemma MintHeader(decimals: u8, mint: Pubkey, freeze: Pubkey, hook: Pubkey, a: seq<u8>, b: seq<u8>, c: seq<u8>,
                   t: seq<u8>)
    ensures var s3 := hook + (a + (b + (c + t)));
            var s2 := freeze + s3;
            var s1 := mint + s2;
            && UnpackU8([decimals] + mint + freeze + hook + a + b + c + t) == Ok((decimals, s1))
            && KeyOrPanic(s1) == Ok((mint, s2)) && KeyOrPanic(s2) == Ok((freeze, s3))
            && KeyOrPanic(s3) == Ok((hook, a + (b + (c + t))))
  {
    var s3 := hook + (a + (b + (c + t)));
    var s2 := freeze + s3;
    var s1 := mint + s2;
    assert [decimals] + mint + freeze + hook + a + b + c + t == [decimals] + s1;
    ReadU8(decimals, s1);
    ReadKey(mint, s2);
    ReadKey(freeze, s3);
    ReadKey(hook, a + (b + (c + t)));
  }

  lemma InitializeRoundTrip(nonce: u8, openTime: u64, t: seq<u8>)
    ensures UnpackInitialize([nonce] + Le64(openTime) + t) == Ok(Initialize(nonce, openTime))
  {
    assert [nonce] + Le64(openTime) + t == [nonce] + (Le64(openTime) + t);
    ReadU8(nonce, Le64(openTime) + t);
    ReadU64(openTime, t);
  }

  lemma Initialize2RoundTrip(nonce: u8, a: InitializeArgs, t: seq<u8>)
    ensures UnpackInitialize2(PackBody(Initialize2(nonce, a)).value + t) == Ok(Initialize2(nonce, a))
  {
    var s3 := Le64(a.initCoinAmount) + t;
    var s2 := Le64(a.initPcAmount) + s3;
    var s1 := Le64(a.openTime) + s2;
    assert PackBody(Initialize2(nonce, a)).value + t == [nonce] + s1;
    ReadU8(nonce, s1);
    ReadU64(a.openTime, s2);
    ReadU64(a.initPcAmount, s3);
    ReadU64(a.initCoinAmount, t);
  }

  lemma MonitorStepRoundTrip(a: u16, b: u16, c: u16, t: seq<u8>)
    ensures UnpackMonitorStep(Le16(a) + Le16(b) + Le16(c) + t) == Ok(MonitorStep(a, b, c))
  {
    assert Le16(a) + Le16(b) + Le16(c) + t == Le16(a) + (Le16(b) + (Le16(c) + t));
    ReadU16(a, Le16(b) + (Le16(c) + t));
    ReadU16(b, Le16(c) + t);
    ReadU16(c, t);
  }

  lemma UpdateHookWhitelistRoundTrip(hook: Pubkey, action: W.Action, t: seq<u8>)
    ensures UnpackUpdateHookWhitelist(PackBody(UpdateHookWhitelist(hook, action)).value + t)
            == Ok(UpdateHookWhitelist(hook, action))
  {
    var s1 := [if action == W.Add then 0 else 1] + t;
    assert PackBody(UpdateHookWhitelist(hook, action)).value + t == hook + s1;
    ReadKey(hook, s1);
  }

  lemma MetaListRoundTrip(t: seq<u8>)
    ensures UnpackMetaList(LittleEndian(0, 4) + t) == Ok(InitializeExtraAccountMetaList)
  {
    assert (LittleEndian(0, 4) + t)[..4] == LittleEndian(0, 4);
    assert 0 < Pow256(4);
    LittleEndianRoundTrip(0, 4);
  }

  predicate HasOptions(i: AmmInstruction) {
    i.SetParams? || i.SimulateInfo? || i.UpdateConfigAccount?
  }

  predicate HasMinima(i: AmmInstruction) {
    i.Deposit? || i.Withdraw?
  }

  lemma MinimaRoundTrip(lossy: seq<u8> -> seq<u8>, i: AmmInstruction, t: seq<u8>)
    requires HasMinima(i)
    ensures PackBody(i).Ok?
    ensures UnpackBody(lossy, Tag(i), PackBody(i).value + t) == Ok(i) <==> Canonical(lossy, i) && !ReadsOn(i, |t|)
  {
    match i
    case Deposit(a) => DepositRoundTrip(a, t);
    case Withdraw(a) => WithdrawRoundTrip(a, t);
  }

  lemma OptionsRoundTrip(lossy: seq<u8> -> seq<u8>, i: AmmInstruction, t: seq<u8>)
    requires PackBody(i).Ok? && HasOptions(i)
    ensures UnpackBody(lossy, Tag(i), PackBody(i).value + t) == Ok(i) <==> Canonical(lossy, i)
  {
    match i
    case SetParams(p) => SetParamsRoundTrip(p, t);
    case SimulateInfo(_, _, _) => SimulateRoundTrip(i, t);
    case UpdateConfigAccount(_, _, _) => ConfigRoundTrip(i, t);
  }

  predicate HasFields(i: AmmInstruction) {
    i.Initialize? || i.Initialize2? || i.MonitorStep? || i.SwapBaseIn? || i.SwapBaseOut? || i.UpdateHookWhitelist?
  }

  lemma FieldsRoundTrip(lossy: seq<u8> -> seq<u8>, i: AmmInstruction, t: seq<u8>)
    requires HasFields(i)
    ensures PackBody(i).Ok? && UnpackBody(lossy, Tag(i), PackBody(i).value + t) == Ok(i)
  {
    match i
    case Initialize(nonce, openTime) => InitializeRoundTrip(nonce, openTime, t);
    case Initialize2(nonce, a) => Initialize2RoundTrip(nonce, a, t);
    case MonitorStep(a, b, c) => MonitorStepRoundTrip(a, b, c, t);
    case SwapBaseIn(a) => ReadPair(a.amountIn, a.minimumAmountOut, t);
    case SwapBaseOut(a) => ReadPair(a.maxAmountIn, a.amountOut, t);
    case UpdateHookWhitelist(hook, action) => UpdateHookWhitelistRoundTrip(hook, action, t);
  }

  lemma ShortRoundTrip(lossy: seq<u8> -> seq<u8>, i: AmmInstruction, t: seq<u8>)
    requires !HasOptions(i) && !HasMinima(i) && !HasFields(i) && !i.CreateToken2022Mint?
    ensures PackBody(i).Ok? && UnpackBody(lossy, Tag(i), PackBody(i).value + t) == Ok(i)
  {
    match i
    case WithdrawSrm(amount) => ReadU64(amount, t);
    case PreInitialize(nonce) => ReadU8(nonce, t);
    case AdminCancelOrders(limit) => ReadU16(limit, t);
    case InitializeExtraAccountMetaList => MetaListRoundTrip(t);
    case InitializeHookWhitelist(authority) => ReadKey(authority, t);
    case UpdateWhitelistAuthority(authority) => ReadKey(authority, t);
    case _ =>
  }

  lemma MintBody(lossy: seq<u8> -> seq<u8>, i: AmmInstruction, s: seq<u8>)
    requires i.CreateToken2022Mint?
    ensures PackBody(i) == Ok(PackMint(i.decimals, i.mintAuthority, KeyOrZeros(i.freezeAuthority),
                                       KeyOrZeros(i.transferHookProgramId), i.name, i.symbol, i.uri))
    ensures UnpackBody(lossy, Tag(i), s) == UnpackMint(lossy, s)
  {
  }

  lemma MintBodyRoundTrip(lossy: seq<u8> -> seq<u8>, i: AmmInstruction, t: seq<u8>)
    requires i.CreateToken2022Mint? && TextsReadBack(lossy, i, t)
    ensures PackBody(i).Ok?
    ensures UnpackBody(lossy, Tag(i), PackBody(i).value + t) == Ok(i) <==> Canonical(lossy, i)
  {
    MintRoundTrip(lossy, i, t);
    MintBody(lossy, i, PackBody(i).value + t);
  }

  lemma UnpackTagged(lossy: seq<u8> -> seq<u8>, tag: u8, body: seq<u8>, t: seq<u8>)
    ensures Unpack(lossy, [tag] + body + t) == UnpackBody(lossy, tag, body + t)
  {
    assert [tag] + body + t == [tag] + (body + t);
    ReadU8(tag, body + t);
  }

  /** Whatever packs, with any bytes behind it, unpacks to itself exactly when it is canonical and not
      a short Deposit or Withdraw with enough trailing bytes to be read as its optional minima. */
  lemma UnpackPackIff(lossy: seq<u8> -> seq<u8>, i: AmmInstruction, t: seq<u8>)
    requires IsDecoder(lossy) && Pack(i).Ok?
    ensures Unpack(lossy, Pack(i).value + t) == Ok(i) <==> Canonical(lossy, i) && !ReadsOn(i, |t|)
  {
    UnpackTagged(lossy, Tag(i), PackBody(i).value, t);
    if HasMinima(i) {
      MinimaRoundTrip(lossy, i, t);
    } else if HasOptions(i) {
      OptionsRoundTrip(lossy, i, t);
    } else if HasFields(i) {
      FieldsRoundTrip(lossy, i, t);
    } else if i.CreateToken2022Mint? {
      ReadTexts(lossy, i.name, i.symbol, i.uri, t);
      MintBodyRoundTrip(lossy, i, t);
    } else {
      ShortRoundTrip(lossy, i, t);
    }
  }

  /** No two canonical instructions share their bytes. */
  lemma PackInjective(lossy: seq<u8> -> seq<u8>, i: AmmInstruction, j: AmmInstruction)
    requires IsDecoder(lossy) && Pack(i).Ok? && Pack(i) == Pack(j)
    requires Canonical(lossy, i) && Canonical(lossy, j)
    ensures i == j
  {
    UnpackPackIff(lossy, i, []);
    UnpackPackIff(lossy, j, []);
    assert Pack(i).value + [] == Pack(i).value;
  }
}
