/** The instruction bytes by tag and offset: what `unpack` reads where, and how much `pack` writes. */
module Layout {
  import opened Machine
  import opened Bytes
  import opened PoolState
  import opened Steps
  import opened Instruction
  import W = Whitelist

  // ---------------------------------------------------------------- reading at an offset

  lemma Read8(s: seq<u8>, k: nat)
    requires k <= |s|
    ensures UnpackU8(s[k..]) == if k + 1 <= |s| then Ok((s[k], s[k + 1..])) else Err(InvalidInstructionData)
  {
    if k < |s| {
      assert s[k..][1..] == s[k + 1..];
    }
  }

  lemma Read16(s: seq<u8>, k: nat)
    requires k <= |s|
    ensures UnpackU16(s[k..]) == if k + 2 <= |s| then Ok((U16At(s, k), s[k + 2..])) else Err(InvalidInstructionData)
  {
    if k + 2 <= |s| {
      TwoBytes(s[k..][..2]);
      assert s[k..][2..] == s[k + 2..];
    }
  }

  lemma Read64(s: seq<u8>, k: nat)
    requires k <= |s|
    ensures UnpackU64(s[k..]) == if k + 8 <= |s| then Ok((U64At(s, k), s[k + 8..])) else Err(InvalidInstructionData)
  {
    if k + 8 <= |s| {
      EightBytes(s[k..][..8]);
      assert s[k..][8..] == s[k + 8..];
    }
  }

  lemma ReadKeyAt(s: seq<u8>, k: nat)
    requires k <= |s|
    ensures KeyOrPanic(s[k..]) == if k + 32 <= |s| then Ok((s[k..k + 32], s[k + 32..])) else Err(Panicked)
    ensures KeyOrError(s[k..]) == if k + 32 <= |s| then Ok((s[k..k + 32], s[k + 32..])) else Err(InvalidInstructionData)
  {
    if k + 32 <= |s| {
      assert s[k..][..32] == s[k..k + 32] && s[k..][32..] == s[k + 32..];
    }
  }

  lemma ReadTagged(lossy: seq<u8> -> seq<u8>, s: seq<u8>)
    requires s != []
    ensures Unpack(lossy, s) == UnpackBody(lossy, s[0], s[1..])
  {
  }

  // ---------------------------------------------------------------- the layout of each tag

  /** Bytes that are too short are refused with an error, not a panic. */
  function IfLong(s: seq<u8>, length: nat, i: AmmInstruction): Result<AmmInstruction> {
    if |s| >= length then Ok(i) else Err(InvalidInstructionData)
  }

  /** Tags whose fields stand one after the other. */
  lemma FieldsLayout(lossy: seq<u8> -> seq<u8>, s: seq<u8>)
    ensures s == [] ==> Unpack(lossy, s) == Err(InvalidInstructionData)
    ensures |s| >= 10 && s[0] == 0 ==> Unpack(lossy, s) == Ok(Initialize(s[1], U64At(s, 2)))
    ensures |s| >= 26 && s[0] == 1 ==>
              Unpack(lossy, s) == Ok(Initialize2(s[1], InitializeArgs(U64At(s, 2), U64At(s, 10), U64At(s, 18))))
    ensures |s| >= 7 && s[0] == 2 ==> Unpack(lossy, s) == Ok(MonitorStep(U16At(s, 1), U16At(s, 3), U16At(s, 5)))
    ensures |s| >= 1 && s[0] == 5 ==> Unpack(lossy, s) == Ok(MigrateToOpenBook)
    ensures |s| >= 1 && s[0] == 7 ==> Unpack(lossy, s) == Ok(WithdrawPnl)
    ensures |s| >= 9 && s[0] == 8 ==> Unpack(lossy, s) == Ok(WithdrawSrm(U64At(s, 1)))
    ensures |s| >= 17 && s[0] == 9 ==> Unpack(lossy, s) == Ok(SwapBaseIn(SwapBaseInArgs(U64At(s, 1), U64At(s, 9))))
    ensures |s| >= 2 && s[0] == 10 ==> Unpack(lossy, s) == Ok(PreInitialize(s[1]))
    ensures |s| >= 17 && s[0] == 11 ==> Unpack(lossy, s) == Ok(SwapBaseOut(SwapBaseOutArgs(U64At(s, 1), U64At(s, 9))))
    ensures |s| >= 3 && s[0] == 13 ==> Unpack(lossy, s) == Ok(AdminCancelOrders(U16At(s, 1)))
    ensures |s| >= 1 && s[0] == 14 ==> Unpack(lossy, s) == Ok(CreateConfigAccount)
    ensures |s| >= 33 && s[0] == 19 ==> Unpack(lossy, s) == Ok(InitializeHookWhitelist(s[1..33]))
    ensures |s| >= 33 && s[0] == 20 ==> Unpack(lossy, s) == Ok(UpdateWhitelistAuthority(s[1..33]))
    ensures |s| >= 1 && s[0] > 20 ==> Unpack(lossy, s) == Err(InvalidInstructionData)
  {
    if s != [] {
      ReadTagged(lossy, s);
      FieldsRead(s);
    }
  }

  /** The same tags on bytes that are too short. */
  lemma ShortFieldsRefused(lossy: seq<u8> -> seq<u8>, s: seq<u8>)
    requires s != []
    requires match s[0]
             case 0 => |s| < 10
             case 1 => |s| < 26
             case 2 => |s| < 7
             case 3 => |s| < 25
             case 4 => |s| < 9
             case 8 => |s| < 9
             case 9 => |s| < 17
             case 10 => |s| < 2
             case 11 => |s| < 17
             case 13 => |s| < 3
             case 19 => |s| < 33
             case 20 => |s| < 33
             case _ => false
    ensures Unpack(lossy, s) == Err(InvalidInstructionData)
  {
    ReadTagged(lossy, s);
    FieldsRead(s);
    MinimaRead(s);
  }

  lemma FieldsRead(s: seq<u8>)
    requires s != []
    ensures UnpackInitialize(s[1..])
            == if |s| >= 10 then Ok(Initialize(s[1], U64At(s, 2))) else Err(InvalidInstructionData)
    ensures UnpackInitialize2(s[1..])
            == if |s| >= 26 then Ok(Initialize2(s[1], InitializeArgs(U64At(s, 2), U64At(s, 10), U64At(s, 18))))
               else Err(InvalidInstructionData)
    ensures UnpackMonitorStep(s[1..])
            == if |s| >= 7 then Ok(MonitorStep(U16At(s, 1), U16At(s, 3), U16At(s, 5))) else Err(InvalidInstructionData)
    ensures UnpackPair(s[1..]) == if |s| >= 17 then Ok((U64At(s, 1), U64At(s, 9))) else Err(InvalidInstructionData)
    ensures UnpackU8(s[1..]) == if |s| >= 2 then Ok((s[1], s[2..])) else Err(InvalidInstructionData)
    ensures UnpackU16(s[1..]) == if |s| >= 3 then Ok((U16At(s, 1), s[3..])) else Err(InvalidInstructionData)
    ensures UnpackU64(s[1..]) == if |s| >= 9 then Ok((U64At(s, 1), s[9..])) else Err(InvalidInstructionData)
    ensures KeyOrError(s[1..]) == if |s| >= 33 then Ok((s[1..33], s[33..])) else Err(InvalidInstructionData)
  {
    Read8(s, 1);
    Read16(s, 1);
    Read64(s, 1);
    ReadKeyAt(s, 1);
    PairRead(s, 1);
    if |s| >= 2 {
      Read64(s, 2);
      Initialize2Read(s);
    }
    if |s| >= 3 {
      Read16(s, 3);
      if |s| >= 5 {
        Read16(s, 5);
      }
    }
  }

  lemma Initialize2Read(s: seq<u8>)
    requires |s| >= 2
    ensures UnpackInitialize2(s[1..])
            == if |s| >= 26 then Ok(Initialize2(s[1], InitializeArgs(U64At(s, 2), U64At(s, 10), U64At(s, 18))))
               else Err(InvalidInstructionData)
  {
    Read8(s, 1);
    Read64(s, 2);
    if |s| >= 10 {
      Read64(s, 10);
      if |s| >= 18 {
        Read64(s, 18);
      }
    }
  }

  lemma PairRead(s: seq<u8>, k: nat)
    requires k <= |s|
    ensures UnpackPair(s[k..])
            == if |s| >= k + 16 then Ok((U64At(s, k), U64At(s, k + 8))) else Err(InvalidInstructionData)
  {
    Read64(s, k);
    if |s| >= k + 8 {
      Read64(s, k + 8);
    }
  }

  /** Deposit and Withdraw read their minima when there are enough bytes left, and do without otherwise. */
  lemma MinimaLayout(lossy: seq<u8> -> seq<u8>, s: seq<u8>)
    requires s != []
    ensures |s| >= 25 && s[0] == 3 ==>
              Unpack(lossy, s) == Ok(Deposit(DepositArgs(U64At(s, 1), U64At(s, 9), U64At(s, 17),
                                                         if |s| >= 33 then Some(U64At(s, 25)) else None)))
    ensures |s| >= 25 && s[0] == 4 ==>
              Unpack(lossy, s) == Ok(Withdraw(WithdrawArgs(U64At(s, 1), Some(U64At(s, 9)), Some(U64At(s, 17)))))
    ensures 9 <= |s| < 25 && s[0] == 4 ==> Unpack(lossy, s) == Ok(Withdraw(WithdrawArgs(U64At(s, 1), None, None)))
  {
    ReadTagged(lossy, s);
    MinimaRead(s);
  }

  lemma MinimaRead(s: seq<u8>)
    requires s != []
    ensures UnpackDeposit(s[1..])
            == if |s| < 25 then Err(InvalidInstructionData)
               else Ok(Deposit(DepositArgs(U64At(s, 1), U64At(s, 9), U64At(s, 17),
                                           if |s| >= 33 then Some(U64At(s, 25)) else None)))
    ensures UnpackWithdraw(s[1..])
            == if |s| < 9 then Err(InvalidInstructionData)
               else if |s| < 25 then Ok(Withdraw(WithdrawArgs(U64At(s, 1), None, None)))
               else Ok(Withdraw(WithdrawArgs(U64At(s, 1), Some(U64At(s, 9)), Some(U64At(s, 17)))))
  {
    Read64(s, 1);
    if |s| >= 9 {
      Read64(s, 9);
    }
    if |s| >= 17 {
      Read64(s, 17);
    }
    if |s| >= 25 {
      Read64(s, 25);
    }
  }

  /** SetParams: the second byte says which of the four options the rest is. */
  lemma SetParamsLayout(lossy: seq<u8> -> seq<u8>, s: seq<u8>)
    requires s != [] && s[0] == 6
    ensures |s| == 1 ==> Unpack(lossy, s) == Err(InvalidInstructionData)
    ensures |s| >= 2 && s[1] > 17 ==> Unpack(lossy, s) == Err(Panicked)
    ensures |s| >= 2 && s[1] == 9 ==>
              Unpack(lossy, s)
              == IfLong(s, 66, SetParams(SetParamsArgs(9, None, None,
                                                       if |s| >= 66 then Some(FeesAt(s, 2)) else None, None)))
    ensures |s| >= 2 && s[1] == 10 ==>
              Unpack(lossy, s)
              == IfLong(s, 34, SetParams(SetParamsArgs(10, None,
                                                       if |s| >= 34 then Some(s[2..34]) else None, None, None)))
    ensures |s| >= 2 && s[1] == 12 ==>
              Unpack(lossy, s)
              == IfLong(s, 18, SetParams(SetParamsArgs(12, None, None, None,
                                                       if |s| >= 18 then Some((U64At(s, 2), U64At(s, 10))) else None)))
    ensures |s| >= 2 && s[1] <= 17 && s[1] !in {9, 10, 12} ==>
              Unpack(lossy, s)
              == IfLong(s, 10, SetParams(SetParamsArgs(s[1], if |s| >= 10 then Some(U64At(s, 2)) else None,
                                                       None, None, None)))
  {
    ReadTagged(lossy, s);
    Read8(s, 1);
    if |s| >= 2 {
      ReadKeyAt(s, 2);
      FeesRead(s, 2);
      PairRead(s, 2);
      Read64(s, 2);
    }
  }

  /** The eight fee numbers in the order of the fields. */
  function FeesAt(s: seq<u8>, k: nat): Fees
    requires k + 64 <= |s|
  {
    Fees(U64At(s, k), U64At(s, k + 8), U64At(s, k + 16), U64At(s, k + 24),
         U64At(s, k + 32), U64At(s, k + 40), U64At(s, k + 48), U64At(s, k + 56))
  }

  lemma FeesRead(s: seq<u8>, k: nat)
    requires k <= |s|
    ensures UnpackFees(s[k..]) == if |s| >= k + 64 then Ok(FeesAt(s, k)) else Err(InvalidInstructionData)
  {
    Read64(s, k);
    if |s| >= k + 8 { Read64(s, k + 8); }
    if |s| >= k + 16 { Read64(s, k + 16); }
    if |s| >= k + 24 { Read64(s, k + 24); }
    if |s| >= k + 32 { Read64(s, k + 32); }
    if |s| >= k + 40 { Read64(s, k + 40); }
    if |s| >= k + 48 { Read64(s, k + 48); }
    if |s| >= k + 56 { Read64(s, k + 56); }
  }

  /** SimulateInfo and UpdateConfigAccount, by their second byte. */
  lemma OptionsLayout(lossy: seq<u8> -> seq<u8>, s: seq<u8>)
    requires s != []
    ensures s[0] == 12 || s[0] == 15 ==> |s| == 1 ==> Unpack(lossy, s) == Err(InvalidInstructionData)
    ensures |s| >= 2 && s[0] == 12 && (s[1] == 0 || s[1] == 3) ==>
              Unpack(lossy, s) == Ok(SimulateInfo(s[1], None, None))
    ensures |s| >= 18 && s[0] == 12 && s[1] == 1 ==>
              Unpack(lossy, s) == Ok(SimulateInfo(1, Some(SwapBaseInArgs(U64At(s, 2), U64At(s, 10))), None))
    ensures |s| >= 18 && s[0] == 12 && s[1] == 2 ==>
              Unpack(lossy, s) == Ok(SimulateInfo(2, None, Some(SwapBaseOutArgs(U64At(s, 2), U64At(s, 10)))))
    ensures 2 <= |s| < 18 && s[0] == 12 && (s[1] == 1 || s[1] == 2) ==> Unpack(lossy, s) == Err(InvalidInstructionData)
    ensures |s| >= 2 && s[0] == 12 && s[1] > 3 ==> Unpack(lossy, s) == Err(Panicked)
    ensures |s| >= 34 && s[0] == 15 && s[1] <= 1 ==>
              Unpack(lossy, s) == Ok(UpdateConfigAccount(s[1], Some(s[2..34]), None))
    ensures 2 <= |s| < 34 && s[0] == 15 && s[1] <= 1 ==> Unpack(lossy, s) == Err(Panicked)
    ensures |s| >= 10 && s[0] == 15 && s[1] == 2 ==>
              Unpack(lossy, s) == Ok(UpdateConfigAccount(2, None, Some(U64At(s, 2))))
    ensures 2 <= |s| < 10 && s[0] == 15 && s[1] == 2 ==> Unpack(lossy, s) == Err(InvalidInstructionData)
    ensures |s| >= 2 && s[0] == 15 && s[1] > 2 ==> Unpack(lossy, s) == Err(InvalidInstructionData)
  {
    ReadTagged(lossy, s);
    Read8(s, 1);
    if |s| >= 2 {
      PairRead(s, 2);
      ReadKeyAt(s, 2);
      Read64(s, 2);
    }
  }

  /** UpdateHookWhitelist: the key, then 0 for Add and 1 for Remove; and the empty list of tag 18. */
  lemma WhitelistLayout(lossy: seq<u8> -> seq<u8>, s: seq<u8>)
    requires s != []
    ensures |s| < 33 && s[0] == 17 ==> Unpack(lossy, s) == Err(Panicked)
    ensures |s| == 33 && s[0] == 17 ==> Unpack(lossy, s) == Err(InvalidInstructionData)
    ensures |s| >= 34 && s[0] == 17 && s[33] == 0 ==> Unpack(lossy, s) == Ok(UpdateHookWhitelist(s[1..33], W.Add))
    ensures |s| >= 34 && s[0] == 17 && s[33] == 1 ==> Unpack(lossy, s) == Ok(UpdateHookWhitelist(s[1..33], W.Remove))
    ensures |s| >= 34 && s[0] == 17 && s[33] > 1 ==> Unpack(lossy, s) == Err(InvalidInstructionData)
    ensures |s| < 5 && s[0] == 18 ==> Unpack(lossy, s) == Err(InvalidInstructionData)
    ensures |s| >= 5 && s[0] == 18 ==>
              (Unpack(lossy, s) == Ok(InitializeExtraAccountMetaList) <==> s[1] == s[2] == s[3] == s[4] == 0)
  {
    ReadTagged(lossy, s);
    ReadKeyAt(s, 1);
    if |s| >= 5 {
      FourBytes(s[1..][..4]);
      assert s[1..][..4][4..] == [];
    }
  }

  /** The offset behind a text that starts with its length byte at k. */
  function AfterText(s: seq<u8>, k: nat): nat
    requires k < |s|
  {
    k + 1 + ByteAt(s, k)
  }

  predicate TextAt(s: seq<u8>, k: nat) {
    k < |s| && AfterText(s, k) <= |s|
  }

  /** CreateToken2022Mint: three keys from offset 2, where zeros mean none for the last two, and three
      texts, each after its length byte. */
  lemma MintLayout(lossy: seq<u8> -> seq<u8>, s: seq<u8>, symbolAt: nat, uriAt: nat)
    requires |s| >= 99 && s[0] == 16
    requires TextAt(s, 98) && AfterText(s, 98) == symbolAt
    requires TextAt(s, symbolAt) && AfterText(s, symbolAt) == uriAt && TextAt(s, uriAt)
    ensures Unpack(lossy, s)
            == Ok(CreateToken2022Mint(
                    s[1], s[2..34],
                    if s[34..66] == DefaultKey() then None else Some(s[34..66]),
                    if s[66..98] == DefaultKey() then None else Some(s[66..98]),
                    lossy(s[99..symbolAt]), lossy(s[symbolAt + 1..uriAt]), lossy(s[uriAt + 1..AfterText(s, uriAt)])))
  {
    ReadTagged(lossy, s);
    MintKeysRead(lossy, s);
    ReadTextAt(lossy, s, 98);
    ReadTextAt(lossy, s, symbolAt);
    ReadTextAt(lossy, s, uriAt);
  }

  /** It needs its fixed fields, or panics, and all of its texts, or is refused. */
  lemma ShortMintRefused(lossy: seq<u8> -> seq<u8>, s: seq<u8>)
    requires s != [] && s[0] == 16
    ensures |s| == 1 ==> Unpack(lossy, s) == Err(InvalidInstructionData)
    ensures 2 <= |s| < 98 ==> Unpack(lossy, s) == Err(Panicked)
    ensures |s| >= 98 && !ThreeTexts(s) ==> Unpack(lossy, s) == Err(InvalidInstructionData)
  {
    ReadTagged(lossy, s);
    if |s| < 98 {
      MintKeysShort(lossy, s);
    } else if !ThreeTexts(s) {
      MintKeysRead(lossy, s);
      TextsShort(lossy, s);
    }
  }

  predicate ThreeTexts(s: seq<u8>) {
    TextAt(s, 98) && TextAt(s, AfterText(s, 98)) && TextAt(s, AfterText(s, AfterText(s, 98)))
  }

  lemma MintKeysRead(lossy: seq<u8> -> seq<u8>, s: seq<u8>)
    requires |s| >= 98
    ensures UnpackMint(lossy, s[1..])
            == MintOf(s[1], s[2..34], s[34..66], s[66..98], UnpackTexts(lossy, s[98..]))
  {
    Read8(s, 1);
    ReadKeyAt(s, 2);
    ReadKeyAt(s, 34);
    ReadKeyAt(s, 66);
    MintChain(lossy, s[1..], s[2..], s[34..], s[66..], s[98..], s[1], s[2..34], s[34..66], s[66..98]);
  }

  lemma MintChain(lossy: seq<u8> -> seq<u8>, s: seq<u8>, s1: seq<u8>, s2: seq<u8>, s3: seq<u8>, s4: seq<u8>,
                  decimals: u8, mint: Pubkey, freeze: Pubkey, hook: Pubkey)
    requires UnpackU8(s) == Ok((decimals, s1)) && KeyOrPanic(s1) == Ok((mint, s2))
    requires KeyOrPanic(s2) == Ok((freeze, s3)) && KeyOrPanic(s3) == Ok((hook, s4))
    ensures UnpackMint(lossy, s) == MintOf(decimals, mint, freeze, hook, UnpackTexts(lossy, s4))
  {
  }

  /** Zeros stand for an absent authority or hook program. */
  function MintOf(decimals: u8, mint: Pubkey, freeze: Pubkey, hook: Pubkey,
                  texts: Result<(seq<u8>, seq<u8>, seq<u8>)>): Result<AmmInstruction> {
    var (name, symbol, uri) :- texts;
    Ok(CreateToken2022Mint(decimals, mint, if freeze == DefaultKey() then None else Some(freeze),
                           if hook == DefaultKey() then None else Some(hook), name, symbol, uri))
  }

  lemma MintKeysShort(lossy: seq<u8> -> seq<u8>, s: seq<u8>)
    requires 1 <= |s| < 98
    ensures UnpackMint(lossy, s[1..]) == if |s| == 1 then Err(InvalidInstructionData) else Err(Panicked)
  {
    Read8(s, 1);
    if |s| >= 2 {
      ReadKeyAt(s, 2);
    }
    if |s| >= 34 {
      ReadKeyAt(s, 34);
    }
    if |s| >= 66 {
      ReadKeyAt(s, 66);
    }
  }

  lemma TextsShort(lossy: seq<u8> -> seq<u8>, s: seq<u8>)
    requires |s| >= 98 && !ThreeTexts(s)
    ensures UnpackTexts(lossy, s[98..]) == Err(InvalidInstructionData)
  {
    TextFits(lossy, s, 98);
    if TextAt(s, 98) {
      TextFits(lossy, s, AfterText(s, 98));
      if TextAt(s, AfterText(s, 98)) {
        TextFits(lossy, s, AfterText(s, AfterText(s, 98)));
      }
    }
  }

  lemma TextFits(lossy: seq<u8> -> seq<u8>, s: seq<u8>, k: nat)
    requires k <= |s|
    ensures !TextAt(s, k) ==> UnpackText(lossy, s[k..]) == Err(InvalidInstructionData)
    ensures TextAt(s, k) ==>
              UnpackText(lossy, s[k..]) == Ok((lossy(s[k + 1..AfterText(s, k)]), s[AfterText(s, k)..]))
  {
    Read8(s, k);
    if TextAt(s, k) {
      ReadTextAt(lossy, s, k);
    }
  }

  lemma ReadTextAt(lossy: seq<u8> -> seq<u8>, s: seq<u8>, k: nat)
    requires TextAt(s, k)
    ensures UnpackText(lossy, s[k..]) == Ok((lossy(s[k + 1..AfterText(s, k)]), s[AfterText(s, k)..]))
  {
    Read8(s, k);
    assert s[k + 1..][..s[k]] == s[k + 1..AfterText(s, k)] && s[k + 1..][s[k]..] == s[AfterText(s, k)..];
  }

  // ---------------------------------------------------------------- what pack writes

  /** Which instructions pack: those that carry what their option byte calls for; and the error of the
      others. */
  lemma PacksIff(i: AmmInstruction)
    ensures Pack(i).Ok? <==>
            match i
            case SetParams(p) =>
              && p.param <= 17
              && (if p.param == 9 then p.fees.Some? else if p.param == 10 then p.newPubkey.Some?
                  else if p.param == 12 then p.lastOrderDistance.Some? else p.value.Some?)
            case SimulateInfo(param, baseIn, baseOut) =>
              param == 0 || param == 3 || (param == 1 && baseIn.Some?) || (param == 2 && baseOut.Some?)
            case UpdateConfigAccount(param, owner, fee) =>
              (param <= 1 && owner.Some? && owner.value != DefaultKey()) || (param == 2 && fee.Some?)
            case _ => true
    ensures Pack(i).Err? ==>
              Pack(i) == Err(if (i.SetParams? && i.params.param > 17) || (i.SimulateInfo? && i.param > 3) then Panicked
                             else InvalidInstructionData)
  {
  }

  /** The number of bytes of each instruction; with the layouts above and the round trip this leaves
      pack no choice. */
  lemma PackLength(i: AmmInstruction)
    requires Pack(i).Ok?
    ensures |Pack(i).value| ==
            match i
            case Initialize(_, _) => 10
            case Initialize2(_, _) => 26
            case MonitorStep(_, _, _) => 7
            case Deposit(a) => if a.otherAmountMin.Some? then 33 else 25
            case Withdraw(a) => if a.minCoinAmount.Some? && a.minPcAmount.Some? then 25 else 9
            case SetParams(p) =>
              if p.param == 10 then 34 else if p.param == 9 then 66 else if p.param == 12 then 18 else 10
            case WithdrawSrm(_) => 9
            case SwapBaseIn(_) => 17
            case PreInitialize(_) => 2
            case SwapBaseOut(_) => 17
            case SimulateInfo(param, _, _) => if param == 1 || param == 2 then 18 else 2
            case AdminCancelOrders(_) => 3
            case UpdateConfigAccount(param, _, _) => if param == 2 then 10 else 34
            case CreateToken2022Mint(_, _, _, _, name, symbol, uri) => 101 + |name| + |symbol| + |uri|
            case UpdateHookWhitelist(_, _) => 34
            case InitializeExtraAccountMetaList => 5
            case InitializeHookWhitelist(_) => 33
            case UpdateWhitelistAuthority(_) => 33
            case _ => 1
  {
  }
}
