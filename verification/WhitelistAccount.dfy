/** `HookWhitelist` of state.rs as the object it is, and the handlers of whitelist.rs that load it
    from the account, change it and write it back. */
module WhitelistAccount {
  import opened Machine
  import opened Bytes
  import opened Whitelist

  class HookWhitelist {
    var authority: Pubkey
    var hookCount: u32
    const hooks: array<Pubkey>

    ghost predicate Valid()
      reads this, hooks
    {
      hooks.Length == MAX_HOOKS && hookCount <= MAX_HOOKS
    }

    ghost function Value(): (w: Hooks)
      requires Valid()
      reads this, hooks
      ensures Sized(w)
    {
      Hooks(authority, hookCount, hooks[..])
    }

    constructor (authority: Pubkey)
      ensures Valid() && fresh(hooks) && Value() == NewHooks(authority)
    {
      this.authority := authority;
      hookCount := 0;
      hooks := new Pubkey[MAX_HOOKS](_ => DefaultKey());
    }

    method ContainsHook(hook: Pubkey) returns (found: bool)
      requires Valid()
      ensures found <==> hook in Active(Value())
    {
      for i := 0 to hookCount
        invariant hook !in hooks[..i]
      {
        if hooks[i] == hook {
          assert Active(Value())[i] == hook;
          return true;
        }
      }
      return false;
    }

    method AddHook(hook: Pubkey) returns (r: Result<()>)
      requires Valid()
      modifies this, hooks
      ensures Valid()
      ensures match Added(old(Value()), hook)
              case Ok(w) => r.Ok? && Value() == w
              case Err(e) => r == Err(e) && Value() == old(Value())
    {
      var present := ContainsHook(hook);
      if present {
        return Err(InvalidWhitelistAccount);
      }
      if hookCount >= MAX_HOOKS {
        return Err(WhitelistFull);
      }
      hooks[hookCount] := hook;
      hookCount := hookCount + 1;
      return Ok(());
    }

    method FindHook(hook: Pubkey) returns (index: nat)
      requires Valid()
      ensures if hook in Active(Value()) then index == IndexOf(Active(Value()), hook) else index == hookCount
    {
      index := 0;
      while index < hookCount && hooks[index] != hook
        invariant index <= hookCount && hook !in hooks[..index]
      {
        index := index + 1;
      }
      if index < hookCount {
        assert Active(Value())[..index] == hooks[..index];
        assert Active(Value())[index] == hook;
        FirstIndex(Active(Value()), hook, index);
      } else {
        assert Active(Value()) == hooks[..index];
      }
    }

    /** Moves every active slot after the index one to the left; the last one stays where it is too. */
    method ShiftLeft(index: nat)
      requires Valid() && index < hookCount
      modifies hooks
      ensures hooks[..] == old(hooks[..index] + hooks[index + 1..hookCount] + hooks[hookCount - 1..])
    {
      ghost var slots := hooks[..];
      for i := index to hookCount - 1
        invariant forall k | 0 <= k < MAX_HOOKS :: hooks[k] == slots[if index <= k < i then k + 1 else k]
      {
        hooks[i] := hooks[i + 1];
      }
    }

    method RemoveHook(hook: Pubkey) returns (r: Result<()>)
      requires Valid()
      modifies this, hooks
      ensures Valid()
      ensures match Removed(old(Value()), hook)
              case Ok(w) => r.Ok? && Value() == w
              case Err(e) => r == Err(e) && Value() == old(Value())
    {
      ghost var slots := hooks[..];
      var index := FindHook(hook);
      if index == hookCount {
        return Err(TransferHookNotWhitelisted);
      }
      ShiftLeft(index);
      hooks[hookCount - 1] := DefaultKey();
      assert hooks[..] == slots[..index] + slots[index + 1..hookCount] + [DefaultKey()] + slots[hookCount..];
      hookCount := hookCount - 1;
      return Ok(());
    }

    /** Writes authority, count and every slot at its offset. */
    method PackIntoSlice(dst: array<u8>)
      requires Valid() && dst.Length == HOOK_WHITELIST_LEN
      modifies dst
      ensures dst[..] == Packed(Value())
    {
      var count := LittleEndian(hookCount, 4);
      forall k | 0 <= k < 32 {
        dst[k] := authority[k];
      }
      forall k | 0 <= k < 4 {
        dst[32 + k] := count[k];
      }
      ghost var header, slots := authority + count, hooks[..];
      assert dst[..36] == header + Concat(slots[..0]);
      for i := 0 to MAX_HOOKS
        invariant hooks[..] == slots
        invariant dst[..36 + 32 * i] == header + Concat(slots[..i])
      {
        PackSlot(dst, i);
        ConcatSnoc(slots[..i], slots[i]);
        assert slots[..i + 1] == slots[..i] + [slots[i]];
        assert header + Concat(slots[..i]) + slots[i] == header + (Concat(slots[..i]) + slots[i]);
      }
      assert slots[..MAX_HOOKS] == slots && dst[..36 + 32 * MAX_HOOKS] == dst[..];
    }

    method PackSlot(dst: array<u8>, i: nat)
      requires Valid() && dst.Length == HOOK_WHITELIST_LEN && i < MAX_HOOKS
      modifies dst
      ensures dst[..36 + 32 * (i + 1)] == old(dst[..36 + 32 * i]) + hooks[i]
    {
      var hook := hooks[i];
      forall k | 0 <= k < 32 {
        dst[36 + 32 * i + k] := hook[k];
      }
    }
  }

  lemma FirstIndex(s: seq<Pubkey>, key: Pubkey, i: nat)
    requires i < |s| && s[i] == key && key !in s[..i]
    ensures IndexOf(s, key) == i
  {
    var j := IndexOf(s, key);
    assert forall k | 0 <= k < i :: s[k] in s[..i];
    assert forall k | 0 <= k < j :: s[k] in s[..j];
  }

  lemma {:induction false} ConcatSnoc(keys: seq<Pubkey>, key: Pubkey)
    ensures Concat(keys + [key]) == Concat(keys) + key
  {
    if keys == [] {
      assert [key][1..] == [];
    } else {
      ConcatSnoc(keys[1..], key);
      assert (keys + [key])[1..] == keys[1..] + [key];
    }
  }

  lemma {:induction false} SplitSnoc(s: seq<u8>, n: nat)
    requires |s| == 32 * n + 32
    ensures Split(s) == Split(s[..32 * n]) + [s[32 * n..]]
    decreases n
  {
    if n == 0 {
      assert s[..32] == s && s[32..] == [];
    } else {
      SplitSnoc(s[32..], n - 1);
      assert s[32..][..32 * (n - 1)] == s[..32 * n][32..];
      assert s[32..][32 * (n - 1)..] == s[32 * n..];
      assert s[..32 * n][..32] == s[..32];
    }
  }

  /** `Pack::unpack` into an object, slot by slot. */
  method Unpack(data: seq<u8>) returns (r: Result<HookWhitelist>)
    ensures match Unpacked(data)
            case Ok(w) => r.Ok? && r.value.Valid() && fresh(r.value) && fresh(r.value.hooks) && r.value.Value() == w
            case Err(e) => r == Err(e)
  {
    if |data| != HOOK_WHITELIST_LEN {
      return Err(InvalidAccountData);
    }
    var count := FromLittleEndian(data[32..36]);
    if count > MAX_HOOKS {
      return Err(InvalidAccountData);
    }
    var whitelist := new HookWhitelist(data[..32]);
    whitelist.hookCount := count;
    var hooksData := data[36..];
    assert hooksData[..0] == [] && whitelist.hooks[..0] == [];
    for i := 0 to MAX_HOOKS
      invariant whitelist.Valid() && whitelist.authority == data[..32] && whitelist.hookCount == count
      invariant whitelist.hooks[..i] == Split(hooksData[..32 * i])
    {
      var slot := hooksData[32 * i..32 * i + 32];
      SplitSnoc(hooksData[..32 * i + 32], i);
      assert hooksData[..32 * i + 32][..32 * i] == hooksData[..32 * i];
      whitelist.hooks[i] := slot;
    }
    assert whitelist.hooks[..MAX_HOOKS] == whitelist.hooks[..] && hooksData[..32 * MAX_HOOKS] == hooksData;
    if whitelist.authority == DefaultKey() {
      return Err(UninitializedAccount);
    }
    return Ok(whitelist);
  }

  /** The account that stores the whitelist; empty until it is created. */
  class Account {
    var data: seq<u8>

    constructor ()
      ensures data == []
    {
      data := [];
    }

    method Store(whitelist: HookWhitelist)
      requires whitelist.Valid()
      modifies this
      ensures data == Packed(whitelist.Value())
    {
      var updated := new u8[HOOK_WHITELIST_LEN](_ => 0);
      whitelist.PackIntoSlice(updated);
      data := updated[..];
    }

    method InitializeHookWhitelist(authority: Pubkey) returns (r: Result<()>)
      modifies this
      ensures r.Ok? <==> StepBytes(old(data), Initialize(authority)).Ok?
      ensures r.Err? ==> r.error == StepBytes(old(data), Initialize(authority)).error
      ensures data == ApplyBytes(old(data), Initialize(authority))
    {
      if data != [] {
        return Err(AccountAlreadyInitialized);
      }
      var whitelist := new HookWhitelist(authority);
      Store(whitelist);
      return Ok(());
    }

    method UpdateHookWhitelist(signer: Pubkey, action: Action, hook: Pubkey) returns (r: Result<()>)
      modifies this
      ensures r.Ok? <==> StepBytes(old(data), Update(signer, action, hook)).Ok?
      ensures r.Err? ==> r.error == StepBytes(old(data), Update(signer, action, hook)).error
      ensures data == ApplyBytes(old(data), Update(signer, action, hook))
    {
      if data == [] {
        return Err(UninitializedAccount);
      }
      var whitelist :- Unpack(data);
      if whitelist.authority != signer {
        return Err(InvalidAccountOwner);
      }
      match action {
        case Add => var _ :- whitelist.AddHook(hook);
        case Remove => var _ :- whitelist.RemoveHook(hook);
      }
      Store(whitelist);
      return Ok(());
    }

    method UpdateWhitelistAuthority(signer: Pubkey, newAuthority: Pubkey) returns (r: Result<()>)
      modifies this
      ensures r.Ok? <==> StepBytes(old(data), UpdateAuthority(signer, newAuthority)).Ok?
      ensures r.Err? ==> r.error == StepBytes(old(data), UpdateAuthority(signer, newAuthority)).error
      ensures data == ApplyBytes(old(data), UpdateAuthority(signer, newAuthority))
    {
      if data == [] {
        return Err(UninitializedAccount);
      }
      var whitelist :- Unpack(data);
      if whitelist.authority != signer {
        return Err(InvalidAccountOwner);
      }
      whitelist.authority := newAuthority;
      Store(whitelist);
      return Ok(());
    }

    method QueryHook(hook: Pubkey) returns (r: Result<bool>)
      ensures r == IsHookWhitelisted(data, hook)
    {
      if data == [] {
        return Ok(false);
      }
      var whitelist :- Unpack(data);
      var found := whitelist.ContainsHook(hook);
      return Ok(found);
    }
  }
}
