/** The hook whitelist as a value, its byte layout, and its instructions over the stored bytes. */
module Whitelist {
  import opened Machine
  import opened Bytes

  const MAX_HOOKS: nat := 32
  const HOOK_WHITELIST_LEN: nat := 32 + 4 + 32 * MAX_HOOKS

  datatype Action = Add | Remove

  datatype Hooks = Hooks(authority: Pubkey, count: u32, slots: seq<Pubkey>)

  /** What the types and the length check of unpacking guarantee. */
  predicate Sized(w: Hooks) {
    |w.slots| == MAX_HOOKS && w.count <= MAX_HOOKS
  }

  function Active(w: Hooks): seq<Pubkey>
    requires Sized(w)
  {
    w.slots[..w.count]
  }

  predicate NoDuplicates(s: seq<Pubkey>) {
    forall i, j | 0 <= i < j < |s| :: s[i] != s[j]
  }

  /** The shape every whitelist keeps: distinct active hooks, then default slots. */
  predicate WellFormed(w: Hooks) {
    && Sized(w)
    && NoDuplicates(Active(w))
    && forall i | w.count <= i < MAX_HOOKS :: w.slots[i] == DefaultKey()
  }

  function NewHooks(authority: Pubkey): Hooks {
    Hooks(authority, 0, seq(MAX_HOOKS, _ => DefaultKey()))
  }

  // ---------------------------------------------------------------- the array as a set

  /** The first position of a key. */
  function IndexOf(s: seq<Pubkey>, key: Pubkey): (i: nat)
    requires key in s
    ensures i < |s| && s[i] == key && key !in s[..i]
  {
    if s[0] == key then 0 else 1 + IndexOf(s[1..], key)
  }

  function Added(w: Hooks, hook: Pubkey): Result<Hooks>
    requires Sized(w)
  {
    if hook in Active(w) then Err(InvalidWhitelistAccount)
    else if w.count >= MAX_HOOKS then Err(WhitelistFull)
    else Ok(w.(slots := w.slots[w.count := hook], count := w.count + 1))
  }

  /** Everything after the removed slot moves one to the left, and the last active slot is cleared. */
  function Removed(w: Hooks, hook: Pubkey): Result<Hooks>
    requires Sized(w)
  {
    if hook !in Active(w) then Err(TransferHookNotWhitelisted)
    else
      var i := IndexOf(Active(w), hook);
      Ok(w.(slots := w.slots[..i] + w.slots[i + 1..w.count] + [DefaultKey()] + w.slots[w.count..],
            count := w.count - 1))
  }

  function Updated(w: Hooks, action: Action, hook: Pubkey): Result<Hooks>
    requires Sized(w)
  {
    match action
    case Add => Added(w, hook)
    case Remove => Removed(w, hook)
  }

  /** Adding appends to the active hooks and keeps the shape. */
  lemma AddedShape(w: Hooks, hook: Pubkey)
    requires WellFormed(w) && Added(w, hook).Ok?
    ensures WellFormed(Added(w, hook).value)
    ensures Active(Added(w, hook).value) == Active(w) + [hook]
  {
  }

  /** Removing takes one occurrence out, keeps the order of the rest, and keeps the shape. */
  lemma RemovedShape(w: Hooks, hook: Pubkey)
    requires WellFormed(w) && Removed(w, hook).Ok?
    ensures WellFormed(Removed(w, hook).value)
    ensures var (a, b) := (Active(w), Active(Removed(w, hook).value));
            && |b| == |a| - 1 && hook !in b
            && exists i | 0 <= i < |a| :: a[i] == hook && b == a[..i] + a[i + 1..]
  {
    var a := Active(w);
    var i := IndexOf(a, hook);
    var r := Removed(w, hook).value;
    assert r.slots[..r.count] == a[..i] + a[i + 1..];
    forall k | 0 <= k < |a| && k != i
      ensures a[k] != hook
    {
      assert a[i] == hook;
    }
  }

  /** An update succeeds exactly when it changes something that there is room for; it then makes its
      hook present or absent and leaves every other hook as it was. */
  lemma UpdateIsSetUpdate(w: Hooks, action: Action, hook: Pubkey)
    requires WellFormed(w)
    ensures Updated(w, action, hook).Ok? <==>
            (if action == Add then hook !in Active(w) && |Active(w)| < MAX_HOOKS else hook in Active(w))
    ensures Updated(w, action, hook).Ok? ==>
              var v := Updated(w, action, hook).value;
              && WellFormed(v) && v.authority == w.authority
              && forall h :: h in Active(v) <==> (if h == hook then action == Add else h in Active(w))
  {
    if Updated(w, action, hook).Ok? {
      match action
      case Add => AddedShape(w, hook);
      case Remove =>
        RemovedShape(w, hook);
        var a, b := Active(w), Active(Removed(w, hook).value);
        var i :| 0 <= i < |a| && a[i] == hook && b == a[..i] + a[i + 1..];
        TakenOut(a, i);
    }
  }

  lemma TakenOut(a: seq<Pubkey>, i: nat)
    requires i < |a|
    ensures forall h | h != a[i] :: h in a[..i] + a[i + 1..] <==> h in a
  {
    var b := a[..i] + a[i + 1..];
    assert forall k | 0 <= k < |a| && k != i :: a[k] == if k < i then b[k] else b[k - 1];
  }

  /** Removing what was just added restores the exact array. */
  lemma RemoveUndoesAdd(w: Hooks, hook: Pubkey)
    requires WellFormed(w) && Added(w, hook).Ok?
    ensures Removed(Added(w, hook).value, hook) == Ok(w)
  {
    var v, c := Added(w, hook).value, w.count;
    AddedShape(w, hook);
    IndexOfAppended(Active(w), hook);
    ClearAgain(w.slots, c, hook, DefaultKey());
    assert v.slots[c + 1..v.count] == [];
    assert v.slots[..c] + [] == v.slots[..c];
  }

  lemma IndexOfAppended(a: seq<Pubkey>, key: Pubkey)
    requires key !in a
    ensures IndexOf(a + [key], key) == |a|
  {
    var s := a + [key];
    assert s[|a|] == key;
    assert forall k | 0 <= k < |a| :: s[k] in a;
  }

  lemma ClearAgain(slots: seq<Pubkey>, c: nat, key: Pubkey, cleared: Pubkey)
    requires c < |slots| && slots[c] == cleared
    ensures var s := slots[c := key]; s[..c] + [cleared] + s[c + 1..] == slots
  {
  }

  // ---------------------------------------------------------------- bytes

  function Concat(keys: seq<Pubkey>): (s: seq<u8>)
    ensures |s| == 32 * |keys|
  {
    if keys == [] then [] else keys[0] + Concat(keys[1..])
  }

  function Packed(w: Hooks): (s: seq<u8>)
    requires Sized(w)
    ensures |s| == HOOK_WHITELIST_LEN
  {
    w.authority + LittleEndian(w.count, 4) + Concat(w.slots)
  }

  function Split(s: seq<u8>): (keys: seq<Pubkey>)
    requires |s| % 32 == 0
    ensures 32 * |keys| == |s|
  {
    if s == [] then [] else [s[..32]] + Split(s[32..])
  }

  /** `Pack::unpack`: length, then contents, then `is_initialized`. */
  function Unpacked(data: seq<u8>): (r: Result<Hooks>)
    ensures r.Ok? ==> Sized(r.value)
  {
    if |data| != HOOK_WHITELIST_LEN then Err(InvalidAccountData)
    else
      assert |data[32..36]| == 4;
      var count := FromLittleEndian(data[32..36]);
      if count > MAX_HOOKS then Err(InvalidAccountData)
      else if data[..32] == DefaultKey() then Err(UninitializedAccount)
      else Ok(Hooks(data[..32], count, Split(data[36..])))
  }

  lemma {:induction false} SplitConcat(keys: seq<Pubkey>)
    ensures Split(Concat(keys)) == keys
  {
    if keys != [] {
      var s := Concat(keys);
      assert s[..32] == keys[0] && s[32..] == Concat(keys[1..]);
      SplitConcat(keys[1..]);
    }
  }

  /** Packing and unpacking returns the whitelist exactly when it has an authority; without one the
      stored account counts as uninitialized. */
  lemma UnpackPacked(w: Hooks)
    requires Sized(w)
    ensures Unpacked(Packed(w)) == if w.authority == DefaultKey() then Err(UninitializedAccount) else Ok(w)
  {
    var s := Packed(w);
    assert s[..32] == w.authority;
    assert s[32..36] == LittleEndian(w.count, 4);
    assert s[36..] == Concat(w.slots);
    assert Pow256(4) == 256 * 256 * 256 * 256 by {
      assert Pow256(3) == 256 * Pow256(2) && Pow256(2) == 256 * Pow256(1) && Pow256(1) == 256 * Pow256(0);
    }
    LittleEndianRoundTrip(w.count, 4);
    SplitConcat(w.slots);
  }

  // ---------------------------------------------------------------- instructions over the bytes

  datatype Step =
    | Initialize(authority: Pubkey)
    | Update(signer: Pubkey, action: Action, hook: Pubkey)
    | UpdateAuthority(signer: Pubkey, newAuthority: Pubkey)

  /** One instruction on the account data; an account without data has not been created. */
  function StepBytes(data: seq<u8>, step: Step): Result<seq<u8>> {
    match step
    case Initialize(authority) =>
      if data != [] then Err(AccountAlreadyInitialized) else Ok(Packed(NewHooks(authority)))
    case Update(signer, action, hook) =>
      if data == [] then Err(UninitializedAccount)
      else
        var w :- Unpacked(data);
        if w.authority != signer then Err(InvalidAccountOwner)
        else
          var v :- Updated(w, action, hook);
          Ok(Packed(v))
    case UpdateAuthority(signer, newAuthority) =>
      if data == [] then Err(UninitializedAccount)
      else
        var w :- Unpacked(data);
        if w.authority != signer then Err(InvalidAccountOwner)
        else Ok(Packed(w.(authority := newAuthority)))
  }

  function ApplyBytes(data: seq<u8>, step: Step): seq<u8> {
    match StepBytes(data, step)
    case Ok(next) => next
    case Err(_) => data
  }

  function RunBytes(data: seq<u8>, steps: seq<Step>): seq<u8>
    decreases |steps|
  {
    if steps == [] then data else RunBytes(ApplyBytes(data, steps[0]), steps[1..])
  }

  /** `is_hook_whitelisted`. */
  function IsHookWhitelisted(data: seq<u8>, hook: Pubkey): Result<bool> {
    if data == [] then Ok(false)
    else
      var w :- Unpacked(data);
      Ok(hook in Active(w))
  }

  /** What the last successful update naming the hook did: true for Add, and `was` if there is none. */
  function LastUpdateAdds(data: seq<u8>, steps: seq<Step>, hook: Pubkey, was: bool): bool
    decreases |steps|
  {
    if steps == [] then was
    else
      var now := if steps[0].Update? && steps[0].hook == hook && StepBytes(data, steps[0]).Ok?
                 then steps[0].action == Add else was;
      LastUpdateAdds(ApplyBytes(data, steps[0]), steps[1..], hook, now)
  }

  /** The account data of a created whitelist. */
  predicate Stores(data: seq<u8>, w: Hooks) {
    WellFormed(w) && data == Packed(w)
  }

  lemma StepStores(data: seq<u8>, w: Hooks, step: Step) returns (v: Hooks)
    requires Stores(data, w)
    ensures Stores(ApplyBytes(data, step), v)
    ensures forall h :: h in Active(v) <==>
              (if step.Update? && step.hook == h && StepBytes(data, step).Ok? then step.action == Add
               else h in Active(w))
  {
    UnpackPacked(w);
    v := w;
    if StepBytes(data, step).Ok? {
      match step
      case Initialize(_) =>
      case Update(signer, action, hook) =>
        UpdateIsSetUpdate(w, action, hook);
        v := Updated(w, action, hook).value;
      case UpdateAuthority(signer, newAuthority) =>
        v := w.(authority := newAuthority);
        assert Active(v) == Active(w);
    }
  }

  lemma {:induction false} RunStores(data: seq<u8>, w: Hooks, steps: seq<Step>) returns (v: Hooks)
    requires Stores(data, w)
    ensures Stores(RunBytes(data, steps), v)
    ensures forall h :: h in Active(v) <==> LastUpdateAdds(data, steps, h, h in Active(w))
    decreases |steps|
  {
    if steps == [] {
      v := w;
    } else {
      var u := StepStores(data, w, steps[0]);
      v := RunStores(ApplyBytes(data, steps[0]), u, steps[1..]);
    }
  }

  /** For any run of whitelist instructions from an account that does not exist yet: the data stays
      absent or a well-formed whitelist, and a query answers that a hook is listed exactly when the
      last successful update naming it was an Add.  Queries are refused in one case only: when the
      authority was handed to the default key. */
  lemma {:induction false} RunIsSet(steps: seq<Step>, hook: Pubkey)
    ensures var data := RunBytes([], steps);
            data == [] || exists w :: Stores(data, w)
    ensures var data := RunBytes([], steps);
            IsHookWhitelisted(data, hook) == Ok(LastUpdateAdds([], steps, hook, false))
            <==> data == [] || data[..32] != DefaultKey()
    ensures RunBytes([], steps) == [] ==> !LastUpdateAdds([], steps, hook, false)
    decreases |steps|
  {
    if steps != [] {
      match steps[0]
      case Initialize(authority) =>
        var w := NewHooks(authority);
        assert Active(w) == [];
        var v := RunStores(Packed(w), w, steps[1..]);
        UnpackPacked(v);
        assert Packed(v)[..32] == v.authority;
        assert (hook in Active(w)) == false;
      case Update(_, _, _) => RunIsSet(steps[1..], hook);
      case UpdateAuthority(_, _) => RunIsSet(steps[1..], hook);
    }
  }

  // ---------------------------------------------------------------- where the bytes are

  lemma {:induction false} ConcatAt(keys: seq<Pubkey>, i: nat)
    requires i < |keys|
    ensures Concat(keys)[32 * i..32 * i + 32] == keys[i]
  {
    if i > 0 {
      ConcatAt(keys[1..], i - 1);
      assert Concat(keys)[32..] == Concat(keys[1..]);
      assert Concat(keys)[32 * i..32 * i + 32] == Concat(keys)[32..][32 * (i - 1)..32 * (i - 1) + 32];
    }
  }

  /** 1060 bytes: the authority, the count with its low byte first, and 32 slots of 32 bytes. */
  lemma PackedLayout(w: Hooks, i: nat)
    requires Sized(w) && i < 32
    ensures var s := Packed(w);
            && |s| == 1060
            && s[..32] == w.authority
            && s[32] as int == w.count && s[33] == s[34] == s[35] == 0
            && s[36 + 32 * i..68 + 32 * i] == w.slots[i]
  {
    var s := Packed(w);
    assert s[32..36] == LittleEndian(w.count, 4);
    assert s[36..] == Concat(w.slots);
    CountBytes(w.count);
    assert s[32] == s[32..36][0] && s[33] == s[32..36][1] && s[34] == s[32..36][2] && s[35] == s[32..36][3];
    ConcatAt(w.slots, i);
    assert s[36 + 32 * i..68 + 32 * i] == s[36..][32 * i..32 * i + 32];
  }

  lemma CountBytes(v: nat)
    requires v < 256
    ensures LittleEndian(v, 4) == [v, 0, 0, 0]
  {
    assert LittleEndian(0, 3) == [0, 0, 0] by {
      assert LittleEndian(0, 0) == [] && LittleEndian(0, 1) == [0] && LittleEndian(0, 2) == [0, 0];
    }
    assert v / 256 == 0 && v % 256 == v;
  }

  /** Which bytes are a whitelist, and which one: anything of 1060 bytes with a count up to 32 and an
      authority that is not the default key. */
  lemma UnpackedIs(data: seq<u8>, i: nat)
    requires i < 32
    ensures if |data| != 1060 || U32At(data, 32) > 32 then Unpacked(data) == Err(InvalidAccountData)
            else if data[..32] == DefaultKey() then Unpacked(data) == Err(UninitializedAccount)
            else
              && Unpacked(data).Ok?
              && var w := Unpacked(data).value;
                 w.authority == data[..32] && w.count == U32At(data, 32) && w.slots[i] == data[36 + 32 * i..68 + 32 * i]
  {
    if |data| == 1060 {
      CountIs(data);
      SplitAt(data[36..], i);
      assert data[36..][32 * i..32 * i + 32] == data[36 + 32 * i..68 + 32 * i];
    }
  }

  lemma CountIs(data: seq<u8>)
    requires |data| == 1060
    ensures FromLittleEndian(data[32..36]) == U32At(data, 32)
  {
    FourBytes(data[32..36]);
    assert data[32..36][4..] == [];
  }

  lemma {:induction false} SplitAt(s: seq<u8>, i: nat)
    requires |s| % 32 == 0 && 32 * i + 32 <= |s|
    ensures Split(s)[i] == s[32 * i..32 * i + 32]
  {
    if i > 0 {
      SplitAt(s[32..], i - 1);
      assert s[32..][32 * (i - 1)..32 * (i - 1) + 32] == s[32 * i..32 * i + 32];
    }
  }

  // ---------------------------------------------------------------- the whitelist as a set with one owner

  /** What an account means: nothing yet, or an authority and a set of hooks. */
  datatype Listing = Absent | Listed(authority: Pubkey, hooks: set<Pubkey>)

  /** The instructions on sets.  An account whose authority is the default key counts as uninitialized. */
  function SetStep(l: Listing, step: Step): Result<Listing> {
    match step
    case Initialize(authority) => if l.Absent? then Ok(Listed(authority, {})) else Err(AccountAlreadyInitialized)
    case Update(signer, action, hook) =>
      if l.Absent? || l.authority == DefaultKey() then Err(UninitializedAccount)
      else if signer != l.authority then Err(InvalidAccountOwner)
      else if action == Add then
        if hook in l.hooks then Err(InvalidWhitelistAccount)
        else if |l.hooks| >= 32 then Err(WhitelistFull)
        else Ok(Listed(l.authority, l.hooks + {hook}))
      else if hook !in l.hooks then Err(TransferHookNotWhitelisted)
      else Ok(Listed(l.authority, l.hooks - {hook}))
    case UpdateAuthority(signer, newAuthority) =>
      if l.Absent? || l.authority == DefaultKey() then Err(UninitializedAccount)
      else if signer != l.authority then Err(InvalidAccountOwner)
      else Ok(Listed(newAuthority, l.hooks))
  }

  function RunListing(l: Listing, steps: seq<Step>): Listing
    decreases |steps|
  {
    if steps == [] then l
    else RunListing(match SetStep(l, steps[0]) case Ok(m) => m case Err(_) => l, steps[1..])
  }

  function ActiveSet(w: Hooks): set<Pubkey>
    requires Sized(w)
  {
    set h | h in Active(w)
  }

  ghost predicate Means(data: seq<u8>, l: Listing) {
    match l
    case Absent => data == []
    case Listed(authority, hooks) => exists w :: Stores(data, w) && w.authority == authority && ActiveSet(w) == hooks
  }

  lemma {:induction false} DistinctCount(s: seq<Pubkey>)
    requires NoDuplicates(s)
    ensures |set h | h in s| == |s|
  {
    if s != [] {
      DistinctCount(s[1..]);
      assert (set h | h in s) == (set h | h in s[1..]) + {s[0]};
    }
  }

  /** One instruction on stored bytes does what it does on the set, error for error. */
  lemma StepMeans(data: seq<u8>, l: Listing, step: Step)
    requires Means(data, l)
    ensures match SetStep(l, step)
            case Ok(m) => StepBytes(data, step).Ok? && Means(StepBytes(data, step).value, m)
            case Err(e) => StepBytes(data, step) == Err(e)
  {
    match l
    case Absent =>
      if step.Initialize? {
        var w := NewHooks(step.authority);
        assert Stores(Packed(w), w) && ActiveSet(w) == {};
      }
    case Listed(authority, hooks) =>
      var w :| Stores(data, w) && w.authority == authority && ActiveSet(w) == hooks;
      UnpackPacked(w);
      match step
      case Initialize(_) =>
      case Update(signer, action, hook) =>
        if authority != DefaultKey() && signer == authority {
          UpdateMeans(w, action, hook);
        }
      case UpdateAuthority(signer, newAuthority) =>
        var v := w.(authority := newAuthority);
        assert Active(v) == Active(w) && Stores(Packed(v), v) && ActiveSet(v) == hooks;
  }

  lemma UpdateMeans(w: Hooks, action: Action, hook: Pubkey)
    requires WellFormed(w)
    ensures match SetStep(Listed(w.authority, ActiveSet(w)), Update(w.authority, action, hook))
            case Ok(m) => Updated(w, action, hook).Ok? && Means(Packed(Updated(w, action, hook).value), m)
            case Err(e) => w.authority == DefaultKey() || Updated(w, action, hook) == Err(e)
  {
    DistinctCount(Active(w));
    if Updated(w, action, hook).Ok? {
      SetUpdated(w, action, hook);
    }
  }

  lemma SetUpdated(w: Hooks, action: Action, hook: Pubkey)
    requires WellFormed(w) && Updated(w, action, hook).Ok?
    ensures var (v, s) := (Updated(w, action, hook).value, ActiveSet(w));
            && Stores(Packed(v), v) && v.authority == w.authority
            && ActiveSet(v) == if action == Add then s + {hook} else s - {hook}
  {
    UpdateIsSetUpdate(w, action, hook);
  }

  /** Any run of instructions over the bytes, from an account that does not exist yet, is the run over
      sets; and a query answers with membership. */
  lemma {:induction false} RunMeans(data: seq<u8>, l: Listing, steps: seq<Step>)
    requires Means(data, l)
    ensures Means(RunBytes(data, steps), RunListing(l, steps))
    decreases |steps|
  {
    if steps != [] {
      StepMeans(data, l, steps[0]);
      RunMeans(ApplyBytes(data, steps[0]), match SetStep(l, steps[0]) case Ok(m) => m case Err(_) => l, steps[1..]);
    }
  }

  lemma RunIsSetRun(steps: seq<Step>, step: Step, hook: Pubkey)
    ensures var (data, l) := (RunBytes([], steps), RunListing(Absent, steps));
            && (StepBytes(data, step).Ok? <==> SetStep(l, step).Ok?)
            && (StepBytes(data, step).Err? ==> StepBytes(data, step).error == SetStep(l, step).error)
            && IsHookWhitelisted(data, hook)
               == if l.Absent? then Ok(false)
                  else if l.authority == DefaultKey() then Err(UninitializedAccount)
                  else Ok(hook in l.hooks)
  {
    RunMeans([], Absent, steps);
    var (data, l) := (RunBytes([], steps), RunListing(Absent, steps));
    StepMeans(data, l, step);
    if l.Listed? {
      var w :| Stores(data, w) && w.authority == l.authority && ActiveSet(w) == l.hooks;
      UnpackPacked(w);
    }
  }

  // ---------------------------------------------------------------- who may write

  /** Only the signer whose key the first 32 bytes hold changes a created account; an update leaves those
      bytes, a handover replaces them and nothing else. */
  lemma OnlyAuthorityWrites(data: seq<u8>, step: Step)
    requires step.Update? || step.UpdateAuthority?
    ensures StepBytes(data, step).Ok? ==> |data| == 1060 && data[..32] == step.signer != DefaultKey()
    ensures StepBytes(data, step).Ok? && step.Update? ==> StepBytes(data, step).value[..32] == data[..32]
    ensures StepBytes(data, step).Ok? && step.UpdateAuthority? ==>
              StepBytes(data, step).value == step.newAuthority + data[32..]
    ensures Unpacked(data).Ok? && step.signer != data[..32] ==>
              StepBytes(data, step) == Err(InvalidAccountOwner) && ApplyBytes(data, step) == data
  {
    if Unpacked(data).Ok? {
      PackedUnpacked(data);
      var w := Unpacked(data).value;
      if StepBytes(data, step).Ok? {
        match step
        case Update(_, action, hook) =>
          assert Updated(w, action, hook).value.authority == w.authority;
        case UpdateAuthority(_, newAuthority) =>
          SameTail(w, newAuthority);
      }
    }
  }

  lemma SameTail(w: Hooks, newAuthority: Pubkey)
    requires Sized(w)
    ensures Packed(w.(authority := newAuthority)) == newAuthority + Packed(w)[32..]
  {
    assert Packed(w)[32..] == LittleEndian(w.count, 4) + Concat(w.slots);
  }

  /** Every byte string that unpacks is the packing of what it unpacks to. */
  lemma PackedUnpacked(data: seq<u8>)
    requires Unpacked(data).Ok?
    ensures Packed(Unpacked(data).value) == data
  {
    FromLittleEndianRoundTrip(data[32..36]);
    ConcatSplit(data[36..]);
    assert data == data[..32] + data[32..36] + data[36..];
  }

  lemma {:induction false} ConcatSplit(s: seq<u8>)
    requires |s| % 32 == 0
    ensures Concat(Split(s)) == s
  {
    if s != [] {
      ConcatSplit(s[32..]);
      assert Split(s)[1..] == Split(s[32..]);
      assert s == s[..32] + s[32..];
    }
  }

  /** The key that may write after a list of instructions, from the instructions alone: the one named by
      the first Initialize, then by each handover that its holder signed. */
  function Holder(steps: seq<Step>, holder: Option<Pubkey>): Option<Pubkey>
    decreases |steps|
  {
    if steps == [] then holder
    else
      var next :=
        match steps[0]
        case Initialize(authority) => if holder.None? then Some(authority) else holder
        case UpdateAuthority(signer, newAuthority) =>
          if holder == Some(signer) && signer != DefaultKey() then Some(newAuthority) else holder
        case Update(_, _, _) => holder;
      Holder(steps[1..], next)
  }

  lemma {:induction false} HolderIsAuthority(l: Listing, steps: seq<Step>)
    ensures var (m, was) := (RunListing(l, steps), if l.Absent? then None else Some(l.authority));
            Holder(steps, was) == if m.Absent? then None else Some(m.authority)
    decreases |steps|
  {
    if steps != [] {
      HolderIsAuthority(match SetStep(l, steps[0]) case Ok(m) => m case Err(_) => l, steps[1..]);
    }
  }

  /** At every moment of every run only the holder can change anything, and it signs in its own name. */
  lemma OnlyHolderChanges(steps: seq<Step>, step: Step)
    ensures var (data, holder) := (RunBytes([], steps), Holder(steps, None));
            ApplyBytes(data, step) != data ==>
              if step.Initialize? then holder.None? else holder == Some(step.signer)
  {
    RunMeans([], Absent, steps);
    HolderIsAuthority(Absent, steps);
    StepMeans(RunBytes([], steps), RunListing(Absent, steps), step);
  }
}
