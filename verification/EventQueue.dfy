/** `calc_exact_vault_in_serum`: the order-book part of the reserves, corrected by the fills that the
    event queue still holds. */
module EventQueue {
  import opened Machine

  datatype Side = Bid | Ask

  /** `mine`: the event belongs to the pool's open-orders account. */
  datatype Event =
    | Fill(mine: bool, side: Side, maker: bool, paid: u64, received: u64)
    | Out(mine: bool)

  predicate OwnMakerFill(e: Event) {
    e.mine && e.Fill? && e.maker
  }

  function PcGain(e: Event): int {
    if !OwnMakerFill(e) then 0 else if e.side == Bid then 0 - e.paid else e.received
  }

  function CoinGain(e: Event): int {
    if !OwnMakerFill(e) then 0 else if e.side == Bid then e.received else 0 - e.paid
  }

  predicate InRange(v: int) {
    0 <= v < U64_LIMIT
  }

  /** Event by event, stopping at the first underflow or overflow. */
  function ExactVault(pc: u64, coin: u64, events: seq<Event>): Result<(u64, u64)>
    decreases |events|
  {
    if events == [] then Ok((pc, coin))
    else
      var pc', coin' := pc + PcGain(events[0]), coin + CoinGain(events[0]);
      if InRange(pc') && InRange(coin') then ExactVault(pc', coin', events[1..]) else Err(Panicked)
  }

  function PcGains(events: seq<Event>): int {
    if events == [] then 0 else PcGain(events[0]) + PcGains(events[1..])
  }

  function CoinGains(events: seq<Event>): int {
    if events == [] then 0 else CoinGain(events[0]) + CoinGains(events[1..])
  }

  function OwnMakerFills(events: seq<Event>): seq<Event> {
    if events == [] then []
    else (if OwnMakerFill(events[0]) then [events[0]] else []) + OwnMakerFills(events[1..])
  }

  /** After k events both running totals are u64 numbers. */
  predicate PrefixFits(pc: int, coin: int, events: seq<Event>, k: nat)
    requires k <= |events|
  {
    InRange(pc + PcGains(events[..k])) && InRange(coin + CoinGains(events[..k]))
  }

  lemma ShiftPrefix(pc: int, coin: int, events: seq<Event>, k: nat)
    requires 0 < k <= |events|
    ensures PrefixFits(pc, coin, events, k)
            <==> PrefixFits(pc + PcGain(events[0]), coin + CoinGain(events[0]), events[1..], k - 1)
  {
    assert events[..k][0] == events[0] && events[..k][1..] == events[1..][..k - 1];
  }

  lemma {:induction false} SucceedingPrefixesFit(pc: u64, coin: u64, events: seq<Event>, k: nat)
    requires ExactVault(pc, coin, events).Ok? && k <= |events|
    ensures PrefixFits(pc, coin, events, k)
    ensures ExactVault(pc, coin, events).value == (pc + PcGains(events), coin + CoinGains(events))
    decreases |events|
  {
    assert events[..0] == [];
    if events != [] {
      SucceedingPrefixesFit(pc + PcGain(events[0]), coin + CoinGain(events[0]), events[1..],
                            if k > 0 then k - 1 else 0);
      if k > 0 {
        ShiftPrefix(pc, coin, events, k);
      }
    }
  }

  lemma {:induction false} FittingPrefixesSucceed(pc: u64, coin: u64, events: seq<Event>)
    requires forall k | 0 <= k <= |events| :: PrefixFits(pc, coin, events, k)
    ensures ExactVault(pc, coin, events).Ok?
    decreases |events|
  {
    if events != [] {
      var pc', coin', rest := pc + PcGain(events[0]), coin + CoinGain(events[0]), events[1..];
      assert PrefixFits(pc, coin, events, 1);
      ShiftPrefix(pc, coin, events, 1);
      assert rest[..0] == [];
      forall k | 0 <= k <= |rest|
        ensures PrefixFits(pc', coin', rest, k)
      {
        assert PrefixFits(pc, coin, events, k + 1);
        ShiftPrefix(pc, coin, events, k + 1);
      }
      FittingPrefixesSucceed(pc', coin', rest);
    }
  }

  /** What own maker fills on one side of the book paid, and what they received. */
  function Paid(events: seq<Event>, side: Side): nat {
    if events == [] then 0
    else
      Paid(events[1..], side) +
      match events[0]
      case Fill(true, on, true, paid, _) => if on == side then paid else 0
      case _ => 0
  }

  function Received(events: seq<Event>, side: Side): nat {
    if events == [] then 0
    else
      Received(events[1..], side) +
      match events[0]
      case Fill(true, on, true, _, received) => if on == side then received else 0
      case _ => 0
  }

  /** Own asks bring in pc, which own bids pay; own bids bring in coin, which own asks pay. */
  lemma {:induction false} GainsAreSums(events: seq<Event>)
    ensures PcGains(events) == Received(events, Ask) - Paid(events, Bid)
    ensures CoinGains(events) == Received(events, Bid) - Paid(events, Ask)
  {
    if events != [] {
      GainsAreSums(events[1..]);
    }
  }

  /** After k events both totals, computed from what was paid and received so far, are u64 numbers. */
  predicate FitsAfter(pc: u64, coin: u64, events: seq<Event>, k: nat)
    requires k <= |events|
  {
    && InRange(pc + Received(events[..k], Ask) - Paid(events[..k], Bid))
    && InRange(coin + Received(events[..k], Bid) - Paid(events[..k], Ask))
  }

  /** It succeeds exactly when no prefix of the queue leaves the range of u64, and then returns the
      opening pc plus what own maker asks received less what own maker bids paid, and the opening coin
      plus what the bids received less what the asks paid. */
  lemma ExactVaultIff(pc: u64, coin: u64, events: seq<Event>)
    ensures ExactVault(pc, coin, events).Ok? <==> forall k | 0 <= k <= |events| :: FitsAfter(pc, coin, events, k)
    ensures ExactVault(pc, coin, events).Ok? ==>
              ExactVault(pc, coin, events).value
              == (pc + Received(events, Ask) - Paid(events, Bid), coin + Received(events, Bid) - Paid(events, Ask))
    ensures ExactVault(pc, coin, events).Err? ==> ExactVault(pc, coin, events).error == Panicked
  {
    forall k | 0 <= k <= |events|
      ensures PrefixFits(pc, coin, events, k) <==> FitsAfter(pc, coin, events, k)
    {
      GainsAreSums(events[..k]);
    }
    if ExactVault(pc, coin, events).Ok? {
      forall k | 0 <= k <= |events|
        ensures FitsAfter(pc, coin, events, k)
      {
        SucceedingPrefixesFit(pc, coin, events, k);
      }
      SucceedingPrefixesFit(pc, coin, events, 0);
      GainsAreSums(events);
    } else {
      FailsByPanic(pc, coin, events);
    }
    if forall k | 0 <= k <= |events| :: FitsAfter(pc, coin, events, k) {
      FittingPrefixesSucceed(pc, coin, events);
    }
  }

  lemma {:induction false} FailsByPanic(pc: u64, coin: u64, events: seq<Event>)
    requires ExactVault(pc, coin, events).Err?
    ensures ExactVault(pc, coin, events) == Err(Panicked)
    decreases |events|
  {
    var pc', coin' := pc + PcGain(events[0]), coin + CoinGain(events[0]);
    if InRange(pc') && InRange(coin') {
      FailsByPanic(pc', coin', events[1..]);
    }
  }

  /** One event: a fill of an own maker bid pays pc and receives coin, of an own maker ask pays coin
      and receives pc, each failing exactly on an underflow or overflow; any other changes nothing. */
  lemma OneEvent(pc: u64, coin: u64, paid: u64, received: u64, mine: bool, maker: bool, side: Side)
    ensures ExactVault(pc, coin, [Fill(true, Bid, true, paid, received)])
            == if paid <= pc && coin + received < U64_LIMIT then Ok((pc - paid, coin + received)) else Err(Panicked)
    ensures ExactVault(pc, coin, [Fill(true, Ask, true, paid, received)])
            == if paid <= coin && pc + received < U64_LIMIT then Ok((pc + received, coin - paid)) else Err(Panicked)
    ensures !mine || !maker ==> ExactVault(pc, coin, [Fill(mine, side, maker, paid, received)]) == Ok((pc, coin))
    ensures ExactVault(pc, coin, [Out(mine)]) == Ok((pc, coin))
  {
    assert forall e: Event :: [e][1..] == [];
  }

  /** Events of others, taker fills and order removals do not matter, not even for failing. */
  lemma {:induction false} OnlyOwnMakerFillsCount(pc: u64, coin: u64, events: seq<Event>)
    ensures ExactVault(pc, coin, OwnMakerFills(events)) == ExactVault(pc, coin, events)
    decreases |events|
  {
    if events != [] {
      var own := OwnMakerFills(events[1..]);
      if OwnMakerFill(events[0]) {
        assert ([events[0]] + own)[1..] == own;
        var pc', coin' := pc + PcGain(events[0]), coin + CoinGain(events[0]);
        if InRange(pc') && InRange(coin') {
          OnlyOwnMakerFillsCount(pc', coin', events[1..]);
        }
      } else {
        assert [] + own == own;
        OnlyOwnMakerFillsCount(pc, coin, events[1..]);
      }
    }
  }

  /** Working through a longer queue is working through its parts. */
  lemma {:induction false} ExactVaultComposes(pc: u64, coin: u64, a: seq<Event>, b: seq<Event>)
    ensures ExactVault(pc, coin, a + b) ==
            (match ExactVault(pc, coin, a) case Ok(t) => ExactVault(t.0, t.1, b) case Err(e) => Err(e))
    decreases |a|
  {
    if a == [] {
      assert a + b == b;
    } else {
      assert (a + b)[1..] == a[1..] + b;
      var pc', coin' := pc + PcGain(a[0]), coin + CoinGain(a[0]);
      if InRange(pc') && InRange(coin') {
        ExactVaultComposes(pc', coin', a[1..], b);
      }
    }
  }

  /** The loop of the program: two running totals, checked subtraction and addition. */
  method CalcExactVaultInSerum(nativePcTotal: u64, nativeCoinTotal: u64, events: seq<Event>)
    returns (r: Result<(u64, u64)>)
    ensures r == ExactVault(nativePcTotal, nativeCoinTotal, events)
  {
    var pc: u64, coin: u64 := nativePcTotal, nativeCoinTotal;
    var i := 0;
    while i < |events|
      invariant i <= |events|
      invariant ExactVault(pc, coin, events[i..]) == ExactVault(nativePcTotal, nativeCoinTotal, events)
    {
      var event := events[i];
      assert events[i..][0] == event && events[i..][1..] == events[i + 1..];
      i := i + 1;
      if !event.mine {
        continue;
      }
      match event
      case Out(_) => continue;
      case Fill(_, side, maker, paid, received) =>
        if side == Bid && maker {
          if pc < paid || coin + received >= U64_LIMIT {
            return Err(Panicked);
          }
          pc, coin := pc - paid, coin + received;
        } else if side == Ask && maker {
          if coin < paid || pc + received >= U64_LIMIT {
            return Err(Panicked);
          }
          coin, pc := coin - paid, pc + received;
        }
    }
    assert events[i..] == [];
    return Ok((pc, coin));
  }
}
