/** Collecting the pool's open orders from the book, and cutting their client ids into the
    eight-element arrays that one cancel instruction carries. */
module Orders {
  import opened Machine

  const BATCH: nat := 8
  const SLOTS: nat := 128

  datatype Leaf = Leaf(clientOrderId: u64, price: u64)

  /** The part of an OpenOrders account that is read: bit i of the two masks and order key i. */
  datatype OpenOrders = OpenOrders(free: seq<bool>, isBid: seq<bool>, orders: seq<u128>)

  predicate Sized(o: OpenOrders) {
    |o.free| == |o.isBid| == |o.orders| == SLOTS
  }

  // ---------------------------------------------------------------- collecting

  /** Slot i is occupied, on this side, and its order is still in the book. */
  predicate Present(o: OpenOrders, book: map<u128, Leaf>, bids: bool, i: nat)
    requires Sized(o)
  {
    i < SLOTS && !o.free[i] && o.isBid[i] == bids && o.orders[i] in book
  }

  /** Slot i contributes the leaf of its order. */
  function LeafOf(o: OpenOrders, book: map<u128, Leaf>, bids: bool, i: nat): seq<Leaf>
    requires Sized(o)
  {
    if Present(o, book, bids, i) then [book[o.orders[i]]] else []
  }

  function Collected(o: OpenOrders, book: map<u128, Leaf>, bids: bool, n: nat): seq<Leaf>
    requires Sized(o) && n <= SLOTS
  {
    if n == 0 then [] else Collected(o, book, bids, n - 1) + LeafOf(o, book, bids, n - 1)
  }

  // ---------------------------------------------------------------- the stable sort

  predicate InOrder(falling: bool, a: Leaf, b: Leaf) {
    if falling then a.price >= b.price else a.price <= b.price
  }

  predicate Sorted(falling: bool, s: seq<Leaf>) {
    forall i, j | 0 <= i < j < |s| :: InOrder(falling, s[i], s[j])
  }

  function Insert(falling: bool, x: Leaf, s: seq<Leaf>): seq<Leaf> {
    if s == [] || InOrder(falling, x, s[0]) then [x] + s else [s[0]] + Insert(falling, x, s[1..])
  }

  function SortByPrice(falling: bool, s: seq<Leaf>): seq<Leaf> {
    if s == [] then [] else Insert(falling, s[0], SortByPrice(falling, s[1..]))
  }

  /** The leaves of one price, in their order. */
  function AtPrice(s: seq<Leaf>, price: u64): seq<Leaf> {
    if s == [] then []
    else (if s[0].price == price then [s[0]] else []) + AtPrice(s[1..], price)
  }

  lemma {:induction false} InsertSorts(falling: bool, x: Leaf, s: seq<Leaf>)
    requires Sorted(falling, s)
    ensures Sorted(falling, Insert(falling, x, s))
    ensures multiset(Insert(falling, x, s)) == multiset(s) + multiset{x}
  {
    if s == [] || InOrder(falling, x, s[0]) {
    } else {
      InsertSorts(falling, x, s[1..]);
      assert s == [s[0]] + s[1..];
      PrependSorted(falling, s[0], Insert(falling, x, s[1..]), s[1..], x);
    }
  }

  lemma PrependSorted(falling: bool, y: Leaf, t: seq<Leaf>, s: seq<Leaf>, x: Leaf)
    requires Sorted(falling, t) && multiset(t) == multiset(s) + multiset{x}
    requires InOrder(falling, y, x) && forall z <- s :: InOrder(falling, y, z)
    ensures Sorted(falling, [y] + t)
  {
    forall k | 0 <= k < |t|
      ensures InOrder(falling, y, t[k])
    {
      assert t[k] in multiset(t);
    }
  }

  lemma {:induction false} InsertIsStable(falling: bool, x: Leaf, s: seq<Leaf>, price: u64)
    ensures AtPrice(Insert(falling, x, s), price) == (if x.price == price then [x] else []) + AtPrice(s, price)
  {
    if s == [] || InOrder(falling, x, s[0]) {
      AtPriceCons(x, s, price);
    } else {
      InsertIsStable(falling, x, s[1..], price);
      AtPriceCons(s[0], Insert(falling, x, s[1..]), price);
      var rest := AtPrice(s[1..], price);
      if x.price == price {
        assert s[0].price != price && AtPrice(s, price) == [] + rest == rest;
      } else {
        assert [] + rest == rest && [] + AtPrice(s, price) == AtPrice(s, price);
      }
    }
  }

  lemma AtPriceCons(x: Leaf, s: seq<Leaf>, price: u64)
    ensures AtPrice([x] + s, price) == (if x.price == price then [x] else []) + AtPrice(s, price)
  {
    assert ([x] + s)[1..] == s;
  }

  /** The sort orders by price, keeps every leaf, and keeps the order of leaves of equal price. */
  lemma {:induction false} SortIsStable(falling: bool, s: seq<Leaf>)
    ensures Sorted(falling, SortByPrice(falling, s))
    ensures multiset(SortByPrice(falling, s)) == multiset(s)
    ensures forall price :: AtPrice(SortByPrice(falling, s), price) == AtPrice(s, price)
  {
    if s != [] {
      SortIsStable(falling, s[1..]);
      InsertSorts(falling, s[0], SortByPrice(falling, s[1..]));
      assert s == [s[0]] + s[1..];
      forall price
        ensures AtPrice(SortByPrice(falling, s), price) == AtPrice(s, price)
      {
        InsertIsStable(falling, s[0], SortByPrice(falling, s[1..]), price);
      }
    }
  }

  lemma {:induction false} AtPriceWitness(s: seq<Leaf>, price: u64)
    requires AtPrice(s, price) != []
    ensures exists k | 0 <= k < |s| :: s[k].price == price
  {
    if s[0].price != price {
      AtPriceWitness(s[1..], price);
      var k :| 0 <= k < |s[1..]| && s[1..][k].price == price;
      assert s[k + 1].price == price;
    }
  }

  lemma HeadOfSorted(falling: bool, s: seq<Leaf>, x: Leaf)
    requires Sorted(falling, s) && AtPrice(s, x.price) != []
    ensures s != [] && InOrder(falling, s[0], x)
  {
    AtPriceWitness(s, x.price);
    var k :| 0 <= k < |s| && s[k].price == x.price;
    assert k > 0 ==> InOrder(falling, s[0], s[k]);
  }

  /** These three properties leave no choice: every stable sort by price returns the same list. */
  lemma {:induction false} StableSortIsUnique(falling: bool, s: seq<Leaf>, t: seq<Leaf>)
    requires Sorted(falling, s) && Sorted(falling, t)
    requires forall price :: AtPrice(s, price) == AtPrice(t, price)
    ensures s == t
  {
    if s == [] {
      assert t != [] ==> AtPrice(t, t[0].price) != [];
    } else {
      var p := s[0].price;
      assert AtPrice(s, p) == AtPrice(t, p);
      HeadOfSorted(falling, t, s[0]);
      var q := t[0].price;
      assert AtPrice(s, q) == AtPrice(t, q);
      HeadOfSorted(falling, s, t[0]);
      assert p == q && AtPrice(s, p)[0] == s[0] && AtPrice(t, p)[0] == t[0];
      forall price
        ensures AtPrice(s[1..], price) == AtPrice(t[1..], price)
      {
        assert AtPrice(s, price) == AtPrice(t, price);
        var head := if s[0].price == price then [s[0]] else [];
        assert (head + AtPrice(s[1..], price))[|head|..] == AtPrice(s[1..], price);
        assert (head + AtPrice(t[1..], price))[|head|..] == AtPrice(t[1..], price);
      }
      StableSortIsUnique(falling, s[1..], t[1..]);
      assert s == [s[0]] + s[1..] && t == [t[0]] + t[1..];
    }
  }

  /** The slots below n that lead to leaf x. */
  function SlotsOf(o: OpenOrders, book: map<u128, Leaf>, bids: bool, n: nat, x: Leaf): set<nat>
    requires Sized(o)
  {
    set i: nat | i < n && Present(o, book, bids, i) && book[o.orders[i]] == x
  }

  /** Collecting finds each leaf once for every slot that leads to it, and nothing else. */
  lemma CollectedHolds(o: OpenOrders, book: map<u128, Leaf>, bids: bool, n: nat, x: Leaf)
    requires Sized(o) && n <= SLOTS
    ensures multiset(Collected(o, book, bids, n))[x] == |SlotsOf(o, book, bids, n, x)|
  {
    CollectedCount(o, book, bids, n, x);
    SlotsCount(o, book, bids, n, x);
  }

  function SlotCount(o: OpenOrders, book: map<u128, Leaf>, bids: bool, n: nat, x: Leaf): nat
    requires Sized(o)
  {
    if n == 0 then 0
    else SlotCount(o, book, bids, n - 1, x)
         + if Present(o, book, bids, n - 1) && book[o.orders[n - 1]] == x then 1 else 0
  }

  lemma {:induction false} CollectedCount(o: OpenOrders, book: map<u128, Leaf>, bids: bool, n: nat, x: Leaf)
    requires Sized(o) && n <= SLOTS
    ensures multiset(Collected(o, book, bids, n))[x] == SlotCount(o, book, bids, n, x)
  {
    if n > 0 {
      CollectedCount(o, book, bids, n - 1, x);
    }
  }

  lemma {:induction false} SlotsCount(o: OpenOrders, book: map<u128, Leaf>, bids: bool, n: nat, x: Leaf)
    requires Sized(o) && n <= SLOTS
    ensures |SlotsOf(o, book, bids, n, x)| == SlotCount(o, book, bids, n, x)
  {
    if n == 0 {
      assert SlotsOf(o, book, bids, 0, x) == {};
    } else {
      SlotsCount(o, book, bids, n - 1, x);
      SlotAdds(o, book, bids, n - 1, x);
    }
  }

  lemma SlotAdds(o: OpenOrders, book: map<u128, Leaf>, bids: bool, n: nat, x: Leaf)
    requires Sized(o) && n < SLOTS
    ensures |SlotsOf(o, book, bids, n + 1, x)|
            == |SlotsOf(o, book, bids, n, x)| + if Present(o, book, bids, n) && book[o.orders[n]] == x then 1 else 0
  {
    var before := SlotsOf(o, book, bids, n, x);
    assert SlotsOf(o, book, bids, n + 1, x)
           == if Present(o, book, bids, n) && book[o.orders[n]] == x then before + {n} else before;
  }

  lemma SortedSide(falling: bool, o: OpenOrders, book: map<u128, Leaf>, bids: bool)
    requires Sized(o)
    ensures var side := SortByPrice(falling, Collected(o, book, bids, SLOTS));
            Sorted(falling, side) && forall x :: multiset(side)[x] == |SlotsOf(o, book, bids, SLOTS, x)|
  {
    var found := Collected(o, book, bids, SLOTS);
    SortIsStable(falling, found);
    forall x
      ensures multiset(SortByPrice(falling, found))[x] == |SlotsOf(o, book, bids, SLOTS, x)|
    {
      CollectedHolds(o, book, bids, SLOTS, x);
    }
  }

  /** The occupied slots marked as bids, and those not marked, whose order is leaf x of its book. */
  function OpenBids(o: OpenOrders, book: map<u128, Leaf>, x: Leaf): set<nat>
    requires Sized(o)
  {
    set i: nat | i < 128 && !o.free[i] && o.isBid[i] && o.orders[i] in book && book[o.orders[i]] == x
  }

  function OpenAsks(o: OpenOrders, book: map<u128, Leaf>, x: Leaf): set<nat>
    requires Sized(o)
  {
    set i: nat | i < 128 && !o.free[i] && !o.isBid[i] && o.orders[i] in book && book[o.orders[i]] == x
  }

  lemma SlotsAreOpenOrders(o: OpenOrders, bidBook: map<u128, Leaf>, askBook: map<u128, Leaf>)
    requires Sized(o)
    ensures forall x :: SlotsOf(o, bidBook, true, SLOTS, x) == OpenBids(o, bidBook, x)
    ensures forall x :: SlotsOf(o, askBook, false, SLOTS, x) == OpenAsks(o, askBook, x)
  {
  }

  /** `get_amm_orders`: each side is the stable sort, bids by falling and asks by rising price, of the
      leaves its occupied slots lead to, and holds every such leaf once for each slot. */
  method GetAmmOrders(o: OpenOrders, bidBook: map<u128, Leaf>, askBook: map<u128, Leaf>)
    returns (bids: seq<Leaf>, asks: seq<Leaf>)
    requires Sized(o)
    ensures bids == SortByPrice(true, Collected(o, bidBook, true, SLOTS))
    ensures asks == SortByPrice(false, Collected(o, askBook, false, SLOTS))
    ensures forall i, j | 0 <= i < j < |bids| :: bids[i].price >= bids[j].price
    ensures forall i, j | 0 <= i < j < |asks| :: asks[i].price <= asks[j].price
    ensures forall x :: multiset(bids)[x] == |OpenBids(o, bidBook, x)|
    ensures forall x :: multiset(asks)[x] == |OpenAsks(o, askBook, x)|
  {
    bids, asks := [], [];
    if exists i | 0 <= i < SLOTS :: !o.free[i] {
      for i := 0 to SLOTS
        invariant bids == Collected(o, bidBook, true, i)
        invariant asks == Collected(o, askBook, false, i)
      {
        if !o.free[i] {
          if o.isBid[i] {
            if o.orders[i] in bidBook {
              bids := bids + [bidBook[o.orders[i]]];
            }
          } else {
            if o.orders[i] in askBook {
              asks := asks + [askBook[o.orders[i]]];
            }
          }
        }
      }
    } else {
      AllFree(o, bidBook, true, SLOTS);
      AllFree(o, askBook, false, SLOTS);
    }
    SortedSide(true, o, bidBook, true);
    SortedSide(false, o, askBook, false);
    SlotsAreOpenOrders(o, bidBook, askBook);
    bids, asks := SortByPrice(true, bids), SortByPrice(false, asks);
  }

  lemma {:induction false} AllFree(o: OpenOrders, book: map<u128, Leaf>, bids: bool, n: nat)
    requires Sized(o) && n <= SLOTS && forall i | 0 <= i < SLOTS :: o.free[i]
    ensures Collected(o, book, bids, n) == []
  {
    if n > 0 {
      AllFree(o, book, bids, n - 1);
    }
  }

  // ---------------------------------------------------------------- batches

  function Ids(orders: seq<Leaf>): (ids: seq<u64>)
    ensures |ids| == |orders|
  {
    seq(|orders|, i requires 0 <= i < |orders| => orders[i].clientOrderId)
  }

  function Zeros(n: nat): (z: seq<u64>)
    ensures |z| == n && forall i | 0 <= i < n :: z[i] == 0
  {
    seq(n, _ => 0)
  }

  /** A list cut into eights, the last one filled up with zeros. */
  function Batches(ids: seq<u64>): seq<seq<u64>> {
    if ids == [] then []
    else if |ids| < BATCH then [ids + Zeros(BATCH - |ids|)]
    else [ids[..BATCH]] + Batches(ids[BATCH..])
  }

  function Padding(ids: seq<u64>): nat {
    (BATCH - |ids| % BATCH) % BATCH
  }

  function Flatten(batches: seq<seq<u64>>): seq<u64> {
    if batches == [] then [] else batches[0] + Flatten(batches[1..])
  }

  lemma {:induction false} BatchCount(ids: seq<u64>)
    ensures BATCH * |Batches(ids)| == |ids| + Padding(ids)
    ensures |Batches(ids)| == (|ids| + BATCH - 1) / BATCH
    ensures forall b <- Batches(ids) :: |b| == BATCH
  {
    if |ids| >= BATCH {
      BatchCount(ids[BATCH..]);
      SamePadding(ids);
    } else if ids != [] {
      ShortPadding(ids);
    }
  }

  /** There are ceil(n / 8) batches of eight, and sent one after the other they are the list itself
      followed by the padding zeros of the last batch. */
  lemma {:induction false} BatchesAreTheList(ids: seq<u64>)
    ensures |Batches(ids)| == (|ids| + 7) / 8
    ensures forall b <- Batches(ids) :: |b| == 8
    ensures Flatten(Batches(ids)) == ids + Zeros(Padding(ids))
  {
    BatchCount(ids);
    if ids == [] {
      assert Zeros(0) == [];
    } else if |ids| < BATCH {
      LastBatch(ids);
    } else {
      var head, rest := ids[..BATCH], ids[BATCH..];
      BatchesAreTheList(rest);
      FlattenCons(head, Batches(rest));
      SamePadding(ids);
      Regroup(ids, Zeros(Padding(rest)));
    }
  }

  lemma LastBatch(ids: seq<u64>)
    requires 0 < |ids| < BATCH
    ensures Flatten(Batches(ids)) == ids + Zeros(Padding(ids))
  {
    ShortPadding(ids);
    FlattenOne(ids + Zeros(BATCH - |ids|));
  }

  lemma ShortPadding(ids: seq<u64>)
    requires 0 < |ids| < BATCH
    ensures Padding(ids) == BATCH - |ids|
  {
  }

  lemma FlattenOne(batch: seq<u64>)
    ensures Flatten([batch]) == batch
  {
    assert [batch][1..] == [];
    assert batch + [] == batch;
  }

  lemma SamePadding(ids: seq<u64>)
    requires |ids| >= BATCH
    ensures Padding(ids[BATCH..]) == Padding(ids)
  {
  }

  lemma Regroup(ids: seq<u64>, z: seq<u64>)
    requires |ids| >= BATCH
    ensures ids[..BATCH] + (ids[BATCH..] + z) == ids + z
  {
  }

  lemma FlattenCons(batch: seq<u64>, rest: seq<seq<u64>>)
    ensures Flatten([batch] + rest) == batch + Flatten(rest)
  {
    assert ([batch] + rest)[1..] == rest;
  }

  /** Each id is sent exactly as often as it occurs in the list, up to zeros. */
  lemma BatchesSendEachOnce(ids: seq<u64>)
    ensures multiset(Flatten(Batches(ids))) == multiset(ids) + multiset(Zeros(Padding(ids)))
  {
    BatchesAreTheList(ids);
  }

  lemma {:induction false} BatchesSnoc(done: seq<u64>, rest: seq<u64>)
    requires |done| % BATCH == 0
    ensures Batches(done + rest) == Batches(done) + Batches(rest)
    decreases |done|
  {
    if done == [] {
      assert done + rest == rest;
    } else {
      BatchesSnoc(done[BATCH..], rest);
      assert (done + rest)[..BATCH] == done[..BATCH] && (done + rest)[BATCH..] == done[BATCH..] + rest;
    }
  }

  /** The state of the filling loops: full batches pushed, the rest in the array, zeros behind. */
  ghost predicate Filling(sent: seq<u64>, pushed: seq<seq<u64>>, orderIds: seq<u64>, count: nat) {
    && count <= |sent| && count <= |orderIds| == BATCH
    && (|sent| - count) % BATCH == 0
    && pushed == Batches(sent[..|sent| - count])
    && orderIds == sent[|sent| - count..] + Zeros(BATCH - count)
  }

  lemma Fill(sent: seq<u64>, pushed: seq<seq<u64>>, orderIds: seq<u64>, count: nat, id: u64)
    requires Filling(sent, pushed, orderIds, count) && count < BATCH
    ensures Filling(sent + [id], pushed, orderIds[count := id], count + 1)
  {
    assert (sent + [id])[..|sent| - count] == sent[..|sent| - count];
    assert (sent + [id])[|sent| - count..] == sent[|sent| - count..] + [id];
  }

  lemma Push(sent: seq<u64>, pushed: seq<seq<u64>>, orderIds: seq<u64>)
    requires Filling(sent, pushed, orderIds, BATCH)
    ensures Filling(sent, pushed + [orderIds], Zeros(BATCH), 0)
  {
    var n := |sent| - BATCH;
    BatchesSnoc(sent[..n], sent[n..]);
    assert sent == sent[..n] + sent[n..] && sent[..|sent|] == sent;
    assert orderIds == sent[n..] && sent[n..][BATCH..] == [];
    assert Batches(sent[n..]) == [orderIds];
  }

  lemma Finish(sent: seq<u64>, pushed: seq<seq<u64>>, orderIds: seq<u64>, count: nat)
    requires Filling(sent, pushed, orderIds, count) && count < BATCH
    ensures (if count != 0 then pushed + [orderIds] else pushed) == Batches(sent)
  {
    var n := |sent| - count;
    BatchesSnoc(sent[..n], sent[n..]);
    assert sent == sent[..n] + sent[n..];
  }

  /** Writes one id into the next free element. */
  method PutId(orderIds: array<u64>, count: nat, id: u64, ghost sent: seq<u64>, ghost pushed: seq<seq<u64>>)
    requires count < BATCH && Filling(sent, pushed, orderIds[..], count)
    modifies orderIds
    ensures Filling(sent + [id], pushed, orderIds[..], count + 1)
  {
    Fill(sent, pushed, orderIds[..], count, id);
    ghost var before := orderIds[..];
    orderIds[count] := id;
    assert orderIds[..] == before[count := id];
  }

  /** Adds the id of order i, unless the list is already used up. */
  method PutNext(orderIds: array<u64>, count: nat, orders: seq<Leaf>, i: nat, ghost sent: seq<u64>,
                 ghost pushed: seq<seq<u64>>)
    returns (count': nat)
    requires Filling(sent, pushed, orderIds[..], count) && (i < |orders| ==> count < BATCH)
    modifies orderIds
    ensures Filling(sent + At(Ids(orders), i), pushed, orderIds[..], count')
    ensures count' == count + |At(Ids(orders), i)|
  {
    count' := count;
    if i < |orders| {
      PutId(orderIds, count, orders[i].clientOrderId, sent, pushed);
      count' := count + 1;
    } else {
      assert sent + [] == sent;
    }
  }

  /** Pushes a full array and starts a new one. */
  method PushFull(orderIds: array<u64>, count: nat, batches: seq<seq<u64>>, ghost sent: seq<u64>)
    returns (orderIds': array<u64>, count': nat, batches': seq<seq<u64>>)
    requires Filling(sent, batches, orderIds[..], count)
    ensures orderIds' == orderIds || fresh(orderIds')
    ensures count' < BATCH && Filling(sent, batches', orderIds'[..], count')
    ensures count % 2 == 0 ==> count' % 2 == 0
  {
    orderIds', count', batches' := orderIds, count, batches;
    if count == BATCH {
      Push(sent, batches, orderIds[..]);
      batches' := batches + [orderIds[..]];
      orderIds' := new u64[BATCH](_ => 0);
      count' := 0;
      assert orderIds'[..] == Zeros(BATCH);
    }
  }

  /** The single-side loop of the swaps and of admin.rs, with its array of eight. */
  method BatchOneSide(orders: seq<Leaf>) returns (batches: seq<seq<u64>>)
    ensures batches == Batches(Ids(orders))
  {
    batches := [];
    var orderIds := new u64[BATCH](_ => 0);
    var count: nat := 0;
    ghost var ids := Ids(orders);
    for i := 0 to |orders|
      invariant fresh(orderIds) && count < BATCH && Filling(ids[..i], batches, orderIds[..], count)
    {
      PutId(orderIds, count, orders[i].clientOrderId, ids[..i], batches);
      assert ids[..i + 1] == ids[..i] + [ids[i]];
      orderIds, count, batches := PushFull(orderIds, count + 1, batches, ids[..i + 1]);
    }
    assert ids[..|orders|] == ids;
    Finish(ids, batches, orderIds[..], count);
    if count != 0 {
      batches := batches + [orderIds[..]];
    }
  }

  /** Bid, ask, bid, ask, ... and what is left of the longer list. */
  function Interleaved(a: seq<u64>, b: seq<u64>): seq<u64>
    decreases |a| + |b|
  {
    if a == [] then b else if b == [] then a else [a[0], b[0]] + Interleaved(a[1..], b[1..])
  }

  function Take(s: seq<u64>, n: nat): seq<u64> {
    if n < |s| then s[..n] else s
  }

  function At(s: seq<u64>, i: nat): seq<u64> {
    if i < |s| then [s[i]] else []
  }

  lemma {:induction false} InterleavedSnoc(a: seq<u64>, b: seq<u64>, i: nat)
    ensures Interleaved(Take(a, i + 1), Take(b, i + 1)) == Interleaved(Take(a, i), Take(b, i)) + At(a, i) + At(b, i)
    decreases |a| + |b|
  {
    if i == 0 {
      InterleavedOnce(At(a, 0), At(b, 0));
      assert Take(a, 1) == At(a, 0) && Take(b, 1) == At(b, 0);
    } else if a == [] || b == [] {
      OneListSnoc(a, b, i);
    } else {
      InterleavedSnoc(a[1..], b[1..], i - 1);
      InterleavedStep(a, b, i);
    }
  }

  lemma OneListSnoc(a: seq<u64>, b: seq<u64>, i: nat)
    requires a == [] || b == []
    ensures Interleaved(Take(a, i + 1), Take(b, i + 1)) == Interleaved(Take(a, i), Take(b, i)) + At(a, i) + At(b, i)
  {
    TakeSnoc(a, i);
    TakeSnoc(b, i);
  }

  lemma InterleavedStep(a: seq<u64>, b: seq<u64>, i: nat)
    requires a != [] && b != [] && i > 0
    requires var (s, t) := (a[1..], b[1..]);
             Interleaved(Take(s, i), Take(t, i))
             == Interleaved(Take(s, i - 1), Take(t, i - 1)) + At(s, i - 1) + At(t, i - 1)
    ensures Interleaved(Take(a, i + 1), Take(b, i + 1)) == Interleaved(Take(a, i), Take(b, i)) + At(a, i) + At(b, i)
  {
    var s, t := a[1..], b[1..];
    TakeTail(a, i);
    TakeTail(b, i);
    InterleavedCons(a[0], b[0], Take(s, i), Take(t, i));
    InterleavedCons(a[0], b[0], Take(s, i - 1), Take(t, i - 1));
    Assoc([a[0], b[0]], Interleaved(Take(s, i - 1), Take(t, i - 1)), At(a, i), At(b, i));
  }

  lemma InterleavedCons(x: u64, y: u64, s: seq<u64>, t: seq<u64>)
    ensures Interleaved([x] + s, [y] + t) == [x, y] + Interleaved(s, t)
  {
    assert ([x] + s)[1..] == s && ([y] + t)[1..] == t;
    if s == [] || t == [] {
      assert Interleaved(s, t) == s + t;
    }
  }

  lemma Assoc(a: seq<u64>, b: seq<u64>, c: seq<u64>, d: seq<u64>)
    ensures a + (b + c + d) == a + b + c + d
  {
  }

  lemma TakeSnoc(s: seq<u64>, i: nat)
    ensures Take(s, i + 1) == Take(s, i) + At(s, i)
  {
  }

  lemma TakeTail(s: seq<u64>, i: nat)
    requires s != [] && i > 0
    ensures Take(s, i + 1) == [s[0]] + Take(s[1..], i)
    ensures Take(s, i) == [s[0]] + Take(s[1..], i - 1)
    ensures At(s, i) == At(s[1..], i - 1)
  {
  }

  lemma InterleavedOnce(a: seq<u64>, b: seq<u64>)
    requires |a| <= 1 && |b| <= 1
    ensures Interleaved(a, b) == a + b
  {
    if a != [] && b != [] {
      assert a[1..] == [] && b[1..] == [];
    }
  }

  lemma {:induction false} InterleavedLength(a: seq<u64>, b: seq<u64>)
    ensures |Interleaved(a, b)| == |a| + |b|
    ensures multiset(Interleaved(a, b)) == multiset(a) + multiset(b)
    decreases |a| + |b|
  {
    if a != [] && b != [] {
      InterleavedLength(a[1..], b[1..]);
      assert a == [a[0]] + a[1..] && b == [b[0]] + b[1..];
    }
  }

  /** The id that belongs at place k: bids at the even places and asks at the odd ones while both last,
      then the rest of the longer side in its order. */
  function IdAt(a: seq<u64>, b: seq<u64>, k: nat): u64
    requires k < |a| + |b|
  {
    var both := if |a| < |b| then |a| else |b|;
    if k < 2 * both then (if k % 2 == 0 then a[k / 2] else b[k / 2])
    else if |a| > |b| then a[k - both]
    else b[k - both]
  }

  lemma {:induction false} InterleavedAt(a: seq<u64>, b: seq<u64>, k: nat)
    requires k < |a| + |b|
    ensures |Interleaved(a, b)| == |a| + |b|
    ensures Interleaved(a, b)[k] == IdAt(a, b, k)
    decreases |a|
  {
    InterleavedLength(a, b);
    if a != [] && b != [] {
      var rest := Interleaved(a[1..], b[1..]);
      if k < 2 {
        FirstTwo(a, b, k);
      } else {
        InterleavedAt(a[1..], b[1..], k - 2);
        IdAtTail(a, b, k);
        assert ([a[0], b[0]] + rest)[k] == rest[k - 2];
      }
    } else {
      OneSideAt(a, b, k);
    }
  }

  lemma FirstTwo(a: seq<u64>, b: seq<u64>, k: nat)
    requires a != [] && b != [] && k < 2
    ensures IdAt(a, b, k) == [a[0], b[0]][k]
  {
  }

  lemma OneSideAt(a: seq<u64>, b: seq<u64>, k: nat)
    requires k < |a| + |b| && (a == [] || b == [])
    ensures IdAt(a, b, k) == Interleaved(a, b)[k]
  {
  }

  lemma IdAtTail(a: seq<u64>, b: seq<u64>, k: nat)
    requires a != [] && b != [] && 2 <= k < |a| + |b|
    ensures IdAt(a, b, k) == IdAt(a[1..], b[1..], k - 2)
  {
    assert (k - 2) / 2 == k / 2 - 1 && (k - 2) % 2 == k % 2;
  }

  /** One turn of the interleaving loop: at most one id of each side, then a push if the array is full. */
  method PutPair(orderIds: array<u64>, count: nat, batches: seq<seq<u64>>, bids: seq<Leaf>, asks: seq<Leaf>, i: nat,
                 ghost sent: seq<u64>)
    returns (orderIds': array<u64>, count': nat, batches': seq<seq<u64>>)
    requires Filling(sent, batches, orderIds[..], count) && count < BATCH
    requires i < |bids| && i < |asks| ==> count % 2 == 0
    modifies orderIds
    ensures orderIds' == orderIds || fresh(orderIds')
    ensures count' < BATCH && Filling(sent + At(Ids(bids), i) + At(Ids(asks), i), batches', orderIds'[..], count')
    ensures i < |bids| && i < |asks| ==> count' % 2 == 0
  {
    var n := PutNext(orderIds, count, bids, i, sent, batches);
    n := PutNext(orderIds, n, asks, i, sent + At(Ids(bids), i), batches);
    orderIds', count', batches' := PushFull(orderIds, n, batches, sent + At(Ids(bids), i) + At(Ids(asks), i));
  }

  /** The interleaving loop of withdraw.rs and helpers.rs.  It never writes past the eighth element:
      the count is even as long as both lists last. */
  method BatchInterleaved(bids: seq<Leaf>, asks: seq<Leaf>) returns (batches: seq<seq<u64>>)
    ensures batches == Batches(Interleaved(Ids(bids), Ids(asks)))
  {
    batches := [];
    var orderIds := new u64[BATCH](_ => 0);
    var count: nat := 0;
    ghost var a, b := Ids(bids), Ids(asks);
    ghost var sent: seq<u64> := [];
    for i := 0 to if |bids| > |asks| then |bids| else |asks|
      invariant sent == Interleaved(Take(a, i), Take(b, i))
      invariant fresh(orderIds) && count < BATCH && Filling(sent, batches, orderIds[..], count)
      invariant i <= |bids| && i <= |asks| ==> count % 2 == 0
    {
      InterleavedSnoc(a, b, i);
      orderIds, count, batches := PutPair(orderIds, count, batches, bids, asks, i, sent);
      sent := sent + At(a, i) + At(b, i);
    }
    Finish(sent, batches, orderIds[..], count);
    if count != 0 {
      batches := batches + [orderIds[..]];
    }
  }

  // ---------------------------------------------------------------- from slots to cancelled ids

  /** The slots below n that lead to an order with this client id. */
  function SlotsWithId(o: OpenOrders, book: map<u128, Leaf>, bids: bool, n: nat, id: u64): set<nat>
    requires Sized(o)
  {
    set i: nat | i < n && Present(o, book, bids, i) && book[o.orders[i]].clientOrderId == id
  }

  lemma IdsConcat(s: seq<Leaf>, t: seq<Leaf>)
    ensures Ids(s + t) == Ids(s) + Ids(t)
  {
  }

  lemma {:induction false} CollectedIds(o: OpenOrders, book: map<u128, Leaf>, bids: bool, n: nat, id: u64)
    requires Sized(o) && n <= SLOTS
    ensures multiset(Ids(Collected(o, book, bids, n)))[id] == |SlotsWithId(o, book, bids, n, id)|
  {
    if n == 0 {
      assert SlotsWithId(o, book, bids, 0, id) == {};
    } else {
      CollectedIds(o, book, bids, n - 1, id);
      IdAdds(o, book, bids, n - 1, id);
      IdSlotAdds(o, book, bids, n - 1, id);
    }
  }

  lemma IdAdds(o: OpenOrders, book: map<u128, Leaf>, bids: bool, n: nat, id: u64)
    requires Sized(o) && n < SLOTS
    ensures multiset(Ids(Collected(o, book, bids, n + 1)))[id]
            == multiset(Ids(Collected(o, book, bids, n)))[id]
               + if Present(o, book, bids, n) && book[o.orders[n]].clientOrderId == id then 1 else 0
  {
    var slot := LeafOf(o, book, bids, n);
    IdsConcat(Collected(o, book, bids, n), slot);
    assert Ids(slot) == if slot == [] then [] else [slot[0].clientOrderId];
  }

  lemma IdSlotAdds(o: OpenOrders, book: map<u128, Leaf>, bids: bool, n: nat, id: u64)
    requires Sized(o) && n < SLOTS
    ensures |SlotsWithId(o, book, bids, n + 1, id)|
            == |SlotsWithId(o, book, bids, n, id)|
               + if Present(o, book, bids, n) && book[o.orders[n]].clientOrderId == id then 1 else 0
  {
    var before := SlotsWithId(o, book, bids, n, id);
    assert SlotsWithId(o, book, bids, n + 1, id)
           == if Present(o, book, bids, n) && book[o.orders[n]].clientOrderId == id then before + {n} else before;
  }

  lemma {:induction false} InsertKeepsIds(falling: bool, x: Leaf, s: seq<Leaf>)
    ensures multiset(Ids(Insert(falling, x, s))) == multiset(Ids(s)) + multiset{x.clientOrderId}
  {
    if s == [] || InOrder(falling, x, s[0]) {
      IdsConcat([x], s);
      assert Ids([x]) == [x.clientOrderId];
    } else {
      InsertKeepsIds(falling, x, s[1..]);
      IdsConcat([s[0]], Insert(falling, x, s[1..]));
      IdsConcat([s[0]], s[1..]);
      assert s == [s[0]] + s[1..];
    }
  }

  lemma {:induction false} SortKeepsIds(falling: bool, s: seq<Leaf>)
    ensures multiset(Ids(SortByPrice(falling, s))) == multiset(Ids(s))
  {
    if s != [] {
      SortKeepsIds(falling, s[1..]);
      InsertKeepsIds(falling, s[0], SortByPrice(falling, s[1..]));
      IdsConcat([s[0]], s[1..]);
      assert s == [s[0]] + s[1..] && Ids([s[0]]) == [s[0].clientOrderId];
    }
  }

  lemma SideIds(falling: bool, o: OpenOrders, book: map<u128, Leaf>, bids: bool, id: u64)
    requires Sized(o)
    ensures multiset(Ids(SortByPrice(falling, Collected(o, book, bids, SLOTS))))[id]
            == |SlotsWithId(o, book, bids, SLOTS, id)|
  {
    SortKeepsIds(falling, Collected(o, book, bids, SLOTS));
    CollectedIds(o, book, bids, SLOTS, id);
  }

  /** What cancelling one side sends: every client id once for each occupied slot of that side whose
      order has it and is in the book, and zeros only as padding. */
  lemma OneSideCancelsOpenOrders(falling: bool, o: OpenOrders, book: map<u128, Leaf>, bids: bool, id: u64)
    requires Sized(o)
    ensures var ids := Ids(SortByPrice(falling, Collected(o, book, bids, SLOTS)));
            multiset(Flatten(Batches(ids)))[id]
            == |if bids then OpenBidsWithId(o, book, id) else OpenAsksWithId(o, book, id)|
               + (if id == 0 then Padding(ids) else 0)
  {
    var ids := Ids(SortByPrice(falling, Collected(o, book, bids, SLOTS)));
    BatchesSendEachOnce(ids);
    ZerosCount(Padding(ids), id);
    SideIds(falling, o, book, bids, id);
    IdSlots(o, book, bids, id);
  }

  /** The occupied slots marked as bids, and those not marked, whose order has this client id. */
  function OpenBidsWithId(o: OpenOrders, book: map<u128, Leaf>, id: u64): set<nat>
    requires Sized(o)
  {
    set i: nat | i < 128 && !o.free[i] && o.isBid[i] && o.orders[i] in book && book[o.orders[i]].clientOrderId == id
  }

  function OpenAsksWithId(o: OpenOrders, book: map<u128, Leaf>, id: u64): set<nat>
    requires Sized(o)
  {
    set i: nat | i < 128 && !o.free[i] && !o.isBid[i] && o.orders[i] in book && book[o.orders[i]].clientOrderId == id
  }

  lemma IdSlots(o: OpenOrders, book: map<u128, Leaf>, bids: bool, id: u64)
    requires Sized(o)
    ensures SlotsWithId(o, book, bids, SLOTS, id)
            == if bids then OpenBidsWithId(o, book, id) else OpenAsksWithId(o, book, id)
  {
  }

  /** What cancelling both sides in turn sends: every client id once for each occupied slot of either
      side whose order has it and is in its book, and zeros only as padding. */
  lemma BothSidesCancelOpenOrders(o: OpenOrders, bidBook: map<u128, Leaf>, askBook: map<u128, Leaf>, id: u64)
    requires Sized(o)
    ensures var bids := SortByPrice(true, Collected(o, bidBook, true, SLOTS));
            var asks := SortByPrice(false, Collected(o, askBook, false, SLOTS));
            var ids := Interleaved(Ids(bids), Ids(asks));
            multiset(Flatten(Batches(ids)))[id]
            == |OpenBidsWithId(o, bidBook, id)| + |OpenAsksWithId(o, askBook, id)|
               + (if id == 0 then Padding(ids) else 0)
  {
    var bids := SortByPrice(true, Collected(o, bidBook, true, SLOTS));
    var asks := SortByPrice(false, Collected(o, askBook, false, SLOTS));
    var ids := Interleaved(Ids(bids), Ids(asks));
    BatchesSendEachOnce(ids);
    ZerosCount(Padding(ids), id);
    InterleavedLength(Ids(bids), Ids(asks));
    SideIds(true, o, bidBook, true, id);
    SideIds(false, o, askBook, false, id);
    IdSlots(o, bidBook, true, id);
    IdSlots(o, askBook, false, id);
  }

  lemma {:induction false} ZerosCount(n: nat, id: u64)
    ensures multiset(Zeros(n))[id] == if id == 0 then n else 0
  {
    if n > 0 {
      ZerosCount(n - 1, id);
      assert Zeros(n) == Zeros(n - 1) + [0];
    }
  }
}
