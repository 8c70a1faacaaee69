/** The orderbook module over its storage: the calls that change it in place, and the loops over the open index. */
module OrderbookModule {
  import opened Arithmetic
  import opened Options
  import opened Quotes
  import opened Orderbook
  import opened OrderbookEffects

  /** No slot holds an explicit zero. */
  ghost predicate Canonical<K>(m: map<K, nat>) {
    forall k <- m.Keys :: m[k] != 0
  }

  /** At least as good: a better price, or the same price and no later id. */
  predicate AsGood(preferHigh: bool, price: nat, id: nat, otherPrice: nat, otherId: nat) {
    if price == otherPrice then id <= otherId else preferHigh == (price > otherPrice)
  }

  class Module {
    var orders: seq<Order>
    var openCount: map<Address, nat>
    var escrowQ: map<Address, nat>
    var escrowB: map<Vault, nat>
    var index: map<Market, seq<nat>>

    constructor ()
      ensures State() == EmptyBook && Valid()
    {
      orders, openCount, escrowQ, escrowB, index := [], map[], map[], map[], map[];
    }

    ghost function State(): Book
      reads this
    {
      Book(orders, openCount, escrowQ, escrowB, index)
    }

    ghost predicate Valid()
      reads this
    {
      Canonical(openCount)
    }

    method AddOpenIndex(at: Market, id: nat)
      modifies this`index
      ensures index == old(index)[at := Ids(old(index), at) + [id]]
    {
      index := index[at := (if at in index then index[at] else []) + [id]];
    }

    /** Overwrites the entry with the last one and drops the last; does nothing when the id is not there. */
    method RemoveOpenIndex(at: Market, id: nat)
      modifies this`index
      ensures index == Unindex(old(index), at, id)
    {
      if at !in index { return; }
      var ids := index[at];
      var n := |ids|;
      for i := 0 to n
        invariant index == old(index)
        invariant Position(ids, id) == Position(ids[i..], id) + i
      {
        assert ids[i..][1..] == ids[i + 1..];
        if ids[i] == id {
          if i != n - 1 {
            ids := ids[i := ids[n - 1]];
          }
          assert ids[..n - 1] == SwapRemove(index[at], id);
          index := index[at := ids[..n - 1]];
          return;
        }
      }
      assert index[at := ids] == index;
    }

    method IncOpenCount(maker: Address) returns (ok: bool)
      requires Valid()
      modifies this`openCount
      ensures Valid()
      ensures ok <==> Slot(old(openCount), maker) < MaxOpenPerMaker
      ensures openCount == if ok then Put(old(openCount), maker, Slot(old(openCount), maker) + 1) else old(openCount)
    {
      var n := Slot(openCount, maker);
      if n >= MaxOpenPerMaker { return false; }
      openCount := Put(openCount, maker, n + 1);
      return true;
    }

    method DecOpenCount(maker: Address)
      requires Valid()
      modifies this`openCount
      ensures Valid()
      ensures openCount == Uncount(old(openCount), maker)
    {
      var n := Slot(openCount, maker);
      if n == 0 { return; }
      openCount := Put(openCount, maker, n - 1);
    }

    /** Checks the arguments, then counts the order. */
    method ValidatePlace(maker: Address, price: nat, base: nat) returns (error: Option<Error>)
      requires Valid()
      modifies this`openCount
      ensures Valid()
      ensures error == CheckPlace(old(State()), maker, price, base)
      ensures openCount ==
        if error.None? then Put(old(openCount), maker, Slot(old(openCount), maker) + 1) else old(openCount)
    {
      if maker == 0 { return Some(ZeroMaker); }
      if price == 0 { return Some(ZeroPrice); }
      if base == 0 { return Some(ZeroBase); }
      var ok := IncOpenCount(maker);
      return if ok then None else Some(TooManyOpen);
    }

    /** Counting an order and uncounting it again leaves the counts as they were. */
    lemma CountUndone(count: map<Address, nat>, maker: Address)
      requires Canonical(count)
      ensures Uncount(Put(count, maker, Slot(count, maker) + 1), maker) == count
    {
    }

    method PlaceBuy(maker: Address, token: Address, price: nat, base: nat, block: nat)
      returns (error: Option<Error>, id: nat, lock: nat)
      requires Valid()
      modifies this
      ensures Valid()
      ensures
        match Orderbook.PlaceBuy(old(State()), maker, token, price, base, block)
        case Failed(e) => error == Some(e) && State() == old(State())
        case Done(b, receipt) => error == None && State() == b && receipt == Receipt(id, lock)
      ensures error.None? ==>
        BuyPlaced(old(State()), State(), Receipt(id, lock), Order(maker, token, Buy, price, base, base, block, Open))
      ensures Sound(old(State())) && Slot(old(escrowQ), maker) + Ceil(base, price) < TwoTo256 ==> Sound(State())
    {
      hide Sound, Ceil, QuoteLockCeil, Add256, BuyPlaced, MayPlace, Cut;
      BuyEffect(State(), maker, token, price, base, block);
      if Sound(State()) && Slot(escrowQ, maker) + Ceil(base, price) < TwoTo256 &&
         Orderbook.PlaceBuy(State(), maker, token, price, base, block).Done? {
        PlaceBuySound(State(), maker, token, price, base, block);
      }
      id, lock := 0, 0;
      error := ValidatePlace(maker, price, base);
      if error.Some? { return; }
      CountUndone(old(openCount), maker);
      if token == 0 {
        DecOpenCount(maker);
        return Some(ZeroToken), 0, 0;
      }
      lock := QuoteLockCeil(base, price);
      if lock == 0 {
        DecOpenCount(maker);
        return Some(ZeroLock), 0, 0;
      }
      id := |orders| + 1;
      orders := orders + [Order(maker, token, Buy, price, base, base, block, Open)];
      escrowQ := Put(escrowQ, maker, Add256(Slot(escrowQ, maker), lock));
      AddOpenIndex(Market(token, Buy), id);
    }

    method PlaceSell(maker: Address, token: Address, price: nat, base: nat, block: nat)
      returns (error: Option<Error>, id: nat)
      requires Valid()
      modifies this
      ensures Valid()
      ensures
        match Orderbook.PlaceSell(old(State()), maker, token, price, base, block)
        case Failed(e) => error == Some(e) && State() == old(State())
        case Done(b, receipt) => error == None && State() == b && receipt.id == id
      ensures error.None? ==>
        SellPlaced(old(State()), State(), id, Order(maker, token, Sell, price, base, base, block, Open))
      ensures Sound(old(State())) && Slot(old(escrowB), Vault(maker, token)) + base < TwoTo256 ==> Sound(State())
    {
      hide Sound, Add256, SellPlaced, MayPlace;
      SellEffect(State(), maker, token, price, base, block);
      if Sound(State()) && Slot(escrowB, Vault(maker, token)) + base < TwoTo256 &&
         Orderbook.PlaceSell(State(), maker, token, price, base, block).Done? {
        PlaceSellSound(State(), maker, token, price, base, block);
      }
      id := 0;
      error := ValidatePlace(maker, price, base);
      if error.Some? { return; }
      CountUndone(old(openCount), maker);
      if token == 0 {
        DecOpenCount(maker);
        return Some(ZeroToken), 0;
      }
      id := |orders| + 1;
      orders := orders + [Order(maker, token, Sell, price, base, base, block, Open)];
      escrowB := Put(escrowB, Vault(maker, token), Add256(Slot(escrowB, Vault(maker, token)), base));
      AddOpenIndex(Market(token, Sell), id);
    }

    /** Writes an order with less open; with nothing left it is closed, uncounted and taken off the index. */
    method Reduce(id: nat, left: nat, closed: Status)
      requires Valid() && 0 < id <= |orders|
      modifies this`orders, this`openCount, this`index
      ensures Valid()
      ensures State() == Shrink(old(State()), id, left, closed)
    {
      var o := orders[id - 1];
      if left == 0 {
        DecOpenCount(o.maker);
        RemoveOpenIndex(Market(o.token, o.side), id);
        o := o.(status := closed);
      }
      orders := orders[id - 1 := o.(baseOpen := left)];
    }

    method Cancel(actor: Address, id: nat) returns (error: Option<Error>, quote: nat, base: nat)
      requires Valid()
      modifies this
      ensures Valid()
      ensures
        match Orderbook.Cancel(old(State()), actor, id)
        case Failed(e) => error == Some(e) && State() == old(State())
        case Done(b, refund) => error == None && State() == b && refund == Refund(quote, base)
      ensures error.None? ==>
        && 0 < id <= |old(orders)| && old(orders)[id - 1].status == Open && old(orders)[id - 1].maker == actor
        && Left(old(State()), State(), id, old(orders)[id - 1], 0, Cancelled)
        && Taken(old(State()), State(), old(orders)[id - 1], quote, base)
      ensures Sound(old(State())) ==> Sound(State()) && error != Some(BaseUnderflow)
    {
      hide Sound, Put, Slot, Uncount, Unindex, QuoteLockCeil, Left, Taken;
      if Sound(State()) {
        CancelKeepsSound(State(), actor, id);
      }
      if Orderbook.Cancel(State(), actor, id).Done? {
        CancelEffect(State(), actor, id);
      }
      error, quote, base := None, 0, 0;
      if id == 0 || id > |orders| { return Some(NotFound), 0, 0; }
      var o := orders[id - 1];
      if o.status != Open { return Some(NotOpen), 0, 0; }
      if o.maker != actor { return Some(NotMaker), 0, 0; }
      if o.side == Buy {
        var held := Slot(escrowQ, o.maker);
        quote := QuoteLockCeil(o.baseOpen, o.price);
        if quote > held {
          quote := held;
        }
        escrowQ := Put(escrowQ, o.maker, held - quote);
      } else {
        var at := Vault(o.maker, o.token);
        var held := Slot(escrowB, at);
        if held < o.baseOpen { return Some(BaseUnderflow), 0, 0; }
        base := o.baseOpen;
        escrowB := Put(escrowB, at, held - base);
      }
      Reduce(id, 0, Cancelled);
    }

    method Fill(taker: Address, id: nat, maxBase: nat) returns (error: Option<Error>, part: nat, paid: nat)
      requires Valid()
      modifies this
      ensures Valid()
      ensures
        match Orderbook.Fill(old(State()), taker, id, maxBase)
        case Failed(e) => error == Some(e) && State() == old(State())
        case Done(b, trade) => error == None && State() == b && trade == Trade(part, paid)
      ensures error.None? ==>
        && 0 < id <= |old(orders)| && old(orders)[id - 1].status == Open
        && Traded(old(orders)[id - 1], maxBase, Trade(part, paid))
        && Left(old(State()), State(), id, old(orders)[id - 1], old(orders)[id - 1].baseOpen - part, Filled)
        && Taken(old(State()), State(), old(orders)[id - 1], paid, part)
      ensures Sound(old(State())) ==> Sound(State()) && error != Some(QuoteUnderflow) && error != Some(BaseUnderflow)
    {
      hide Sound, Put, Slot, Uncount, Unindex, QuoteFloor, Left, Taken;
      if Sound(State()) {
        FillKeepsSound(State(), taker, id, maxBase);
      }
      if Orderbook.Fill(State(), taker, id, maxBase).Done? {
        FillEffect(State(), taker, id, maxBase);
      }
      error, part, paid := None, 0, 0;
      if taker == 0 { return Some(ZeroTaker), 0, 0; }
      if maxBase == 0 { return Some(ZeroFill), 0, 0; }
      if id == 0 || id > |orders| { return Some(NotFound), 0, 0; }
      var o := orders[id - 1];
      if o.status != Open { return Some(NotOpen), 0, 0; }
      part := maxBase;
      if part > o.baseOpen {
        part := o.baseOpen;
      }
      paid := QuoteFloor(part, o.price);
      if o.side == Buy {
        var held := Slot(escrowQ, o.maker);
        if held < paid { return Some(QuoteUnderflow), 0, 0; }
        escrowQ := Put(escrowQ, o.maker, held - paid);
      } else {
        var at := Vault(o.maker, o.token);
        var held := Slot(escrowB, at);
        if held < part { return Some(BaseUnderflow), 0, 0; }
        escrowB := Put(escrowB, at, held - part);
      }
      Reduce(id, o.baseOpen - part, Filled);
    }

    /** One pass over the open index. */
    method Best(at: Market, preferHigh: bool) returns (price: nat, id: nat, ok: bool)
      requires IndexMatches(orders, index)
      ensures ok <==> exists j: nat :: Listed(orders, at, j)
      ensures ok ==> Listed(orders, at, id) && price == orders[id - 1].price
      ensures ok ==> forall j: nat :: Listed(orders, at, j) ==> AsGood(preferHigh, price, id, orders[j - 1].price, j)
    {
      var ids := Ids(index, at);
      assert Indexes(orders, ids, at);
      assert forall k | 0 <= k < |ids| :: ids[k] in ids && Listed(orders, at, ids[k]);
      price, id, ok := 0, 0, false;
      for i := 0 to |ids|
        invariant ok <==> i > 0
        invariant ok ==> Listed(orders, at, id) && price == orders[id - 1].price
        invariant ok ==> forall k | 0 <= k < i ::
          Listed(orders, at, ids[k]) && AsGood(preferHigh, price, id, orders[ids[k] - 1].price, ids[k])
      {
        var oid := ids[i];
        assert Listed(orders, at, oid);
        if oid == 0 || oid > |orders| || orders[oid - 1].status != Open {
          assert false;
          continue;
        }
        var o := orders[oid - 1];
        if !ok || (if preferHigh then o.price > price else o.price < price) || (o.price == price && oid < id) {
          price, id, ok := o.price, oid, true;
        }
      }
      forall j: nat | Listed(orders, at, j) ensures |ids| > 0 && AsGood(preferHigh, price, id, orders[j - 1].price, j) {
        assert j in ids;
        var k :| 0 <= k < |ids| && ids[k] == j;
      }
    }

    /** The highest price of an open buy, at the earliest id that offers it. */
    method BestBid(token: Address) returns (price: nat, id: nat, ok: bool)
      requires IndexMatches(orders, index)
      ensures ok <==> exists j: nat :: Listed(orders, Market(token, Buy), j)
      ensures ok ==> Listed(orders, Market(token, Buy), id) && price == orders[id - 1].price
      ensures ok ==> forall j: nat :: Listed(orders, Market(token, Buy), j) ==>
        orders[j - 1].price < price || (orders[j - 1].price == price && id <= j)
    {
      price, id, ok := Best(Market(token, Buy), true);
    }

    /** The lowest price of an open sell, at the earliest id that offers it. */
    method BestAsk(token: Address) returns (price: nat, id: nat, ok: bool)
      requires IndexMatches(orders, index)
      ensures ok <==> exists j: nat :: Listed(orders, Market(token, Sell), j)
      ensures ok ==> Listed(orders, Market(token, Sell), id) && price == orders[id - 1].price
      ensures ok ==> forall j: nat :: Listed(orders, Market(token, Sell), j) ==>
        price < orders[j - 1].price || (orders[j - 1].price == price && id <= j)
    {
      price, id, ok := Best(Market(token, Sell), false);
    }
  }
}
