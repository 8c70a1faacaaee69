/**
 The limit orderbook as operations on values: placing, cancelling and filling orders, quote and base escrow,
 open-order counts and the swap-remove index of open orders.

 The order with id n is `orders[n - 1]`. A storage slot holding zero is absent from its map.
 */
module Orderbook {
  import opened Arithmetic
  import opened Options
  import opened Quotes

  /** 0 is the zero address. */
  type Address = nat

  const MaxOpenPerMaker: nat := 64

  datatype Side = Buy | Sell

  datatype Status = Open | Filled | Cancelled

  datatype Order = Order(maker: Address, token: Address, side: Side, price: nat, baseOpen: nat, baseOrig: nat,
    createdAt: nat, status: Status)

  datatype Market = Market(token: Address, side: Side)

  datatype Vault = Vault(maker: Address, token: Address)

  datatype Book = Book(
    orders: seq<Order>,
    openCount: map<Address, nat>,
    escrowQ: map<Address, nat>,
    escrowB: map<Vault, nat>,
    index: map<Market, seq<nat>>)

  datatype Error =
    | ZeroMaker | ZeroPrice | ZeroBase | TooManyOpen | ZeroToken | ZeroLock
    | NotFound | NotOpen | NotMaker | ZeroTaker | ZeroFill | QuoteUnderflow | BaseUnderflow

  /** A failed call leaves the book as it was. */
  datatype Outcome<T> = Done(book: Book, value: T) | Failed(error: Error)

  datatype Receipt = Receipt(id: nat, lock: nat)

  datatype Refund = Refund(quote: nat, base: nat)

  datatype Trade = Trade(base: nat, quote: nat)

  /* ---------- slots ---------- */

  function Slot<K>(m: map<K, nat>, k: K): nat {
    if k in m then m[k] else 0
  }

  function Put<K>(m: map<K, nat>, k: K, v: nat): map<K, nat> {
    if v == 0 then m - {k} else m[k := v]
  }

  function Ids(index: map<Market, seq<nat>>, at: Market): seq<nat> {
    if at in index then index[at] else []
  }

  function GetOrder(b: Book, id: nat): Option<Order> {
    if id == 0 || id > |b.orders| then None else Some(b.orders[id - 1])
  }

  /* ---------- the open index ---------- */

  /** The first position of id, or the length. */
  function Position(ids: seq<nat>, id: nat): (i: nat)
    ensures i <= |ids|
  {
    if ids == [] || ids[0] == id then 0 else Position(ids[1..], id) + 1
  }

  lemma {:induction false} PositionIsFirst(ids: seq<nat>, id: nat)
    ensures Position(ids, id) < |ids| ==> ids[Position(ids, id)] == id
    ensures id !in ids[..Position(ids, id)]
    decreases |ids|
  {
    if ids != [] && ids[0] != id {
      PositionIsFirst(ids[1..], id);
      var i := Position(ids, id);
      assert ids[..i] == [ids[0]] + ids[1..][..i - 1];
    }
  }

  function SwapRemove(ids: seq<nat>, id: nat): seq<nat> {
    var i := Position(ids, id);
    if i == |ids| then ids else ids[i := ids[|ids| - 1]][..|ids| - 1]
  }

  function Unindex(index: map<Market, seq<nat>>, at: Market, id: nat): map<Market, seq<nat>> {
    if at in index then index[at := SwapRemove(index[at], id)] else index
  }

  /* ---------- operations ---------- */

  function CheckPlace(b: Book, maker: Address, price: nat, base: nat): Option<Error> {
    if maker == 0 then Some(ZeroMaker)
    else if price == 0 then Some(ZeroPrice)
    else if base == 0 then Some(ZeroBase)
    else if Slot(b.openCount, maker) >= MaxOpenPerMaker then Some(TooManyOpen)
    else None
  }

  /** The order is written, counted and indexed. */
  function Record(b: Book, o: Order): Book {
    var at := Market(o.token, o.side);
    b.(orders := b.orders + [o],
       openCount := Put(b.openCount, o.maker, Slot(b.openCount, o.maker) + 1),
       index := b.index[at := Ids(b.index, at) + [|b.orders| + 1]])
  }

  function PlaceBuy(b: Book, maker: Address, token: Address, price: nat, base: nat, block: nat): Outcome<Receipt> {
    var e := CheckPlace(b, maker, price, base);
    if e.Some? then Failed(e.value)
    else if token == 0 then Failed(ZeroToken)
    else
      var lock := QuoteLockCeil(base, price);
      if lock == 0 then Failed(ZeroLock) else
      var r := Record(b, Order(maker, token, Buy, price, base, base, block, Open));
      Done(r.(escrowQ := Put(b.escrowQ, maker, Add256(Slot(b.escrowQ, maker), lock))), Receipt(|b.orders| + 1, lock))
  }

  function PlaceSell(b: Book, maker: Address, token: Address, price: nat, base: nat, block: nat): Outcome<Receipt> {
    var e := CheckPlace(b, maker, price, base);
    if e.Some? then Failed(e.value)
    else if token == 0 then Failed(ZeroToken)
    else
      var at := Vault(maker, token);
      var r := Record(b, Order(maker, token, Sell, price, base, base, block, Open));
      Done(r.(escrowB := Put(b.escrowB, at, Add256(Slot(b.escrowB, at), base))), Receipt(|b.orders| + 1, base))
  }

  /** Lowers the open count, which stays at zero when it is zero. */
  function Uncount(openCount: map<Address, nat>, maker: Address): map<Address, nat> {
    var n := Slot(openCount, maker);
    if n == 0 then openCount else Put(openCount, maker, n - 1)
  }

  /** Writes the order back with less open; an order with nothing left is closed, uncounted and taken off the index. */
  function Shrink(b: Book, id: nat, left: nat, closed: Status): Book
    requires 0 < id <= |b.orders|
  {
    var o := b.orders[id - 1];
    if left == 0 then
      b.(orders := b.orders[id - 1 := o.(baseOpen := 0, status := closed)],
         openCount := Uncount(b.openCount, o.maker),
         index := Unindex(b.index, Market(o.token, o.side), id))
    else b.(orders := b.orders[id - 1 := o.(baseOpen := left)])
  }

  function Cancel(b: Book, actor: Address, id: nat): Outcome<Refund> {
    var found := GetOrder(b, id);
    if found.None? then Failed(NotFound) else
    var o := found.value;
    if o.status != Open then Failed(NotOpen)
    else if o.maker != actor then Failed(NotMaker)
    else if o.side == Buy then
      var held := Slot(b.escrowQ, o.maker);
      var q := if QuoteLockCeil(o.baseOpen, o.price) > held then held else QuoteLockCeil(o.baseOpen, o.price);
      Done(Shrink(b, id, 0, Cancelled).(escrowQ := Put(b.escrowQ, o.maker, held - q)), Refund(q, 0))
    else
      var at := Vault(o.maker, o.token);
      var held := Slot(b.escrowB, at);
      if held < o.baseOpen then Failed(BaseUnderflow) else
      Done(Shrink(b, id, 0, Cancelled).(escrowB := Put(b.escrowB, at, held - o.baseOpen)), Refund(0, o.baseOpen))
  }

  function Fill(b: Book, taker: Address, id: nat, maxBase: nat): Outcome<Trade> {
    if taker == 0 then Failed(ZeroTaker)
    else if maxBase == 0 then Failed(ZeroFill)
    else
      var found := GetOrder(b, id);
      if found.None? then Failed(NotFound) else
      var o := found.value;
      if o.status != Open then Failed(NotOpen) else
      var part := if maxBase > o.baseOpen then o.baseOpen else maxBase;
      var paid := QuoteFloor(part, o.price);
      var shrunk := Shrink(b, id, o.baseOpen - part, Filled);
      if o.side == Buy then
        var held := Slot(b.escrowQ, o.maker);
        if held < paid then Failed(QuoteUnderflow) else
        Done(shrunk.(escrowQ := Put(b.escrowQ, o.maker, held - paid)), Trade(part, paid))
      else
        var at := Vault(o.maker, o.token);
        var held := Slot(b.escrowB, at);
        if held < part then Failed(BaseUnderflow) else
        Done(shrunk.(escrowB := Put(b.escrowB, at, held - part)), Trade(part, paid))
  }

  /* ---------- totals over all orders ---------- */

  /** The quote locked by a maker's open buys, the base held for open sells, the number of open orders. */
  datatype Measure = Locked(maker: Address) | Held(vault: Vault) | OpenOf(maker: Address)

  ghost function Amount(q: Measure, o: Order): nat {
    if o.status != Open then 0 else
    match q
    case Locked(m) => if o.maker == m && o.side == Buy then Ceil(o.baseOpen, o.price) else 0
    case Held(v) => if Vault(o.maker, o.token) == v && o.side == Sell then o.baseOpen else 0
    case OpenOf(m) => if o.maker == m then 1 else 0
  }

  ghost function Total(orders: seq<Order>, q: Measure): nat {
    if orders == [] then 0 else Total(orders[..|orders| - 1], q) + Amount(q, orders[|orders| - 1])
  }

  lemma TotalAppend(orders: seq<Order>, o: Order, q: Measure)
    ensures Total(orders + [o], q) == Total(orders, q) + Amount(q, o)
  {
    assert (orders + [o])[..|orders|] == orders;
  }

  lemma {:induction false} TotalUpdate(orders: seq<Order>, k: nat, o: Order, q: Measure)
    requires k < |orders|
    ensures Total(orders[k := o], q) == Total(orders, q) - Amount(q, orders[k]) + Amount(q, o)
    ensures Amount(q, orders[k]) <= Total(orders, q)
  {
    var n := |orders| - 1;
    if k == n {
      assert orders[k := o][..n] == orders[..n];
    } else {
      assert orders[k := o][..n] == orders[..n][k := o];
      TotalUpdate(orders[..n], k, o, q);
    }
  }

  /* ---------- what every book keeps ---------- */

  /** An order is open exactly while some of it is left. */
  predicate OrderOk(o: Order) {
    && o.maker != 0 && o.token != 0 && o.price > 0 && o.baseOpen <= o.baseOrig
    && (o.status == Open <==> o.baseOpen > 0)
  }

  ghost predicate OrdersOk(orders: seq<Order>) {
    forall o <- orders :: OrderOk(o)
  }

  ghost predicate CountsMatch(orders: seq<Order>, openCount: map<Address, nat>) {
    forall m: Address :: Slot(openCount, m) == Total(orders, OpenOf(m)) && Slot(openCount, m) <= MaxOpenPerMaker
  }

  /** Every maker's quote escrow covers what its open buys may still have to pay. */
  ghost predicate QuoteSolvent(orders: seq<Order>, escrowQ: map<Address, nat>) {
    forall m: Address :: Total(orders, Locked(m)) <= Slot(escrowQ, m) < TwoTo256
  }

  ghost predicate BaseExact(orders: seq<Order>, escrowB: map<Vault, nat>) {
    forall v: Vault :: Slot(escrowB, v) == Total(orders, Held(v)) && Slot(escrowB, v) < TwoTo256
  }

  predicate Listed(orders: seq<Order>, at: Market, id: nat) {
    0 < id <= |orders| && orders[id - 1].status == Open && Market(orders[id - 1].token, orders[id - 1].side) == at
  }

  ghost predicate NoDuplicates(ids: seq<nat>) {
    forall i, j | 0 <= i < j < |ids| :: ids[i] != ids[j]
  }

  /** The list of a market holds the ids of its open orders, each once. */
  ghost predicate Indexes(orders: seq<Order>, ids: seq<nat>, at: Market) {
    && NoDuplicates(ids)
    && (forall id: nat :: id in ids <==> Listed(orders, at, id))
  }

  ghost predicate IndexMatches(orders: seq<Order>, index: map<Market, seq<nat>>) {
    forall at: Market :: Indexes(orders, Ids(index, at), at)
  }

  ghost predicate Sound(b: Book) {
    && OrdersOk(b.orders)
    && CountsMatch(b.orders, b.openCount)
    && QuoteSolvent(b.orders, b.escrowQ)
    && BaseExact(b.orders, b.escrowB)
    && IndexMatches(b.orders, b.index)
  }

  const EmptyBook := Book([], map[], map[], map[], map[])

  lemma EmptyIsSound()
    ensures Sound(EmptyBook)
  {
  }

  /* ---------- placing ---------- */

  lemma RecordKeepsCounts(b: Book, o: Order)
    requires CountsMatch(b.orders, b.openCount) && o.status == Open && Slot(b.openCount, o.maker) < MaxOpenPerMaker
    ensures CountsMatch(Record(b, o).orders, Record(b, o).openCount)
  {
    forall m: Address ensures Slot(Record(b, o).openCount, m) == Total(Record(b, o).orders, OpenOf(m)) {
      TotalAppend(b.orders, o, OpenOf(m));
    }
  }

  lemma RecordKeepsIndex(b: Book, o: Order)
    requires IndexMatches(b.orders, b.index) && o.status == Open
    ensures IndexMatches(Record(b, o).orders, Record(b, o).index)
  {
    var r := Record(b, o);
    forall at: Market ensures Indexes(r.orders, Ids(r.index, at), at) {
      assert Indexes(b.orders, Ids(b.index, at), at);
      assert !Listed(b.orders, at, |b.orders| + 1);
      forall id: nat ensures id in Ids(r.index, at) <==> Listed(r.orders, at, id) {
        assert id in Ids(b.index, at) <==> Listed(b.orders, at, id);
      }
    }
  }

  /** Adding an amount to a 256-bit slot that covers a total covers both exactly when nothing is cut off. */
  lemma CutSum(total: nat, held: nat, exact: nat, cut: nat)
    requires total <= held < TwoTo256
    requires cut < TwoTo256 && (exact < TwoTo256 ==> cut == exact)
    ensures total + exact <= Add256(held, cut) <==> held + exact < TwoTo256
    ensures held + exact < TwoTo256 ==> Add256(held, cut) == held + exact
  {
    if exact < TwoTo256 <= held + exact {
      Add256Wraps(held, cut);
    }
  }

  lemma AppendSolventExactly(orders: seq<Order>, escrowQ: map<Address, nat>, o: Order, lock: nat)
    requires QuoteSolvent(orders, escrowQ) && o.status == Open && o.side == Buy
    requires lock < TwoTo256 && (Ceil(o.baseOpen, o.price) < TwoTo256 ==> lock == Ceil(o.baseOpen, o.price))
    ensures QuoteSolvent(orders + [o], Put(escrowQ, o.maker, Add256(Slot(escrowQ, o.maker), lock)))
            <==> Slot(escrowQ, o.maker) + Ceil(o.baseOpen, o.price) < TwoTo256
  {
    var held, exact := Slot(escrowQ, o.maker), Ceil(o.baseOpen, o.price);
    var sum := Add256(held, lock);
    var escrow' := Put(escrowQ, o.maker, sum);
    assert Total(orders, Locked(o.maker)) <= held < TwoTo256;
    CutSum(Total(orders, Locked(o.maker)), held, exact, lock);
    TotalAppend(orders, o, Locked(o.maker));
    if held + exact < TwoTo256 {
      forall m: Address ensures Total(orders + [o], Locked(m)) <= Slot(escrow', m) < TwoTo256 {
        TotalAppend(orders, o, Locked(m));
        assert Total(orders, Locked(m)) <= Slot(escrowQ, m) < TwoTo256;
      }
    } else {
      assert Slot(escrow', o.maker) == sum;
      assert !(Total(orders + [o], Locked(o.maker)) <= Slot(escrow', o.maker));
    }
  }

  /**
   Given a solvent book, a buy keeps it solvent exactly when the maker's escrow with the exact lock fits in 256 bits.
   */
  lemma BuySolventExactly(b: Book, maker: Address, token: Address, price: nat, base: nat, block: nat)
    requires QuoteSolvent(b.orders, b.escrowQ)
    requires PlaceBuy(b, maker, token, price, base, block).Done?
    ensures
      var b' := PlaceBuy(b, maker, token, price, base, block).book;
      QuoteSolvent(b'.orders, b'.escrowQ) <==> Slot(b.escrowQ, maker) + Ceil(base, price) < TwoTo256
  {
    var o := Order(maker, token, Buy, price, base, base, block, Open);
    FitsUncut(base, price);
    AppendSolventExactly(b.orders, b.escrowQ, o, QuoteLockCeil(base, price));
  }

  /** A buy whose exact lock does not fit is accepted with a smaller lock, and its maker cannot pay for it. */
  lemma CutLockIsInsolvent()
    ensures
      var r := PlaceBuy(EmptyBook, 1, 1, 2 * E18, TwoTo256 - 1, 0);
      r.Done? && !QuoteSolvent(r.book.orders, r.book.escrowQ)
  {
    var base := TwoTo256 - 1;
    assert Ceil(base, 2 * E18) == 2 * base;
    DivModUnique(2 * base, TwoTo256, 1, TwoTo256 - 2);
    assert QuoteLockCeil(base, 2 * E18) == TwoTo256 - 2;
    EmptyIsSound();
    BuySolventExactly(EmptyBook, 1, 1, 2 * E18, base, 0);
  }

  lemma AppendExactExactly(orders: seq<Order>, escrowB: map<Vault, nat>, o: Order)
    requires BaseExact(orders, escrowB) && o.status == Open && o.side == Sell
    ensures BaseExact(orders + [o],
                      Put(escrowB, Vault(o.maker, o.token), Add256(Slot(escrowB, Vault(o.maker, o.token)), o.baseOpen)))
            <==> Slot(escrowB, Vault(o.maker, o.token)) + o.baseOpen < TwoTo256
  {
    var at := Vault(o.maker, o.token);
    var held := Slot(escrowB, at);
    var sum := Add256(held, o.baseOpen);
    var escrow' := Put(escrowB, at, sum);
    assert held == Total(orders, Held(at)) && held < TwoTo256;
    TotalAppend(orders, o, Held(at));
    if held + o.baseOpen < TwoTo256 {
      forall v: Vault ensures Slot(escrow', v) == Total(orders + [o], Held(v)) && Slot(escrow', v) < TwoTo256 {
        TotalAppend(orders, o, Held(v));
        assert Slot(escrowB, v) == Total(orders, Held(v)) && Slot(escrowB, v) < TwoTo256;
      }
    } else {
      assert Slot(escrow', at) == sum;
      assert Slot(escrow', at) != Total(orders + [o], Held(at));
    }
  }

  /** Likewise for the base escrow of a sell. */
  lemma SellExactExactly(b: Book, maker: Address, token: Address, price: nat, base: nat, block: nat)
    requires BaseExact(b.orders, b.escrowB)
    requires PlaceSell(b, maker, token, price, base, block).Done?
    ensures
      var b' := PlaceSell(b, maker, token, price, base, block).book;
      BaseExact(b'.orders, b'.escrowB) <==> Slot(b.escrowB, Vault(maker, token)) + base < TwoTo256
  {
    AppendExactExactly(b.orders, b.escrowB, Order(maker, token, Sell, price, base, base, block, Open));
  }

  lemma BuyKeepsBase(b: Book, o: Order)
    requires BaseExact(b.orders, b.escrowB) && o.side == Buy
    ensures BaseExact(b.orders + [o], b.escrowB)
  {
    forall v: Vault ensures Slot(b.escrowB, v) == Total(b.orders + [o], Held(v)) && Slot(b.escrowB, v) < TwoTo256 {
      TotalAppend(b.orders, o, Held(v));
      assert Slot(b.escrowB, v) == Total(b.orders, Held(v));
    }
  }

  lemma SellKeepsQuote(b: Book, o: Order)
    requires QuoteSolvent(b.orders, b.escrowQ) && o.side == Sell
    ensures QuoteSolvent(b.orders + [o], b.escrowQ)
  {
    forall m: Address ensures Total(b.orders + [o], Locked(m)) <= Slot(b.escrowQ, m) < TwoTo256 {
      TotalAppend(b.orders, o, Locked(m));
      assert Total(b.orders, Locked(m)) <= Slot(b.escrowQ, m);
    }
  }

  lemma PlaceBuySound(b: Book, maker: Address, token: Address, price: nat, base: nat, block: nat)
    requires Sound(b) && PlaceBuy(b, maker, token, price, base, block).Done?
    requires Slot(b.escrowQ, maker) + Ceil(base, price) < TwoTo256
    ensures Sound(PlaceBuy(b, maker, token, price, base, block).book)
  {
    var o := Order(maker, token, Buy, price, base, base, block, Open);
    RecordKeepsCounts(b, o);
    RecordKeepsIndex(b, o);
    BuySolventExactly(b, maker, token, price, base, block);
    BuyKeepsBase(b, o);
  }

  lemma PlaceSellSound(b: Book, maker: Address, token: Address, price: nat, base: nat, block: nat)
    requires Sound(b) && PlaceSell(b, maker, token, price, base, block).Done?
    requires Slot(b.escrowB, Vault(maker, token)) + base < TwoTo256
    ensures Sound(PlaceSell(b, maker, token, price, base, block).book)
  {
    var o := Order(maker, token, Sell, price, base, base, block, Open);
    RecordKeepsCounts(b, o);
    RecordKeepsIndex(b, o);
    SellExactExactly(b, maker, token, price, base, block);
    SellKeepsQuote(b, o);
  }

  /* ---------- shrinking ---------- */

  lemma SwapRemoveDrops(ids: seq<nat>, id: nat)
    requires NoDuplicates(ids)
    ensures NoDuplicates(SwapRemove(ids, id))
    ensures forall x: nat :: x in SwapRemove(ids, id) <==> x in ids && x != id
  {
    var i, n := Position(ids, id), |ids|;
    PositionIsFirst(ids, id);
    assert i == n ==> ids[..i] == ids;
    if i < n {
      var r := SwapRemove(ids, id);
      forall x: nat ensures x in r <==> x in ids && x != id {
        if x in ids && x != id {
          var j :| 0 <= j < n && ids[j] == x;
          assert r[if j == n - 1 then i else j] == x;
        }
      }
    }
  }

  lemma ShrinkKeepsCounts(b: Book, id: nat, left: nat, closed: Status)
    requires CountsMatch(b.orders, b.openCount) && 0 < id <= |b.orders| && b.orders[id - 1].status == Open
      && closed != Open
    ensures CountsMatch(Shrink(b, id, left, closed).orders, Shrink(b, id, left, closed).openCount)
  {
    var b' := Shrink(b, id, left, closed);
    forall m: Address
      ensures Slot(b'.openCount, m) == Total(b'.orders, OpenOf(m)) && Slot(b'.openCount, m) <= MaxOpenPerMaker
    {
      assert Slot(b.openCount, m) == Total(b.orders, OpenOf(m));
      TotalUpdate(b.orders, id - 1, b'.orders[id - 1], OpenOf(m));
    }
  }

  lemma ShrinkKeepsIndex(b: Book, id: nat, left: nat, closed: Status)
    requires IndexMatches(b.orders, b.index) && 0 < id <= |b.orders| && b.orders[id - 1].status == Open
      && closed != Open
    ensures IndexMatches(Shrink(b, id, left, closed).orders, Shrink(b, id, left, closed).index)
  {
    var b' := Shrink(b, id, left, closed);
    forall at: Market ensures Indexes(b'.orders, Ids(b'.index, at), at) {
      assert Indexes(b.orders, Ids(b.index, at), at);
      SwapRemoveDrops(Ids(b.index, at), id);
      forall x: nat ensures x in Ids(b'.index, at) <==> Listed(b'.orders, at, x) {
        assert x in Ids(b.index, at) <==> Listed(b.orders, at, x);
      }
    }
  }

  /** Paying at most the freed part of the lock keeps every maker solvent. */
  lemma ShrinkKeepsQuote(orders: seq<Order>, escrowQ: map<Address, nat>, k: nat, o: Order, paid: nat)
    requires QuoteSolvent(orders, escrowQ) && k < |orders| && o.maker == orders[k].maker
    requires paid + Amount(Locked(o.maker), o) <= Amount(Locked(o.maker), orders[k])
    ensures paid <= Slot(escrowQ, o.maker)
    ensures QuoteSolvent(orders[k := o], Put(escrowQ, o.maker, Slot(escrowQ, o.maker) - paid))
  {
    var held := Slot(escrowQ, o.maker);
    assert Total(orders, Locked(o.maker)) <= held;
    TotalUpdate(orders, k, o, Locked(o.maker));
    var escrow' := Put(escrowQ, o.maker, held - paid);
    forall m: Address ensures Total(orders[k := o], Locked(m)) <= Slot(escrow', m) < TwoTo256 {
      assert Total(orders, Locked(m)) <= Slot(escrowQ, m);
      TotalUpdate(orders, k, o, Locked(m));
    }
  }

  lemma ShrinkKeepsBase(orders: seq<Order>, escrowB: map<Vault, nat>, k: nat, o: Order, part: nat)
    requires BaseExact(orders, escrowB) && k < |orders|
      && Vault(o.maker, o.token) == Vault(orders[k].maker, orders[k].token)
    requires part + Amount(Held(Vault(o.maker, o.token)), o) == Amount(Held(Vault(o.maker, o.token)), orders[k])
    ensures part <= Slot(escrowB, Vault(o.maker, o.token))
    ensures BaseExact(orders[k := o],
                      Put(escrowB, Vault(o.maker, o.token), Slot(escrowB, Vault(o.maker, o.token)) - part))
  {
    var at := Vault(o.maker, o.token);
    var held := Slot(escrowB, at);
    assert held == Total(orders, Held(at));
    TotalUpdate(orders, k, o, Held(at));
    var escrow' := Put(escrowB, at, held - part);
    forall v: Vault ensures Slot(escrow', v) == Total(orders[k := o], Held(v)) && Slot(escrow', v) < TwoTo256 {
      assert Slot(escrowB, v) == Total(orders, Held(v));
      TotalUpdate(orders, k, o, Held(v));
    }
  }

  lemma BuyUpdateKeepsBase(orders: seq<Order>, escrowB: map<Vault, nat>, k: nat, o: Order)
    requires BaseExact(orders, escrowB) && k < |orders| && o.side == Buy && orders[k].side == Buy
    ensures BaseExact(orders[k := o], escrowB)
  {
    forall v: Vault ensures Slot(escrowB, v) == Total(orders[k := o], Held(v)) && Slot(escrowB, v) < TwoTo256 {
      assert Slot(escrowB, v) == Total(orders, Held(v));
      TotalUpdate(orders, k, o, Held(v));
    }
  }

  lemma SellUpdateKeepsQuote(orders: seq<Order>, escrowQ: map<Address, nat>, k: nat, o: Order)
    requires QuoteSolvent(orders, escrowQ) && k < |orders| && o.side == Sell && orders[k].side == Sell
    ensures QuoteSolvent(orders[k := o], escrowQ)
  {
    forall m: Address ensures Total(orders[k := o], Locked(m)) <= Slot(escrowQ, m) < TwoTo256 {
      assert Total(orders, Locked(m)) <= Slot(escrowQ, m);
      TotalUpdate(orders, k, o, Locked(m));
    }
  }

  /** The exact lock of an open buy is within the maker's escrow, so no quote of it is ever cut. */
  lemma LockWithinEscrow(b: Book, id: nat)
    requires QuoteSolvent(b.orders, b.escrowQ) && 0 < id <= |b.orders| && b.orders[id - 1].status == Open
      && b.orders[id - 1].side == Buy
    ensures
      var o := b.orders[id - 1];
      Ceil(o.baseOpen, o.price) <= Slot(b.escrowQ, o.maker) < TwoTo256
  {
    var o := b.orders[id - 1];
    assert Total(b.orders, Locked(o.maker)) <= Slot(b.escrowQ, o.maker);
    TotalUpdate(b.orders, id - 1, o, Locked(o.maker));
  }

  lemma ShrinkKeepsOrders(orders: seq<Order>, k: nat, o: Order)
    requires OrdersOk(orders) && k < |orders| && OrderOk(o)
    ensures OrdersOk(orders[k := o])
  {
  }

  ghost predicate Tidy(b: Book) {
    OrdersOk(b.orders) && CountsMatch(b.orders, b.openCount) && IndexMatches(b.orders, b.index)
  }

  /** Orders, counts and index after an open order shrinks or closes. */
  lemma ShrinkTidy(b: Book, id: nat, left: nat, closed: Status)
    requires Tidy(b) && 0 < id <= |b.orders| && b.orders[id - 1].status == Open && closed != Open
    requires left <= b.orders[id - 1].baseOpen
    ensures Tidy(Shrink(b, id, left, closed))
    ensures
      var o := b.orders[id - 1];
      Shrink(b, id, left, closed).orders ==
      b.orders[id - 1 := o.(baseOpen := left, status := if left == 0 then closed else Open)]
  {
    var o := b.orders[id - 1];
    assert OrderOk(o);
    ShrinkKeepsOrders(b.orders, id - 1, o.(baseOpen := left, status := if left == 0 then closed else Open));
    ShrinkKeepsCounts(b, id, left, closed);
    ShrinkKeepsIndex(b, id, left, closed);
  }

  /** The quote of a fill is exact, the escrow can pay it, and stays above the locks. */
  lemma FillQuote(b: Book, id: nat, part: nat)
    requires QuoteSolvent(b.orders, b.escrowQ) && 0 < id <= |b.orders| && b.orders[id - 1].status == Open
      && b.orders[id - 1].side == Buy
    requires part <= b.orders[id - 1].baseOpen
    ensures
      var o := b.orders[id - 1];
      var o' := o.(baseOpen := o.baseOpen - part, status := if part == o.baseOpen then Filled else Open);
      && QuoteFloor(part, o.price) == Floor(part, o.price) <= Slot(b.escrowQ, o.maker)
      && QuoteSolvent(b.orders[id - 1 := o'], Put(b.escrowQ, o.maker, Slot(b.escrowQ, o.maker) - Floor(part, o.price)))
  {
    var o := b.orders[id - 1];
    var o' := o.(baseOpen := o.baseOpen - part, status := if part == o.baseOpen then Filled else Open);
    LockWithinEscrow(b, id);
    CeilSplit(o.baseOpen, part, o.price);
    CeilOfNothing(o.price);
    FitsUncut(part, o.price);
    ShrinkKeepsQuote(b.orders, b.escrowQ, id - 1, o', Floor(part, o.price));
  }

  lemma CancelQuote(b: Book, id: nat)
    requires QuoteSolvent(b.orders, b.escrowQ) && 0 < id <= |b.orders| && b.orders[id - 1].status == Open
      && b.orders[id - 1].side == Buy
    ensures
      var o := b.orders[id - 1];
      var q := Ceil(o.baseOpen, o.price);
      && QuoteLockCeil(o.baseOpen, o.price) == q <= Slot(b.escrowQ, o.maker)
      && QuoteSolvent(b.orders[id - 1 := o.(baseOpen := 0, status := Cancelled)],
                      Put(b.escrowQ, o.maker, Slot(b.escrowQ, o.maker) - q))
  {
    var o := b.orders[id - 1];
    LockWithinEscrow(b, id);
    FitsUncut(o.baseOpen, o.price);
    ShrinkKeepsQuote(b.orders, b.escrowQ, id - 1, o.(baseOpen := 0, status := Cancelled), Ceil(o.baseOpen, o.price));
  }

  lemma EscrowsAside(b: Book, escrowQ: map<Address, nat>, escrowB: map<Vault, nat>)
    requires Tidy(b) && QuoteSolvent(b.orders, escrowQ) && BaseExact(b.orders, escrowB)
    ensures Sound(b.(escrowQ := escrowQ, escrowB := escrowB))
  {
  }

  /** Fills of open orders always go through, on either side, and keep the book sound. */
  lemma FillBuySound(b: Book, taker: Address, id: nat, maxBase: nat)
    requires Sound(b) && taker != 0 && maxBase != 0
    requires GetOrder(b, id).Some? && GetOrder(b, id).value.status == Open && GetOrder(b, id).value.side == Buy
    ensures Fill(b, taker, id, maxBase).Done? && Sound(Fill(b, taker, id, maxBase).book)
    ensures
      var trade := Fill(b, taker, id, maxBase).value;
      trade.quote == Floor(trade.base, b.orders[id - 1].price)
  {
    var o := b.orders[id - 1];
    var part := if maxBase > o.baseOpen then o.baseOpen else maxBase;
    var shrunk := Shrink(b, id, o.baseOpen - part, Filled);
    ShrinkTidy(b, id, o.baseOpen - part, Filled);
    FillQuote(b, id, part);
    var o' := o.(baseOpen := o.baseOpen - part, status := if part == o.baseOpen then Filled else Open);
    BuyUpdateKeepsBase(b.orders, b.escrowB, id - 1, o');
    var paid := Floor(part, o.price);
    var escrow := Put(b.escrowQ, o.maker, Slot(b.escrowQ, o.maker) - paid);
    assert Fill(b, taker, id, maxBase) == Done(shrunk.(escrowQ := escrow), Trade(part, paid));
    EscrowsAside(shrunk, escrow, b.escrowB);
  }

  lemma FillSellSound(b: Book, taker: Address, id: nat, maxBase: nat)
    requires Sound(b) && taker != 0 && maxBase != 0
    requires GetOrder(b, id).Some? && GetOrder(b, id).value.status == Open && GetOrder(b, id).value.side == Sell
    ensures Fill(b, taker, id, maxBase).Done? && Sound(Fill(b, taker, id, maxBase).book)
  {
    var o := b.orders[id - 1];
    var part := if maxBase > o.baseOpen then o.baseOpen else maxBase;
    var shrunk := Shrink(b, id, o.baseOpen - part, Filled);
    ShrinkTidy(b, id, o.baseOpen - part, Filled);
    var o' := o.(baseOpen := o.baseOpen - part, status := if part == o.baseOpen then Filled else Open);
    ShrinkKeepsBase(b.orders, b.escrowB, id - 1, o', part);
    SellUpdateKeepsQuote(b.orders, b.escrowQ, id - 1, o');
    var at := Vault(o.maker, o.token);
    var escrow := Put(b.escrowB, at, Slot(b.escrowB, at) - part);
    assert Fill(b, taker, id, maxBase) == Done(shrunk.(escrowB := escrow), Trade(part, QuoteFloor(part, o.price)));
    EscrowsAside(shrunk, b.escrowQ, escrow);
  }

  /** A cancelled buy gets back the exact lock on what is left of it: the cap at the escrow never applies. */
  lemma CancelBuySound(b: Book, id: nat)
    requires Sound(b) && GetOrder(b, id).Some? && GetOrder(b, id).value.status == Open
      && GetOrder(b, id).value.side == Buy
    ensures
      var o := b.orders[id - 1];
      var r := Cancel(b, o.maker, id);
      r.Done? && Sound(r.book) && r.value == Refund(Ceil(o.baseOpen, o.price), 0)
  {
    var o := b.orders[id - 1];
    ShrinkTidy(b, id, 0, Cancelled);
    CancelQuote(b, id);
    BuyUpdateKeepsBase(b.orders, b.escrowB, id - 1, o.(baseOpen := 0, status := Cancelled));
    var q := Ceil(o.baseOpen, o.price);
    EscrowsAside(Shrink(b, id, 0, Cancelled), Put(b.escrowQ, o.maker, Slot(b.escrowQ, o.maker) - q), b.escrowB);
  }

  lemma CancelSellSound(b: Book, id: nat)
    requires Sound(b) && GetOrder(b, id).Some? && GetOrder(b, id).value.status == Open
      && GetOrder(b, id).value.side == Sell
    ensures
      var o := b.orders[id - 1];
      var r := Cancel(b, o.maker, id);
      r.Done? && Sound(r.book) && r.value == Refund(0, o.baseOpen)
  {
    var o := b.orders[id - 1];
    ShrinkTidy(b, id, 0, Cancelled);
    var o' := o.(baseOpen := 0, status := Cancelled);
    ShrinkKeepsBase(b.orders, b.escrowB, id - 1, o', o.baseOpen);
    SellUpdateKeepsQuote(b.orders, b.escrowQ, id - 1, o');
    var at := Vault(o.maker, o.token);
    EscrowsAside(Shrink(b, id, 0, Cancelled), b.escrowQ, Put(b.escrowB, at, Slot(b.escrowB, at) - o.baseOpen));
  }

  /** In a sound book a call is refused only for what its caller asked for, never for lack of escrow. */
  lemma NeverUnderflows(b: Book, actor: Address, id: nat, maxBase: nat)
    requires Sound(b)
    ensures Fill(b, actor, id, maxBase).Done? <==>
            actor != 0 && maxBase != 0 && GetOrder(b, id).Some? && GetOrder(b, id).value.status == Open
    ensures Cancel(b, actor, id).Done? <==>
            GetOrder(b, id).Some? && GetOrder(b, id).value.status == Open && GetOrder(b, id).value.maker == actor
  {
    if GetOrder(b, id).Some? && GetOrder(b, id).value.status == Open {
      if GetOrder(b, id).value.side == Buy {
        CancelBuySound(b, id);
        if actor != 0 && maxBase != 0 { FillBuySound(b, actor, id, maxBase); }
      } else {
        CancelSellSound(b, id);
        if actor != 0 && maxBase != 0 { FillSellSound(b, actor, id, maxBase); }
      }
    }
  }

  lemma FillKeepsSound(b: Book, taker: Address, id: nat, maxBase: nat)
    requires Sound(b)
    ensures
      match Fill(b, taker, id, maxBase)
      case Done(b', _) => Sound(b')
      case Failed(e) => e != QuoteUnderflow && e != BaseUnderflow
  {
    NeverUnderflows(b, taker, id, maxBase);
    if Fill(b, taker, id, maxBase).Done? {
      if b.orders[id - 1].side == Buy {
        FillBuySound(b, taker, id, maxBase);
      } else {
        FillSellSound(b, taker, id, maxBase);
      }
    }
  }

  lemma CancelKeepsSound(b: Book, actor: Address, id: nat)
    requires Sound(b)
    ensures
      match Cancel(b, actor, id)
      case Done(b', _) => Sound(b')
      case Failed(e) => e != BaseUnderflow
  {
    NeverUnderflows(b, actor, id, 0);
    if Cancel(b, actor, id).Done? {
      if b.orders[id - 1].side == Buy { CancelBuySound(b, id); } else { CancelSellSound(b, id); }
    }
  }

  /* ---------- whole runs ---------- */

  datatype Action =
    | ActBuy(maker: Address, token: Address, price: nat, base: nat, block: nat)
    | ActSell(maker: Address, token: Address, price: nat, base: nat, block: nat)
    | ActCancel(actor: Address, id: nat)
    | ActFill(taker: Address, id: nat, maxBase: nat)

  /** What a run did to each order: base traded, quote released from its lock; and each maker's filled buys. */
  datatype Trace = Trace(book: Book, filled: seq<nat>, released: seq<nat>, buyFills: map<Address, nat>)

  /** An amount that is placed fits the maker's 256-bit escrow slot. */
  predicate Fits(b: Book, act: Action) {
    match act
    case ActBuy(maker, token, price, base, block) =>
      PlaceBuy(b, maker, token, price, base, block).Done? ==> Slot(b.escrowQ, maker) + Ceil(base, price) < TwoTo256
    case ActSell(maker, token, price, base, block) =>
      PlaceSell(b, maker, token, price, base, block).Done? ==> Slot(b.escrowB, Vault(maker, token)) + base < TwoTo256
    case _ => true
  }

  function AfterFill(t: Trace, id: nat, b: Book, trade: Trade): Trace
    requires 0 < id <= |t.filled| && |t.filled| == |t.released| == |t.book.orders|
  {
    var o := t.book.orders[id - 1];
    Trace(b, t.filled[id - 1 := t.filled[id - 1] + trade.base],
          if o.side == Buy then t.released[id - 1 := t.released[id - 1] + trade.quote] else t.released,
          if o.side == Buy then t.buyFills[o.maker := Slot(t.buyFills, o.maker) + 1] else t.buyFills)
  }

  function Next(t: Trace, act: Action): Trace
    requires |t.filled| == |t.released| == |t.book.orders|
  {
    match act
    case ActBuy(maker, token, price, base, block) =>
      var r := PlaceBuy(t.book, maker, token, price, base, block);
      if r.Failed? then t else t.(book := r.book, filled := t.filled + [0], released := t.released + [0])
    case ActSell(maker, token, price, base, block) =>
      var r := PlaceSell(t.book, maker, token, price, base, block);
      if r.Failed? then t else t.(book := r.book, filled := t.filled + [0], released := t.released + [0])
    case ActCancel(actor, id) =>
      var r := Cancel(t.book, actor, id);
      if r.Failed? then t else t.(book := r.book, released := t.released[id - 1 := t.released[id - 1] + r.value.quote])
    case ActFill(taker, id, maxBase) =>
      var r := Fill(t.book, taker, id, maxBase);
      if r.Failed? then t else AfterFill(t, id, r.book, r.value)
  }

  /** An order trades what it gave up, and its lock covers all it released and may still release. */
  ghost predicate Accounted(o: Order, filled: nat, released: nat) {
    && (if o.status == Cancelled then filled <= o.baseOrig else filled + o.baseOpen == o.baseOrig)
    && (o.side == Buy ==> released + Ceil(o.baseOpen, o.price) <= Ceil(o.baseOrig, o.price))
  }

  ghost predicate AllAccounted(t: Trace) {
    && |t.filled| == |t.released| == |t.book.orders|
    && (forall i | 0 <= i < |t.book.orders| :: Accounted(t.book.orders[i], t.filled[i], t.released[i]))
  }

  /** A maker's escrow exceeds its locks by at most one unit for each filled buy. */
  ghost predicate DustBounded(t: Trace) {
    forall m: Address :: Slot(t.book.escrowQ, m) <= Total(t.book.orders, Locked(m)) + Slot(t.buyFills, m)
  }

  ghost predicate TraceOk(t: Trace) {
    Sound(t.book) && AllAccounted(t) && DustBounded(t)
  }

  lemma BuyKeepsDust(b: Book, maker: Address, token: Address, price: nat, base: nat, block: nat, m: Address, dust: nat)
    requires PlaceBuy(b, maker, token, price, base, block).Done?
      && Slot(b.escrowQ, maker) + Ceil(base, price) < TwoTo256
    requires Slot(b.escrowQ, m) <= Total(b.orders, Locked(m)) + dust
    ensures
      var b' := PlaceBuy(b, maker, token, price, base, block).book;
      Slot(b'.escrowQ, m) <= Total(b'.orders, Locked(m)) + dust
  {
    FitsUncut(base, price);
    TotalAppend(b.orders, Order(maker, token, Buy, price, base, base, block, Open), Locked(m));
  }

  lemma BuyKeepsTrace(t: Trace, maker: Address, token: Address, price: nat, base: nat, block: nat)
    requires TraceOk(t) && Fits(t.book, ActBuy(maker, token, price, base, block))
    requires PlaceBuy(t.book, maker, token, price, base, block).Done?
    ensures TraceOk(Next(t, ActBuy(maker, token, price, base, block)))
  {
    var b' := PlaceBuy(t.book, maker, token, price, base, block).book;
    PlaceBuySound(t.book, maker, token, price, base, block);
    forall m: Address ensures Slot(b'.escrowQ, m) <= Total(b'.orders, Locked(m)) + Slot(t.buyFills, m) {
      BuyKeepsDust(t.book, maker, token, price, base, block, m, Slot(t.buyFills, m));
    }
  }

  lemma SellKeepsTrace(t: Trace, maker: Address, token: Address, price: nat, base: nat, block: nat)
    requires TraceOk(t) && Fits(t.book, ActSell(maker, token, price, base, block))
    requires PlaceSell(t.book, maker, token, price, base, block).Done?
    ensures TraceOk(Next(t, ActSell(maker, token, price, base, block)))
  {
    var b, b' := t.book, PlaceSell(t.book, maker, token, price, base, block).book;
    var o := Order(maker, token, Sell, price, base, base, block, Open);
    PlaceSellSound(b, maker, token, price, base, block);
    forall m: Address ensures Slot(b'.escrowQ, m) <= Total(b'.orders, Locked(m)) + Slot(t.buyFills, m) {
      assert Slot(b.escrowQ, m) <= Total(b.orders, Locked(m)) + Slot(t.buyFills, m);
      TotalAppend(b.orders, o, Locked(m));
    }
  }

  /** The surplus after an order shrinks: what was not paid stays above the locks. */
  lemma ShrinkDust(orders: seq<Order>, escrowQ: map<Address, nat>, k: nat, o: Order, paid: nat, m: Address, dust: nat,
                   more: nat)
    requires k < |orders| && o.maker == orders[k].maker && paid <= Slot(escrowQ, o.maker)
    requires Slot(escrowQ, m) <= Total(orders, Locked(m)) + dust
    requires m == o.maker ==> Amount(Locked(m), orders[k]) <= paid + Amount(Locked(m), o) + more
    ensures Slot(Put(escrowQ, o.maker, Slot(escrowQ, o.maker) - paid), m)
            <= Total(orders[k := o], Locked(m)) + dust + (if m == o.maker then more else 0)
  {
    TotalUpdate(orders, k, o, Locked(m));
  }

  /** What a cancel does to its order, on either side. */
  lemma CancelShape(b: Book, actor: Address, id: nat)
    requires QuoteSolvent(b.orders, b.escrowQ) && Cancel(b, actor, id).Done?
    ensures 0 < id <= |b.orders| && b.orders[id - 1].status == Open
    ensures
      var (o, r) := (b.orders[id - 1], Cancel(b, actor, id));
      && r.book.orders == b.orders[id - 1 := o.(baseOpen := 0, status := Cancelled)]
      && (o.side == Sell ==> r.book.escrowQ == b.escrowQ && r.value.quote == 0)
      && (o.side == Buy ==> r.value.quote == Ceil(o.baseOpen, o.price) <= Slot(b.escrowQ, o.maker) &&
                            r.book.escrowQ == Put(b.escrowQ, o.maker, Slot(b.escrowQ, o.maker) - r.value.quote))
  {
    if b.orders[id - 1].side == Buy {
      CancelQuote(b, id);
    }
  }

  lemma CancelKeepsDust(b: Book, actor: Address, id: nat, m: Address, dust: nat)
    requires QuoteSolvent(b.orders, b.escrowQ) && Cancel(b, actor, id).Done?
    requires Slot(b.escrowQ, m) <= Total(b.orders, Locked(m)) + dust
    ensures Slot(Cancel(b, actor, id).book.escrowQ, m) <= Total(Cancel(b, actor, id).book.orders, Locked(m)) + dust
  {
    CancelShape(b, actor, id);
    var o := b.orders[id - 1];
    var o' := o.(baseOpen := 0, status := Cancelled);
    if o.side == Buy {
      ShrinkDust(b.orders, b.escrowQ, id - 1, o', Ceil(o.baseOpen, o.price), m, dust, 0);
    } else {
      TotalUpdate(b.orders, id - 1, o', Locked(m));
    }
  }

  lemma CancelKeepsAccounts(t: Trace, actor: Address, id: nat)
    requires QuoteSolvent(t.book.orders, t.book.escrowQ) && AllAccounted(t) && Cancel(t.book, actor, id).Done?
    ensures AllAccounted(Next(t, ActCancel(actor, id)))
  {
    CancelShape(t.book, actor, id);
    var o := t.book.orders[id - 1];
    assert Accounted(o, t.filled[id - 1], t.released[id - 1]);
    CeilOfNothing(o.price);
  }

  lemma CancelKeepsTrace(t: Trace, actor: Address, id: nat)
    requires TraceOk(t) && Cancel(t.book, actor, id).Done?
    ensures TraceOk(Next(t, ActCancel(actor, id)))
  {
    CancelKeepsAccounts(t, actor, id);
    if t.book.orders[id - 1].side == Buy { CancelBuySound(t.book, id); } else { CancelSellSound(t.book, id); }
    var b' := Cancel(t.book, actor, id).book;
    forall m: Address ensures Slot(b'.escrowQ, m) <= Total(b'.orders, Locked(m)) + Slot(t.buyFills, m) {
      CancelKeepsDust(t.book, actor, id, m, Slot(t.buyFills, m));
    }
  }

  /** What a fill does to its order, in either side. */
  lemma FillShape(b: Book, taker: Address, id: nat, maxBase: nat)
    requires OrdersOk(b.orders) && Fill(b, taker, id, maxBase).Done?
    ensures 0 < id <= |b.orders|
    ensures
      var (o, r) := (b.orders[id - 1], Fill(b, taker, id, maxBase));
      && 0 < r.value.base <= o.baseOpen
      && r.book.orders == b.orders[id - 1 := o.(baseOpen := o.baseOpen - r.value.base,
                                                 status := if r.value.base == o.baseOpen then Filled else Open)]
      && (o.side == Sell ==> r.book.escrowQ == b.escrowQ)
      && (o.side == Buy ==> r.value.quote <= Slot(b.escrowQ, o.maker) &&
                            r.book.escrowQ == Put(b.escrowQ, o.maker, Slot(b.escrowQ, o.maker) - r.value.quote))
  {
    assert OrderOk(b.orders[id - 1]);
  }

  lemma FillKeepsDust(b: Book, taker: Address, id: nat, maxBase: nat, m: Address, dust: nat)
    requires OrdersOk(b.orders) && QuoteSolvent(b.orders, b.escrowQ) && Fill(b, taker, id, maxBase).Done?
    requires Slot(b.escrowQ, m) <= Total(b.orders, Locked(m)) + dust
    ensures
      var (o, r) := (b.orders[id - 1], Fill(b, taker, id, maxBase).book);
      Slot(r.escrowQ, m) <= Total(r.orders, Locked(m)) + dust + (if o.side == Buy && o.maker == m then 1 else 0)
  {
    var r := Fill(b, taker, id, maxBase);
    FillShape(b, taker, id, maxBase);
    var o, o' := b.orders[id - 1], r.book.orders[id - 1];
    if o.side == Buy {
      FillQuote(b, id, r.value.base);
      CeilSplit(o.baseOpen, r.value.base, o.price);
      CeilOfNothing(o.price);
      ShrinkDust(b.orders, b.escrowQ, id - 1, o', r.value.quote, m, dust, 1);
    } else {
      TotalUpdate(b.orders, id - 1, o', Locked(m));
    }
  }

  lemma FillKeepsAccounts(t: Trace, taker: Address, id: nat, maxBase: nat)
    requires OrdersOk(t.book.orders) && QuoteSolvent(t.book.orders, t.book.escrowQ) && AllAccounted(t)
    requires Fill(t.book, taker, id, maxBase).Done?
    ensures AllAccounted(Next(t, ActFill(taker, id, maxBase)))
  {
    var b, r := t.book, Fill(t.book, taker, id, maxBase);
    FillShape(b, taker, id, maxBase);
    var o := b.orders[id - 1];
    assert Accounted(o, t.filled[id - 1], t.released[id - 1]);
    if o.side == Buy {
      FillQuote(b, id, r.value.base);
      CeilSplit(o.baseOpen, r.value.base, o.price);
    }
  }

  lemma FillKeepsTrace(t: Trace, taker: Address, id: nat, maxBase: nat)
    requires TraceOk(t) && Fill(t.book, taker, id, maxBase).Done?
    ensures TraceOk(Next(t, ActFill(taker, id, maxBase)))
  {
    FillKeepsAccounts(t, taker, id, maxBase);
    if t.book.orders[id - 1].side == Buy {
      FillBuySound(t.book, taker, id, maxBase);
    } else {
      FillSellSound(t.book, taker, id, maxBase);
    }
    var t' := Next(t, ActFill(taker, id, maxBase));
    forall m: Address ensures Slot(t'.book.escrowQ, m) <= Total(t'.book.orders, Locked(m)) + Slot(t'.buyFills, m) {
      FillKeepsDust(t.book, taker, id, maxBase, m, Slot(t.buyFills, m));
    }
  }

  lemma NextKeeps(t: Trace, act: Action)
    requires TraceOk(t) && Fits(t.book, act)
    ensures TraceOk(Next(t, act))
  {
    match act
    case ActBuy(maker, token, price, base, block) =>
      if PlaceBuy(t.book, maker, token, price, base, block).Done? {
        BuyKeepsTrace(t, maker, token, price, base, block);
      }
    case ActSell(maker, token, price, base, block) =>
      if PlaceSell(t.book, maker, token, price, base, block).Done? {
        SellKeepsTrace(t, maker, token, price, base, block);
      }
    case ActCancel(actor, id) =>
      if Cancel(t.book, actor, id).Done? { CancelKeepsTrace(t, actor, id); }
    case ActFill(taker, id, maxBase) =>
      if Fill(t.book, taker, id, maxBase).Done? { FillKeepsTrace(t, taker, id, maxBase); }
  }

  ghost predicate Run(ts: seq<Trace>, acts: seq<Action>) {
    && |ts| == |acts| + 1
    && ts[0] == Trace(EmptyBook, [], [], map[])
    && (forall i | 0 <= i < |acts| ::
          && |ts[i].filled| == |ts[i].released| == |ts[i].book.orders|
          && Fits(ts[i].book, acts[i]) && ts[i + 1] == Next(ts[i], acts[i]))
  }

  /**
   In every run whose placed amounts fit, at every point: escrow covers the locks with at most one unit over per
   filled buy, base escrow equals the open sells, counts and index match, and every order is accounted for.
   */
  lemma {:induction false} RunsAreSound(ts: seq<Trace>, acts: seq<Action>, n: nat)
    requires Run(ts, acts) && n < |ts|
    ensures TraceOk(ts[n])
  {
    if n == 0 {
      EmptyIsSound();
    } else {
      RunsAreSound(ts, acts, n - 1);
      NextKeeps(ts[n - 1], acts[n - 1]);
      assert ts[n - 1 + 1] == Next(ts[n - 1], acts[n - 1]);
    }
  }
}
