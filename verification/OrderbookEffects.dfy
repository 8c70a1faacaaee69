/**
 What a call of the orderbook does, said from its arguments: which order is written and how, what is traded, paid,
 refunded and held. Over whole runs nothing held appears or disappears.
 */
module OrderbookEffects {
  import opened Arithmetic
  import opened Options
  import opened Quotes
  import opened Orderbook

  /** The amount cut to 256 bits. */
  function Cut(x: nat): nat {
    x % TwoTo256
  }

  ghost predicate OnlySlot<K(!new)>(m: map<K, nat>, n: map<K, nat>, k: K) {
    forall j: K :: j != k ==> Slot(n, j) == Slot(m, j)
  }

  /** Every order but one reads as before. */
  ghost predicate OnlyOrder(b: Book, b': Book, id: nat) {
    |b'.orders| >= |b.orders| && forall j: nat :: j != id ==> GetOrder(b', j) == GetOrder(b, j)
  }

  lemma PutSlot<K>(m: map<K, nat>, k: K, v: nat, j: K)
    ensures Slot(Put(m, k, v), j) == if j == k then v else Slot(m, j)
  {
  }

  /* ---------- placing ---------- */

  ghost predicate MayPlace(b: Book, maker: Address, token: Address, price: nat, base: nat) {
    maker != 0 && token != 0 && price != 0 && base != 0 && Slot(b.openCount, maker) < MaxOpenPerMaker
  }

  /** The new order has the next id and what the maker asked for; nothing else is written. */
  ghost predicate Placed(b: Book, b': Book, id: nat, o: Order) {
    && id == |b.orders| + 1 && |b'.orders| == id && GetOrder(b', id) == Some(o) && OnlyOrder(b, b', id)
    && Slot(b'.openCount, o.maker) == Slot(b.openCount, o.maker) + 1 && OnlySlot(b.openCount, b'.openCount, o.maker)
  }

  lemma RecordPlaces(b: Book, o: Order)
    ensures Placed(b, Record(b, o), |b.orders| + 1, o)
  {
    var b' := Record(b, o);
    forall j: nat | j != |b.orders| + 1 ensures GetOrder(b', j) == GetOrder(b, j) {
    }
  }

  /** A buy locks the ceiling of its price in its maker's quote escrow. */
  ghost predicate BuyPlaced(b: Book, b': Book, r: Receipt, o: Order) {
    && Placed(b, b', r.id, o) && r.lock == Cut(Ceil(o.baseOrig, o.price))
    && Slot(b'.escrowQ, o.maker) == Cut(Slot(b.escrowQ, o.maker) + r.lock) && OnlySlot(b.escrowQ, b'.escrowQ, o.maker)
    && b'.escrowB == b.escrowB
  }

  /** A sell puts its base in its maker's escrow of the token. */
  ghost predicate SellPlaced(b: Book, b': Book, id: nat, o: Order) {
    var at := Vault(o.maker, o.token);
    && Placed(b, b', id, o)
    && Slot(b'.escrowB, at) == Cut(Slot(b.escrowB, at) + o.baseOrig) && OnlySlot(b.escrowB, b'.escrowB, at)
    && b'.escrowQ == b.escrowQ
  }

  lemma BuyEffect(b: Book, maker: Address, token: Address, price: nat, base: nat, block: nat)
    ensures
      match PlaceBuy(b, maker, token, price, base, block)
      case Done(b', r) =>
        && MayPlace(b, maker, token, price, base) && Cut(Ceil(base, price)) != 0
        && BuyPlaced(b, b', r, Order(maker, token, Buy, price, base, base, block, Open))
      case Failed(_) => !MayPlace(b, maker, token, price, base) || Cut(Ceil(base, price)) == 0
  {
    RecordPlaces(b, Order(maker, token, Buy, price, base, base, block, Open));
  }

  lemma SellEffect(b: Book, maker: Address, token: Address, price: nat, base: nat, block: nat)
    ensures
      match PlaceSell(b, maker, token, price, base, block)
      case Done(b', r) =>
        && MayPlace(b, maker, token, price, base)
        && SellPlaced(b, b', r.id, Order(maker, token, Sell, price, base, base, block, Open))
      case Failed(_) => !MayPlace(b, maker, token, price, base)
  {
    RecordPlaces(b, Order(maker, token, Sell, price, base, base, block, Open));
  }

  /* ---------- filling and cancelling ---------- */

  /** The trade takes all the taker wants or all that is left, whichever is less, at the floor of its price. */
  ghost predicate Traded(o: Order, maxBase: nat, t: Trade) {
    && t.base <= maxBase && t.base <= o.baseOpen && (t.base == maxBase || t.base == o.baseOpen)
    && t.quote == Cut(Floor(t.base, o.price))
  }

  /** The order has less open; with nothing left it is closed with the given status. */
  ghost predicate Left(b: Book, b': Book, id: nat, o: Order, left: nat, closed: Status) {
    && GetOrder(b', id) == Some(o.(baseOpen := left, status := if left == 0 then closed else o.status))
    && OnlyOrder(b, b', id)
  }

  /** The maker's holding of the side the order is on falls by what was taken from it; nothing else held changes. */
  ghost predicate Taken(b: Book, b': Book, o: Order, quote: nat, base: nat) {
    var at := Vault(o.maker, o.token);
    if o.side == Buy
    then
      && Slot(b'.escrowQ, o.maker) + quote == Slot(b.escrowQ, o.maker) && OnlySlot(b.escrowQ, b'.escrowQ, o.maker)
      && b'.escrowB == b.escrowB
    else
      && Slot(b'.escrowB, at) + base == Slot(b.escrowB, at) && OnlySlot(b.escrowB, b'.escrowB, at)
      && b'.escrowQ == b.escrowQ
  }

  lemma ShrinkLeaves(b: Book, id: nat, left: nat, closed: Status)
    requires 0 < id <= |b.orders|
    ensures Left(b, Shrink(b, id, left, closed), id, b.orders[id - 1], left, closed)
  {
  }

  lemma ZeroFloor(price: nat, base: nat)
    requires base == 0 || price == 0
    ensures Floor(base, price) == 0 && Ceil(base, price) == 0
  {
    assert base * price == 0;
  }

  lemma FillEffect(b: Book, taker: Address, id: nat, maxBase: nat)
    requires Fill(b, taker, id, maxBase).Done?
    ensures taker != 0 && maxBase != 0 && 0 < id <= |b.orders| && b.orders[id - 1].status == Open
    ensures
      var (o, b', t) := (b.orders[id - 1], Fill(b, taker, id, maxBase).book, Fill(b, taker, id, maxBase).value);
      Traded(o, maxBase, t) && Left(b, b', id, o, o.baseOpen - t.base, Filled) && Taken(b, b', o, t.quote, t.base)
  {
    var (o, b', t) := (b.orders[id - 1], Fill(b, taker, id, maxBase).book, Fill(b, taker, id, maxBase).value);
    ShrinkLeaves(b, id, o.baseOpen - t.base, Filled);
    if t.base == 0 || o.price == 0 {
      ZeroFloor(o.price, t.base);
    }
    hide Shrink, Floor;
  }

  lemma CancelEffect(b: Book, actor: Address, id: nat)
    requires Cancel(b, actor, id).Done?
    ensures 0 < id <= |b.orders| && b.orders[id - 1].status == Open && b.orders[id - 1].maker == actor
    ensures
      var (o, b', r) := (b.orders[id - 1], Cancel(b, actor, id).book, Cancel(b, actor, id).value);
      && Left(b, b', id, o, 0, Cancelled) && Taken(b, b', o, r.quote, r.base)
      && r.base == (if o.side == Buy then 0 else o.baseOpen)
      && (o.side == Sell ==> r.quote == 0)
      && (o.side == Buy ==>
            || r.quote == Cut(Ceil(o.baseOpen, o.price))
            || r.quote == Slot(b.escrowQ, actor) < Cut(Ceil(o.baseOpen, o.price)))
  {
    var o := b.orders[id - 1];
    ShrinkLeaves(b, id, 0, Cancelled);
    if o.baseOpen == 0 || o.price == 0 {
      ZeroFloor(o.price, o.baseOpen);
    }
    hide Shrink, Ceil;
  }

  /* ---------- conservation over runs ---------- */

  /** The quote a call locks for a maker, exactly, and the quote it takes out of the maker's escrow. */
  function QuoteIn(b: Book, act: Action, m: Address): nat {
    match act
    case ActBuy(maker, token, price, base, block) =>
      if maker == m && PlaceBuy(b, maker, token, price, base, block).Done? then Ceil(base, price) else 0
    case _ => 0
  }

  function QuoteOut(b: Book, act: Action, m: Address): nat {
    match act
    case ActFill(taker, id, maxBase) =>
      var r := Fill(b, taker, id, maxBase);
      if r.Done? && b.orders[id - 1].side == Buy && b.orders[id - 1].maker == m then r.value.quote else 0
    case ActCancel(actor, id) =>
      var r := Cancel(b, actor, id);
      if r.Done? && actor == m then r.value.quote else 0
    case _ => 0
  }

  /** The same for the base of a maker and token. */
  function BaseIn(b: Book, act: Action, v: Vault): nat {
    match act
    case ActSell(maker, token, price, base, block) =>
      if Vault(maker, token) == v && PlaceSell(b, maker, token, price, base, block).Done? then base else 0
    case _ => 0
  }

  function BaseOut(b: Book, act: Action, v: Vault): nat {
    match act
    case ActFill(taker, id, maxBase) =>
      var r := Fill(b, taker, id, maxBase);
      if r.Done? && b.orders[id - 1].side == Sell && Vault(b.orders[id - 1].maker, b.orders[id - 1].token) == v
      then r.value.base else 0
    case ActCancel(actor, id) =>
      var r := Cancel(b, actor, id);
      if r.Done? && Vault(b.orders[id - 1].maker, b.orders[id - 1].token) == v then r.value.base else 0
    case _ => 0
  }

  lemma PlaceFlows(t: Trace, act: Action, m: Address, v: Vault)
    requires |t.filled| == |t.released| == |t.book.orders| && Fits(t.book, act) && (act.ActBuy? || act.ActSell?)
    ensures
      var b := Next(t, act).book;
      && Slot(b.escrowQ, m) == Slot(t.book.escrowQ, m) + QuoteIn(t.book, act, m)
      && Slot(b.escrowB, v) == Slot(t.book.escrowB, v) + BaseIn(t.book, act, v)
  {
    match act
    case ActBuy(maker, token, price, base, block) => BuyEffect(t.book, maker, token, price, base, block);
    case ActSell(maker, token, price, base, block) => SellEffect(t.book, maker, token, price, base, block);
  }

  lemma TakeFlows(t: Trace, act: Action, m: Address, v: Vault)
    requires |t.filled| == |t.released| == |t.book.orders| && (act.ActFill? || act.ActCancel?)
    ensures
      var b := Next(t, act).book;
      && Slot(b.escrowQ, m) + QuoteOut(t.book, act, m) == Slot(t.book.escrowQ, m)
      && Slot(b.escrowB, v) + BaseOut(t.book, act, v) == Slot(t.book.escrowB, v)
  {
    hide Fill, Cancel;
    match act
    case ActFill(taker, id, maxBase) =>
      if Fill(t.book, taker, id, maxBase).Done? { FillEffect(t.book, taker, id, maxBase); }
    case ActCancel(actor, id) =>
      if Cancel(t.book, actor, id).Done? { CancelEffect(t.book, actor, id); }
  }

  ghost function Flow(ts: seq<Trace>, acts: seq<Action>, n: nat, f: (Book, Action) -> nat): nat
    requires n <= |acts| && n <= |ts|
  {
    if n == 0 then 0 else Flow(ts, acts, n - 1, f) + f(ts[n - 1].book, acts[n - 1])
  }

  /**
   In every run whose amounts fit, what a maker has in escrow is what its buys locked less what fills and cancels took
   out; and so for the base of each maker and token.
   */
  lemma {:induction false} EscrowsBalance(ts: seq<Trace>, acts: seq<Action>, n: nat, m: Address, v: Vault)
    requires Run(ts, acts) && n < |ts|
    ensures Slot(ts[n].book.escrowQ, m) + Flow(ts, acts, n, (b, act) => QuoteOut(b, act, m)) ==
            Flow(ts, acts, n, (b, act) => QuoteIn(b, act, m))
    ensures Slot(ts[n].book.escrowB, v) + Flow(ts, acts, n, (b, act) => BaseOut(b, act, v)) ==
            Flow(ts, acts, n, (b, act) => BaseIn(b, act, v))
  {
    if n > 0 {
      EscrowsBalance(ts, acts, n - 1, m, v);
      var t, act := ts[n - 1], acts[n - 1];
      assert Fits(t.book, act) && ts[n - 1 + 1] == Next(t, act);
      hide Run, Fits, Next;
      if act.ActBuy? || act.ActSell? {
        PlaceFlows(t, act, m, v);
      } else {
        TakeFlows(t, act, m, v);
      }
    }
  }
}
