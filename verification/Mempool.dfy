/**
 The transaction pool: entries by hash, an index of hashes by sender and nonce, replacement of an entry by a better
 paying one, and eviction of a cheapest entry when the pool is full.
 */
module Mempool {
  import opened MapSums
  import opened Options

  type Hash = nat
  type Address = nat
  type Nonce = nat

  datatype Kind = EvmKind | DewKind

  /**
   A pending transaction. `readable` and `convertible` say whether its raw bytes decode, and to a transaction a block
   can hold.
   */
  datatype Entry = Entry(
    hash: Hash, kind: Kind, sender: Address, nonce: Nonce, price: nat, gas: nat, readable: bool, convertible: bool)

  datatype Config = Config(maxGlobal: nat, maxPerSender: nat, priceBumpPercent: nat)

  datatype Rejection = AlreadyKnown | RBFDisabled | ReplaceUnder | SenderLimit | PoolFull

  type Entries = map<Hash, Entry>

  type Senders = map<Address, map<Nonce, Hash>>

  /** Entries by hash, and hashes by sender and nonce. */
  datatype Tables = Tables(byHash: Entries, bySender: Senders)

  /* ---------- the two indexes ---------- */

  function Links(s: Senders, a: Address): map<Nonce, Hash> {
    if a in s then s[a] else map[]
  }

  predicate Has(s: Senders, a: Address, n: Nonce) {
    n in Links(s, a)
  }

  predicate EntryLinked(s: Senders, h: Hash, e: Entry) {
    e.hash == h && Has(s, e.sender, e.nonce) && Links(s, e.sender)[e.nonce] == h
  }

  /** The links of a sender lead to its entries. */
  ghost predicate LinksResolve(m: Entries, a: Address, links: map<Nonce, Hash>) {
    forall n <- links.Keys :: links[n] in m && m[links[n]].sender == a && m[links[n]].nonce == n
  }

  ghost predicate AllLinked(t: Tables) {
    forall h <- t.byHash.Keys :: EntryLinked(t.bySender, h, t.byHash[h])
  }

  ghost predicate AllResolve(t: Tables) {
    forall a: Address :: LinksResolve(t.byHash, a, Links(t.bySender, a))
  }

  ghost predicate NoneEmpty(s: Senders) {
    forall a <- s.Keys :: s[a] != map[]
  }

  /** Each index is the inverse of the other, and no sender has an empty index. */
  ghost predicate Inverse(t: Tables) {
    AllLinked(t) && AllResolve(t) && NoneEmpty(t.bySender)
  }

  /** A sender has one entry for a nonce. */
  lemma OnePerNonce(t: Tables, g: Hash, h: Hash)
    requires AllLinked(t) && g in t.byHash && h in t.byHash
    requires t.byHash[g].sender == t.byHash[h].sender && t.byHash[g].nonce == t.byHash[h].nonce
    ensures g == h
  {
    assert EntryLinked(t.bySender, g, t.byHash[g]) && EntryLinked(t.bySender, h, t.byHash[h]);
  }

  lemma LinksAgree(m: Entries, s: Senders, r: Senders, a: Address)
    requires Inverse(Tables(m, s)) && Inverse(Tables(m, r))
    ensures forall n <- Links(s, a).Keys :: Has(r, a, n) && Links(r, a)[n] == Links(s, a)[n]
  {
    assert LinksResolve(m, a, Links(s, a));
    forall n <- Links(s, a).Keys ensures Has(r, a, n) && Links(r, a)[n] == Links(s, a)[n] {
      var h := Links(s, a)[n];
      assert EntryLinked(r, h, m[h]);
    }
  }

  /** The sender index is determined by the entries. */
  lemma OneIndex(m: Entries, s: Senders, r: Senders)
    requires Inverse(Tables(m, s)) && Inverse(Tables(m, r))
    ensures s == r
  {
    forall a: Address ensures Links(s, a) == Links(r, a) {
      LinksAgree(m, s, r, a);
      LinksAgree(m, r, s, a);
    }
    forall a: Address ensures a in s <==> a in r {
      assert Links(s, a) == Links(r, a);
    }
    forall a <- s.Keys ensures s[a] == r[a] {
      assert Links(s, a) == Links(r, a);
    }
  }

  /** One entry for a hash, and for a sender and nonce. */
  ghost predicate Unique(pending: seq<Entry>) {
    forall i, j | 0 <= i < j < |pending| ::
      && pending[i].hash != pending[j].hash
      && (pending[i].sender != pending[j].sender || pending[i].nonce != pending[j].nonce)
  }

  function Unlink(s: Senders, a: Address, n: Nonce): Senders {
    var left := Links(s, a) - {n};
    if left == map[] then s - {a} else s[a := left]
  }

  function Link(s: Senders, a: Address, n: Nonce, h: Hash): Senders {
    s[a := Links(s, a)[n := h]]
  }

  /** The tables without the entry of a hash. */
  function Take(t: Tables, h: Hash): Tables
    requires h in t.byHash
  {
    Tables(t.byHash - {h}, Unlink(t.bySender, t.byHash[h].sender, t.byHash[h].nonce))
  }

  function Put(t: Tables, e: Entry): Tables {
    Tables(t.byHash[e.hash := e], Link(t.bySender, e.sender, e.nonce, e.hash))
  }

  lemma UnlinkLinks(s: Senders, a: Address, n: Nonce, b: Address)
    ensures Links(Unlink(s, a, n), b) == if a == b then Links(s, a) - {n} else Links(s, b)
  {
  }

  lemma LinkLinks(s: Senders, a: Address, n: Nonce, h: Hash, b: Address)
    ensures Links(Link(s, a, n, h), b) == if a == b then Links(s, a)[n := h] else Links(s, b)
  {
  }

  lemma TakeKeepsLinked(t: Tables, h: Hash)
    requires AllLinked(t) && h in t.byHash
    ensures AllLinked(Take(t, h))
  {
    var e, t' := t.byHash[h], Take(t, h);
    forall g <- t'.byHash.Keys ensures EntryLinked(t'.bySender, g, t'.byHash[g]) {
      var f := t.byHash[g];
      assert EntryLinked(t.bySender, g, f) && EntryLinked(t.bySender, h, e);
      UnlinkLinks(t.bySender, e.sender, e.nonce, f.sender);
    }
  }

  lemma TakeKeepsResolve(t: Tables, h: Hash)
    requires AllLinked(t) && AllResolve(t) && h in t.byHash
    ensures AllResolve(Take(t, h))
  {
    var e, t' := t.byHash[h], Take(t, h);
    assert EntryLinked(t.bySender, h, e);
    forall a: Address ensures LinksResolve(t'.byHash, a, Links(t'.bySender, a)) {
      assert LinksResolve(t.byHash, a, Links(t.bySender, a));
      UnlinkLinks(t.bySender, e.sender, e.nonce, a);
    }
  }

  lemma TakeKeepsInverse(t: Tables, h: Hash)
    requires Inverse(t) && h in t.byHash
    ensures Inverse(Take(t, h))
  {
    TakeKeepsLinked(t, h);
    TakeKeepsResolve(t, h);
  }

  lemma PutKeepsInverse(t: Tables, e: Entry)
    requires Inverse(t) && e.hash !in t.byHash && !Has(t.bySender, e.sender, e.nonce)
    ensures Inverse(Put(t, e))
  {
    var t' := Put(t, e);
    forall g <- t'.byHash.Keys ensures EntryLinked(t'.bySender, g, t'.byHash[g]) {
      if g != e.hash {
        assert EntryLinked(t.bySender, g, t.byHash[g]);
        LinkLinks(t.bySender, e.sender, e.nonce, e.hash, t.byHash[g].sender);
      }
    }
    forall a: Address ensures LinksResolve(t'.byHash, a, Links(t'.bySender, a)) {
      assert LinksResolve(t.byHash, a, Links(t.bySender, a));
      LinkLinks(t.bySender, e.sender, e.nonce, e.hash, a);
    }
  }

  /* ---------- sizes ---------- */

  function Count(s: Senders, a: Address): nat {
    |Links(s, a)|
  }

  lemma SizeWithout<K, V>(m: map<K, V>, k: K)
    requires k in m
    ensures |m - {k}| == |m| - 1
  {
    assert (m - {k}).Keys == m.Keys - {k};
  }

  lemma WithoutAbsent<K, V>(m: map<K, V>, k: K)
    requires k !in m
    ensures m - {k} == m
  {
  }

  lemma SizeWith<K, V>(m: map<K, V>, k: K, v: V)
    requires k !in m
    ensures |m[k := v]| == |m| + 1
  {
    assert m[k := v].Keys == m.Keys + {k};
  }

  ghost predicate WithinLimits(c: Config, t: Tables) {
    |t.byHash| <= c.maxGlobal && forall a: Address :: Count(t.bySender, a) <= c.maxPerSender
  }

  /** Taking an entry out makes room: one entry less in all and for its sender, and its nonce is free. */
  lemma TakeFrees(c: Config, t: Tables, h: Hash)
    requires AllLinked(t) && h in t.byHash && WithinLimits(c, t)
    ensures |Take(t, h).byHash| == |t.byHash| - 1 && WithinLimits(c, Take(t, h))
    ensures
      var e := t.byHash[h];
      && !Has(Take(t, h).bySender, e.sender, e.nonce)
      && Count(Take(t, h).bySender, e.sender) == Count(t.bySender, e.sender) - 1
  {
    var e := t.byHash[h];
    SizeWithout(t.byHash, h);
    assert EntryLinked(t.bySender, h, e);
    SizeWithout(Links(t.bySender, e.sender), e.nonce);
    forall a: Address ensures Count(Take(t, h).bySender, a) <= c.maxPerSender {
      UnlinkLinks(t.bySender, e.sender, e.nonce, a);
      assert Count(t.bySender, a) <= c.maxPerSender;
    }
    UnlinkLinks(t.bySender, e.sender, e.nonce, e.sender);
  }

  lemma TakeKeepsFree(t: Tables, h: Hash, a: Address, n: Nonce)
    requires h in t.byHash && !Has(t.bySender, a, n)
    ensures !Has(Take(t, h).bySender, a, n) && Count(Take(t, h).bySender, a) <= Count(t.bySender, a)
  {
    var e := t.byHash[h];
    UnlinkLinks(t.bySender, e.sender, e.nonce, a);
    if e.sender == a && e.nonce in Links(t.bySender, a) {
      SizeWithout(Links(t.bySender, a), e.nonce);
    } else if e.sender == a {
      WithoutAbsent(Links(t.bySender, a), e.nonce);
    }
  }

  lemma PutFills(c: Config, t: Tables, e: Entry)
    requires WithinLimits(c, t) && e.hash !in t.byHash && !Has(t.bySender, e.sender, e.nonce)
    requires |t.byHash| < c.maxGlobal && Count(t.bySender, e.sender) < c.maxPerSender
    ensures |Put(t, e).byHash| == |t.byHash| + 1 && WithinLimits(c, Put(t, e))
  {
    SizeWith(t.byHash, e.hash, e);
    forall a: Address ensures Count(Put(t, e).bySender, a) <= c.maxPerSender {
      LinkLinks(t.bySender, e.sender, e.nonce, e.hash, a);
      assert Count(t.bySender, a) <= c.maxPerSender;
      if a == e.sender {
        SizeWith(Links(t.bySender, a), e.nonce, e.hash);
      }
    }
  }

  /* ---------- what an add may do ---------- */

  /** The entry with the newcomer's sender and nonce. */
  function Rival(s: Senders, e: Entry): Option<Hash> {
    if Has(s, e.sender, e.nonce) then Some(Links(s, e.sender)[e.nonce]) else None
  }

  function ReplacementFloor(c: Config, price: nat): nat {
    price * (100 + c.priceBumpPercent) / 100
  }

  predicate Cheaper(m: Entries, h: Hash, price: nat) {
    h in m && m[h].price < price
  }

  /** A cheapest entry, strictly cheaper than the price. */
  ghost predicate Victim(m: Entries, h: Hash, price: nat) {
    Cheaper(m, h, price) && forall g <- m.Keys :: m[h].price <= m[g].price
  }

  /** Why an add is refused, if it is. */
  ghost function Refusal(c: Config, t: Tables, e: Entry): Option<Rejection> {
    if e.hash in t.byHash then Some(AlreadyKnown) else
    match Rival(t.bySender, e)
    case Some(h) =>
      if c.priceBumpPercent == 0 then Some(RBFDisabled)
      else if h in t.byHash && e.price < ReplacementFloor(c, t.byHash[h].price) then Some(ReplaceUnder)
      else None
    case None =>
      if Count(t.bySender, e.sender) >= c.maxPerSender then Some(SenderLimit)
      else if |t.byHash| >= c.maxGlobal && !exists h: Hash :: Cheaper(t.byHash, h, e.price) then Some(PoolFull)
      else None
  }

  /** What an accepted add takes out: the rival, or a victim when the pool is full, or nothing. */
  ghost predicate Removes(c: Config, t: Tables, e: Entry, out: Option<Hash>) {
    if Rival(t.bySender, e).Some? then out == Rival(t.bySender, e)
    else if |t.byHash| < c.maxGlobal then out.None?
    else out.Some? && Victim(t.byHash, out.value, e.price)
  }

  function Leave(t: Tables, out: Option<Hash>): Tables {
    if out.Some? && out.value in t.byHash then Take(t, out.value) else t
  }

  lemma RivalIsKnown(t: Tables, e: Entry)
    requires AllResolve(t) && Rival(t.bySender, e).Some?
    ensures
      var h := Rival(t.bySender, e).value;
      h in t.byHash && t.byHash[h].sender == e.sender && t.byHash[h].nonce == e.nonce
  {
    assert LinksResolve(t.byHash, e.sender, Links(t.bySender, e.sender));
  }

  /** A newcomer replaces its rival exactly when it pays the bump: the old price and the percentage, rounded down. */
  lemma ReplacementPays(c: Config, t: Tables, e: Entry, rival: Entry)
    requires AllResolve(t) && e.hash !in t.byHash && Rival(t.bySender, e).Some?
    requires t.byHash[RivalOf(t, e)] == rival
    ensures Refusal(c, t, e).None? <==>
      c.priceBumpPercent > 0 && 100 * e.price > rival.price * (100 + c.priceBumpPercent) - 100
    ensures Refusal(c, t, e).None? && rival.price * c.priceBumpPercent >= 100 ==> e.price > rival.price
  {
    var x := rival.price * (100 + c.priceBumpPercent);
    assert x == 100 * (x / 100) + x % 100;
    Distribute(rival.price, 100, c.priceBumpPercent);
  }

  function RivalOf(t: Tables, e: Entry): (h: Hash)
    requires AllResolve(t) && Rival(t.bySender, e).Some?
    ensures h in t.byHash
  {
    RivalIsKnown(t, e);
    Rival(t.bySender, e).value
  }

  /**
   An add is accepted exactly when its hash is new and it pays for its rival's place or there is a place: below both
   limits, or with a cheaper entry to evict.
   */
  lemma AcceptedIff(c: Config, t: Tables, e: Entry)
    requires AllResolve(t)
    ensures Refusal(c, t, e).None? <==>
      && e.hash !in t.byHash
      && if Rival(t.bySender, e).Some?
         then c.priceBumpPercent > 0 && 100 * e.price > t.byHash[RivalOf(t, e)].price * (100 + c.priceBumpPercent) - 100
         else
           && Count(t.bySender, e.sender) < c.maxPerSender
           && (|t.byHash| < c.maxGlobal || exists h: Hash :: h in t.byHash && t.byHash[h].price < e.price)
  {
    if e.hash !in t.byHash && Rival(t.bySender, e).Some? {
      ReplacementPays(c, t, e, t.byHash[RivalOf(t, e)]);
    }
    assert forall h: Hash :: Cheaper(t.byHash, h, e.price) <==> h in t.byHash && t.byHash[h].price < e.price;
  }

  /** A full pool gives up none but a cheapest entry, so no entry left or added pays less than the one that went. */
  lemma EvictionRaisesFloor(c: Config, t: Tables, e: Entry, out: Hash, h: Hash)
    requires Refusal(c, t, e).None? && Rival(t.bySender, e).None? && Removes(c, t, e, Some(out))
    requires h in Put(Leave(t, Some(out)), e).byHash
    ensures out in t.byHash && |t.byHash| >= c.maxGlobal
    ensures t.byHash[out].price <= Put(Leave(t, Some(out)), e).byHash[h].price && t.byHash[out].price < e.price
  {
  }

  /** Whatever an accepted add takes out, there is then room for the newcomer, and its sender and nonce are free. */
  lemma RoomAfter(c: Config, t: Tables, e: Entry, out: Option<Hash>)
    requires Inverse(t) && WithinLimits(c, t) && c.maxGlobal > 0 && c.maxPerSender > 0
    requires Refusal(c, t, e).None? && Removes(c, t, e, out)
    ensures
      var left := Leave(t, out);
      && Inverse(left) && WithinLimits(c, left) && |left.byHash| == |t.byHash| - (if out.Some? then 1 else 0)
      && |left.byHash| < c.maxGlobal && Count(left.bySender, e.sender) < c.maxPerSender
      && e.hash !in left.byHash && !Has(left.bySender, e.sender, e.nonce)
  {
    if out.Some? {
      if Rival(t.bySender, e).Some? {
        RivalIsKnown(t, e);
      } else {
        TakeKeepsFree(t, out.value, e.sender, e.nonce);
      }
      TakeKeepsInverse(t, out.value);
      TakeFrees(c, t, out.value);
    }
  }

  /** An accepted add keeps the indexes inverse and within the limits. */
  lemma AddKeeps(c: Config, t: Tables, e: Entry, out: Option<Hash>)
    requires Inverse(t) && WithinLimits(c, t) && c.maxGlobal > 0 && c.maxPerSender > 0
    requires Refusal(c, t, e).None? && Removes(c, t, e, out)
    ensures
      var t' := Put(Leave(t, out), e);
      Inverse(t') && WithinLimits(c, t') && |t'.byHash| == |t.byHash| + 1 - (if out.Some? then 1 else 0)
  {
    RoomAfter(c, t, e, out);
    PutKeepsInverse(Leave(t, out), e);
    PutFills(c, Leave(t, out), e);
  }

  /** Taking any hash out keeps the indexes inverse and within the limits. */
  lemma RemoveKeeps(c: Config, t: Tables, h: Hash)
    requires Inverse(t) && WithinLimits(c, t)
    ensures
      var t' := Leave(t, Some(h));
      && Inverse(t') && WithinLimits(c, t') && t'.byHash == t.byHash - {h}
      && |t'.byHash| == |t.byHash| - (if h in t.byHash then 1 else 0)
  {
    hide AllLinked, AllResolve, NoneEmpty, WithinLimits;
    if h in t.byHash {
      TakeKeepsInverse(t, h);
      TakeFrees(c, t, h);
    } else {
      WithoutAbsent(t.byHash, h);
    }
  }

  /* ---------- whole runs ---------- */

  /** A call that changed the pool: an accepted add with what it took out, or the removal of a present hash. */
  datatype Event = Admitted(entry: Entry, out: Option<Hash>) | Dropped(hash: Hash)

  ghost predicate Possible(c: Config, t: Tables, ev: Event) {
    match ev
    case Admitted(e, out) => Refusal(c, t, e).None? && Removes(c, t, e, out)
    case Dropped(h) => h in t.byHash
  }

  function Next(t: Tables, ev: Event): Tables {
    match ev
    case Admitted(e, out) => Put(Leave(t, out), e)
    case Dropped(h) => Leave(t, Some(h))
  }

  /** How many entries more a call leaves. */
  function Gain(ev: Event): int {
    match ev
    case Admitted(_, out) => if out.Some? then 0 else 1
    case Dropped(_) => -1
  }

  lemma NextKeeps(c: Config, t: Tables, ev: Event)
    requires c.maxGlobal > 0 && c.maxPerSender > 0 && Inverse(t) && WithinLimits(c, t) && Possible(c, t, ev)
    ensures Inverse(Next(t, ev)) && WithinLimits(c, Next(t, ev)) && |Next(t, ev).byHash| == |t.byHash| + Gain(ev)
  {
    hide Inverse, WithinLimits, Refusal, Removes;
    match ev
    case Admitted(e, out) => AddKeeps(c, t, e, out);
    case Dropped(h) => RemoveKeeps(c, t, h);
  }

  /** Admissions less replacements, evictions and removals. */
  function Balance(events: seq<Event>): int {
    if events == [] then 0 else Balance(events[..|events| - 1]) + Gain(events[|events| - 1])
  }

  ghost predicate Run(c: Config, ts: seq<Tables>, events: seq<Event>) {
    && |ts| == |events| + 1 && ts[0] == Tables(map[], map[])
    && (forall i | 0 <= i < |events| :: Possible(c, ts[i], events[i]) && ts[i + 1] == Next(ts[i], events[i]))
  }

  /** Every run keeps the indexes inverse and within the limits, and no entry appears or disappears unaccounted. */
  lemma {:induction false} RunsKeepIndexes(c: Config, ts: seq<Tables>, events: seq<Event>, n: nat)
    requires c.maxGlobal > 0 && c.maxPerSender > 0 && Run(c, ts, events) && n < |ts|
    ensures Inverse(ts[n]) && WithinLimits(c, ts[n]) && |ts[n].byHash| == Balance(events[..n])
  {
    if n > 0 {
      hide Inverse, WithinLimits, Next, Possible;
      RunsKeepIndexes(c, ts, events, n - 1);
      assert Possible(c, ts[n - 1], events[n - 1]) && ts[n - 1 + 1] == Next(ts[n - 1], events[n - 1]);
      assert events[..n][..n - 1] == events[..n - 1];
      NextKeeps(c, ts[n - 1], events[n - 1]);
    }
  }
}
