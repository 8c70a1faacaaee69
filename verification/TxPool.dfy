/** The pool as an object: two maps updated in place, an eviction scan, and lifetime counters. */
module TxPool {
  import opened Options
  import opened Mempool

  ghost predicate Keyed(m: Entries) {
    forall h <- m.Keys :: m[h].hash == h
  }

  class Pool {
    const cfg: Config
    var byHash: Entries
    var bySender: Senders
    var admits: nat
    var replaced: nat
    var evictions: nat
    /** Entries taken out by Remove. */
    ghost var removed: nat

    constructor (cfg: Config)
      requires cfg.maxGlobal > 0 && cfg.maxPerSender > 0
      ensures this.cfg == cfg && Now() == Tables(map[], map[]) && Valid()
    {
      this.cfg, byHash, bySender := cfg, map[], map[];
      admits, replaced, evictions, removed := 0, 0, 0, 0;
    }

    ghost function Now(): Tables
      reads this
    {
      Tables(byHash, bySender)
    }

    /** The indexes agree and stay within the limits, and every admitted entry is still there or accounted for. */
    ghost predicate Valid()
      reads this
    {
      && cfg.maxGlobal > 0 && cfg.maxPerSender > 0
      && Inverse(Now())
      && WithinLimits(cfg, Now())
      && |byHash| + replaced + evictions + removed == admits
    }

    /** All entries in no particular order, each once. No two have the same sender and nonce. */
    method Pending() returns (pending: seq<Entry>)
      requires Valid()
      ensures Unique(pending) && multiset(pending) == multiset(byHash.Values)
    {
      pending := [];
      var rest := byHash.Keys;
      while rest != {}
        invariant rest <= byHash.Keys
        invariant Unique(pending) && forall e :: e in pending <==> e.hash in byHash.Keys - rest && byHash[e.hash] == e
      {
        var h :| h in rest;
        rest := rest - {h};
        OneMore(Now(), pending, h);
        pending := pending + [byHash[h]];
      }
      CollectedOnce(Now(), pending);
    }

    method RemoveLocked(hash: Hash)
      modifies this`byHash, this`bySender
      ensures Now() == Leave(old(Now()), Some(hash))
    {
      if hash !in byHash { return; }
      var e := byHash[hash];
      byHash := byHash - {hash};
      if e.sender in bySender {
        var links := bySender[e.sender] - {e.nonce};
        bySender := bySender[e.sender := links];
        if links == map[] {
          bySender := bySender - {e.sender};
        }
      }
      assert bySender == Unlink(old(bySender), e.sender, e.nonce);
    }

    method Remove(hash: Hash)
      requires Valid()
      modifies this`byHash, this`bySender, this`removed
      ensures Valid()
      ensures byHash == old(byHash) - {hash}
    {
      hide Inverse, WithinLimits;
      RemoveKeeps(cfg, Now(), hash);
      if hash in byHash {
        removed := removed + 1;
      }
      RemoveLocked(hash);
    }

    /** One pass over the entries, in no particular order; a cheapest one goes. */
    method EvictCheaperThan(price: nat) returns (evicted: bool, ghost victim: Hash)
      requires Keyed(byHash)
      modifies this`byHash, this`bySender, this`evictions
      ensures evicted <==> exists h: Hash :: Cheaper(old(byHash), h, price)
      ensures !evicted ==> Now() == old(Now()) && evictions == old(evictions)
      ensures evicted ==>
        && Victim(old(byHash), victim, price) && Now() == Leave(old(Now()), Some(victim))
        && evictions == old(evictions) + 1
    {
      var worst: Option<Entry> := None;
      var rest := byHash.Keys;
      victim := 0;
      while rest != {}
        invariant rest <= byHash.Keys
        invariant worst.None? ==> forall h <- byHash.Keys - rest :: byHash[h].price >= price
        invariant worst.Some? ==> Cheaper(byHash, worst.value.hash, price) && byHash[worst.value.hash] == worst.value
        invariant worst.Some? ==> forall h <- byHash.Keys - rest :: worst.value.price <= byHash[h].price
      {
        var h :| h in rest;
        rest := rest - {h};
        var e := byHash[h];
        if e.price < price && (worst.None? || e.price < worst.value.price) {
          worst := Some(e);
        }
      }
      if worst.None? { return false, 0; }
      victim := worst.value.hash;
      assert Cheaper(byHash, victim, price);
      RemoveLocked(worst.value.hash);
      evictions := evictions + 1;
      evicted := true;
    }

    /** Takes out the entry with the newcomer's sender and nonce, if the newcomer pays enough more. */
    method TryReplace(e: Entry) returns (refused: Option<Rejection>, replacing: bool)
      requires AllResolve(Now()) && e.hash !in byHash
      modifies this`byHash, this`bySender
      ensures replacing <==> Rival(old(bySender), e).Some? && refused.None?
      ensures Rival(old(bySender), e).Some? ==> refused == Refusal(cfg, old(Now()), e)
      ensures Rival(old(bySender), e).None? ==> refused.None?
      ensures Now() == if replacing then Leave(old(Now()), Rival(old(bySender), e)) else old(Now())
    {
      if e.sender in bySender && e.nonce in bySender[e.sender] {
        var oldHash := bySender[e.sender][e.nonce];
        RivalIsKnown(Now(), e);
        if cfg.priceBumpPercent == 0 { return Some(RBFDisabled), false; }
        if e.price < ReplacementFloor(cfg, byHash[oldHash].price) { return Some(ReplaceUnder), false; }
        RemoveLocked(oldHash);
        return None, true;
      }
      return None, false;
    }

    /** The limits, and an eviction when the pool is full. */
    method MakeRoom(e: Entry) returns (refused: Option<Rejection>, ghost out: Option<Hash>)
      requires Keyed(byHash)
      modifies this`byHash, this`bySender, this`evictions
      ensures refused ==
        if Count(old(bySender), e.sender) >= cfg.maxPerSender then Some(SenderLimit)
        else if |old(byHash)| >= cfg.maxGlobal && !(exists h: Hash :: Cheaper(old(byHash), h, e.price))
        then Some(PoolFull)
        else None
      ensures refused.Some? ==> out.None?
      ensures refused.None? ==> out.Some? == (|old(byHash)| >= cfg.maxGlobal)
      ensures out.Some? ==> Victim(old(byHash), out.value, e.price)
      ensures Now() == Leave(old(Now()), out) && evictions == old(evictions) + if out.Some? then 1 else 0
    {
      out := None;
      var senderCount := if e.sender in bySender then |bySender[e.sender]| else 0;
      if senderCount >= cfg.maxPerSender { return Some(SenderLimit), None; }
      if |byHash| >= cfg.maxGlobal {
        var evicted, victim := EvictCheaperThan(e.price);
        if !evicted { return Some(PoolFull), None; }
        out := Some(victim);
      }
      refused := None;
    }

    method Insert(e: Entry)
      modifies this`byHash, this`bySender, this`admits
      ensures Now() == Put(old(Now()), e) && admits == old(admits) + 1
    {
      byHash := byHash[e.hash := e];
      var links: map<Nonce, Hash> := if e.sender in bySender then bySender[e.sender] else map[];
      bySender := bySender[e.sender := links[e.nonce := e.hash]];
      admits := admits + 1;
    }

    /** Add without the accounting: refused, or one in and at most one out. */
    method AddLocked(e: Entry) returns (refused: Option<Rejection>, ghost out: Option<Hash>)
      requires Inverse(Now()) && WithinLimits(cfg, Now()) && cfg.maxGlobal > 0 && cfg.maxPerSender > 0
      modifies this`byHash, this`bySender, this`admits, this`replaced, this`evictions
      ensures refused == Refusal(cfg, old(Now()), e)
      ensures refused.Some? ==>
        Now() == old(Now()) && admits == old(admits) && replaced + evictions == old(replaced + evictions)
      ensures refused.None? ==>
        && Removes(cfg, old(Now()), e, out) && Now() == Put(Leave(old(Now()), out), e) && admits == old(admits) + 1
        && replaced + evictions == old(replaced + evictions) + if out.Some? then 1 else 0
    {
      hide AllLinked, AllResolve, NoneEmpty, WithinLimits;
      out := None;
      if e.hash in byHash { return Some(AlreadyKnown), None; }
      ghost var rival := Rival(bySender, e);
      AreKeyed(Now());
      var replacing: bool;
      refused, replacing := TryReplace(e);
      if refused.Some? { return; }
      if replacing {
        RoomAfter(cfg, old(Now()), e, rival);
        AreKeyed(Now());
      }
      refused, out := MakeRoom(e);
      if refused.Some? { return; }
      if replacing {
        out := rival;
        replaced := replaced + 1;
      }
      Insert(e);
    }

    /** `out` is what an accepted newcomer takes out. A refused one changes nothing. */
    method Add(e: Entry) returns (refused: Option<Rejection>, ghost out: Option<Hash>)
      requires Valid()
      modifies this`byHash, this`bySender, this`admits, this`replaced, this`evictions
      ensures Valid()
      ensures refused == Refusal(cfg, old(Now()), e)
      ensures refused.Some? ==> Now() == old(Now())
      ensures refused.None? ==> Removes(cfg, old(Now()), e, out) && Now() == Put(Leave(old(Now()), out), e)
      ensures refused.None? && Rival(old(bySender), e).Some? ==>
        100 * e.price > old(byHash)[RivalOf(old(Now()), e)].price * (100 + cfg.priceBumpPercent) - 100
    {
      if Rival(bySender, e).Some? && e.hash !in byHash {
        ReplacementPays(cfg, Now(), e, byHash[RivalOf(Now(), e)]);
      }
      refused, out := AddLocked(e);
      if refused.None? {
        AddKeeps(cfg, old(Now()), e, out);
      }
    }
  }

  lemma AreKeyed(t: Tables)
    requires AllLinked(t)
    ensures Keyed(t.byHash)
  {
    forall h <- t.byHash.Keys ensures t.byHash[h].hash == h {
      assert EntryLinked(t.bySender, h, t.byHash[h]);
    }
  }

  lemma OneMore(t: Tables, pending: seq<Entry>, h: Hash)
    requires AllLinked(t) && Unique(pending) && h in t.byHash
    requires forall e <- pending :: e.hash in t.byHash && t.byHash[e.hash] == e && e.hash != h
    ensures Unique(pending + [t.byHash[h]]) && t.byHash[h].hash == h
  {
    assert EntryLinked(t.bySender, h, t.byHash[h]);
    forall e <- pending ensures e.sender != t.byHash[h].sender || e.nonce != t.byHash[h].nonce {
      if e.sender == t.byHash[h].sender && e.nonce == t.byHash[h].nonce {
        OnePerNonce(t, e.hash, h);
      }
    }
  }

  lemma CollectedOnce(t: Tables, pending: seq<Entry>)
    requires AllLinked(t) && Unique(pending)
    requires forall e :: e in pending <==> e.hash in t.byHash && t.byHash[e.hash] == e
    ensures multiset(pending) == multiset(t.byHash.Values)
  {
    AreKeyed(t);
    forall e: Entry ensures multiset(pending)[e] == multiset(t.byHash.Values)[e] {
      CountOnce(pending, e);
    }
  }

  lemma {:induction false} CountOnce(pending: seq<Entry>, e: Entry)
    requires Unique(pending)
    ensures multiset(pending)[e] == if e in pending then 1 else 0
  {
    if pending != [] {
      var last := |pending| - 1;
      assert pending == pending[..last] + [pending[last]];
      CountOnce(pending[..last], e);
    }
  }
}
