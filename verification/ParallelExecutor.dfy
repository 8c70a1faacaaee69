/** The executor that drives Dew-PE: forks, validation in index order, merge or re-execution. */
module ParallelExecutor {
  import opened Accounts
  import opened Execution
  import opened SerialEquivalence
  import opened ReadBack
  import opened Durability

  class StateDB {
    const backend: Layer
    var context: Context

    constructor (backend: Layer, context: Context)
      ensures this.backend == backend && this.context == context
    {
      this.backend := backend;
      this.context := context;
    }

    /** An independent database over the same backend. */
    method Copy() returns (fork: StateDB)
      ensures fresh(fork)
      ensures fork.backend == backend && fork.context == Fork(context)
    {
      var accounts := CopyMap(context.cache.accounts);
      var storage := CopyMap(context.cache.storage);
      fork := new StateDB(backend, Fork(context.(cache := Layer(accounts, storage))));
    }

    /** Merges the dirty accounts and slots of a speculative run into this database. */
    method ApplyOverlay(src: Context)
      modifies this
      ensures context == Merged(old(context), src)
    {
      var accounts := MergeAccounts(context.cache.accounts, src);
      var storage := MergeSlots(context.cache.storage, src);
      var complete := MergeOwners(accounts, src);
      context := context.(cache := Layer(complete, storage),
                          accountDirty := context.accountDirty + src.accountDirty + (complete.Keys - accounts.Keys),
                          storageDirty := context.storageDirty + src.storageDirty);
    }
  }

  method CopyMap<K, V>(m: map<K, V>) returns (copied: map<K, V>)
    ensures copied == m
  {
    copied := map[];
    var rest := m.Keys;
    while rest != {}
      invariant rest <= m.Keys && copied.Keys == m.Keys - rest
      invariant forall k <- copied.Keys :: copied[k] == m[k]
    {
      var k :| k in rest;
      copied := copied[k := m[k]];
      rest := rest - {k};
    }
  }

  lemma AccountMerged(live: map<Address, Account>, src: Context, done: set<Address>, a: Address)
    ensures WithAccounts(live, src, done + {a}) ==
            if a in src.cache.accounts then WithAccounts(live, src, done)[a := src.cache.accounts[a]]
            else WithAccounts(live, src, done) - {a}
  {
  }

  lemma OwnerMerged(live: map<Address, Account>, src: Context, done: set<SlotId>, id: SlotId)
    ensures WithOwners(live, src, done + {id}) ==
            if id.addr in src.cache.accounts && id.addr !in WithOwners(live, src, done)
            then WithOwners(live, src, done)[id.addr := src.cache.accounts[id.addr]]
            else WithOwners(live, src, done)
  {
  }

  /** First loop of ApplyOverlay: dirty accounts are copied, or removed when the run dropped them. */
  method MergeAccounts(live: map<Address, Account>, src: Context) returns (accounts: map<Address, Account>)
    ensures accounts == WithAccounts(live, src, src.accountDirty)
  {
    assert WithAccounts(live, src, {}) == live;
    hide WithAccounts;
    accounts := live;
    var todo: set<Address>, done: set<Address> := src.accountDirty, {};
    while todo != {}
      invariant todo + done == src.accountDirty
      invariant accounts == WithAccounts(live, src, done)
      decreases todo
    {
      var a :| a in todo;
      AccountMerged(live, src, done, a);
      if a in src.cache.accounts {
        accounts := accounts[a := src.cache.accounts[a]];
      } else {
        accounts := accounts - {a};
      }
      todo, done := todo - {a}, done + {a};
    }
    assert done == src.accountDirty;
  }

  /** Second loop of ApplyOverlay: dirty slots are copied, or cleared when their account was dropped. */
  method MergeSlots(live: map<SlotId, Word>, src: Context) returns (storage: map<SlotId, Word>)
    ensures storage == WithSlots(live, src, src.storageDirty)
  {
    storage := live;
    var todo, done := src.storageDirty, {};
    while todo != {}
      invariant todo + done == src.storageDirty
      invariant storage == WithSlots(live, src, done)
      decreases todo
    {
      var id :| id in todo;
      storage := storage[id := MergedWord(src, id)];
      todo, done := todo - {id}, done + {id};
    }
    assert done == src.storageDirty;
  }

  /** Third loop of ApplyOverlay: accounts of dirty slots the live caches do not hold. */
  method MergeOwners(live: map<Address, Account>, src: Context) returns (accounts: map<Address, Account>)
    ensures accounts == WithOwners(live, src, src.storageDirty)
  {
    assert WithOwners(live, src, {}) == live;
    hide WithOwners;
    accounts := live;
    var todo, done := src.storageDirty, {};
    while todo != {}
      invariant todo + done == src.storageDirty
      invariant accounts == WithOwners(live, src, done)
      decreases todo
    {
      var id :| id in todo;
      OwnerMerged(live, src, done, id);
      if id.addr in src.cache.accounts && id.addr !in accounts {
        accounts := accounts[id.addr := src.cache.accounts[id.addr]];
      }
      todo, done := todo - {id}, done + {id};
    }
    assert done == src.storageDirty;
  }

  /** Whether any key of the access set was written earlier. */
  method ConflictsWith(c: Context, earlier: set<AccessKey>) returns (hit: bool)
    ensures hit == Conflicts(c, earlier)
  {
    var keys := c.readSet + c.writeSet;
    while keys != {}
      invariant keys <= c.readSet + c.writeSet
      invariant (c.readSet + c.writeSet - keys) * earlier == {}
      decreases keys
    {
      var k :| k in keys;
      if k in earlier {
        assert k in (c.readSet + c.writeSet) * earlier;
        return true;
      }
      keys := keys - {k};
    }
    assert c.readSet + c.writeSet - keys == c.readSet + c.writeSet;
    hit := false;
  }

  /** Accounts and words read as the history says. */
  ghost predicate Shows(db: Layer, start: Context, h: History, cache: Layer) {
    && (forall a: Address :: AccountAt(db, cache, a) == AccountAfter(db, start, h, a))
    && (forall id: SlotId :: WordAt(db, cache, id) == WordAfter(db, start, h, id))
  }

  /** The results and the state are those the history of accesses gives, and what differs from the disk is marked. */
  ghost predicate AsRemembered(db: Layer, start: Context, msgs: seq<Message>, end: Context, results: seq<Result>) {
    && results == ReplayAll(db, start, msgs, []).1
    && Recalls(db, start, ReplayAll(db, start, msgs, []).0, end)
    && (Marked(db, start) ==> Marked(db, end))
  }

  lemma SequentialIsReplayed(db: Layer, start: Context, msgs: seq<Message>)
    ensures AsRemembered(db, start, msgs, ApplyAll(db, start, msgs).0, ApplyAll(db, start, msgs).1)
  {
    hide Marked;
    StartRecalls(db, start);
    BlockIsReplay(db, start, [], start, msgs);
    if Marked(db, start) {
      SequentialMarks(db, start, msgs);
    }
  }

  /** Whatever reads like the sequential run reads as its history says. */
  lemma ViewIsShown(db: Layer, start: Context, msgs: seq<Message>)
    ensures forall cache :: SameView(db, cache, ApplyAll(db, start, msgs).0.cache) ==>
      Shows(db, start, ReplayAll(db, start, msgs, []).0, cache)
  {
    SequentialIsReplayed(db, start, msgs);
    var h, c := ReplayAll(db, start, msgs, []).0, ApplyAll(db, start, msgs).0;
    hide ReplayAll, ApplyAll;
    forall cache | SameView(db, cache, c.cache) ensures Shows(db, start, h, cache) {
      forall a: Address ensures AccountAt(db, cache, a) == AccountAfter(db, start, h, a) {
        assert See(db, cache, AccountKey(a)) == See(db, c.cache, AccountKey(a)) && RecallsAccount(db, start, h, c, a);
      }
      forall id: SlotId ensures WordAt(db, cache, id) == WordAfter(db, start, h, id) {
        assert See(db, cache, StorageKey(id)) == See(db, c.cache, StorageKey(id)) && RecallsWord(db, start, h, c, id);
      }
    }
  }

  /** Runs the messages in index order, up to and including the first rejected one. */
  method ApplySequential(live: StateDB, msgs: seq<Message>) returns (results: seq<Result>)
    modifies live
    ensures (live.context, results) == ApplyAll(live.backend, old(live.context), msgs)
    ensures AsRemembered(live.backend, old(live.context), msgs, live.context, results)
  {
    SequentialIsReplayed(live.backend, live.context, msgs);
    hide AsRemembered, Apply;
    results := [];
    var i := 0;
    while i < |msgs|
      invariant i <= |msgs|
      invariant ApplyAll(live.backend, old(live.context), msgs).0 == ApplyAll(live.backend, live.context, msgs[i..]).0
      invariant ApplyAll(live.backend, old(live.context), msgs).1 ==
        results + ApplyAll(live.backend, live.context, msgs[i..]).1
    {
      var (c, r) := Apply(live.backend, live.context, msgs[i]);
      assert msgs[i..][1..] == msgs[i + 1..];
      live.context := c;
      results := results + [r];
      if r.Rejected? {
        return;
      }
      i := i + 1;
    }
    assert results + [] == results;
  }

  /**
   Speculates on every message, in any order, then validates in index order. When the access sets are
   truthful the results and everything readable from the state are those of the sequential run.
   */
  method ApplyParallel(live: StateDB, workers: nat, msgs: seq<Message>) returns (results: seq<Result>)
    requires live.context.touched == {}
    modifies live
    ensures Truthful(live.backend, old(live.context), old(live.context), msgs) ==>
      && results == ApplyAll(live.backend, old(live.context), msgs).1
      && SameView(live.backend, live.context.cache, ApplyAll(live.backend, old(live.context), msgs).0.cache)
      && results == ReplayAll(live.backend, old(live.context), msgs, []).1
      && Shows(live.backend, old(live.context), ReplayAll(live.backend, old(live.context), msgs, []).0,
               live.context.cache)
    ensures Marked(live.backend, old(live.context)) ==> Marked(live.backend, live.context)
  {
    SequentialIsReplayed(live.backend, live.context, msgs);
    if Marked(live.backend, live.context) {
      ParallelMarks(live.backend, live.context, live.context, {}, msgs);
    }
    ViewIsShown(live.backend, live.context, msgs);
    hide Marked, Recalls, ReplayAll, Shows, SameView;
    if |msgs| <= 1 || workers == 1 {
      results := ApplySequential(live, msgs);
      return;
    }
    var specs := Speculate(live, msgs);
    if Truthful(live.backend, live.context, live.context, msgs) {
      ParallelIsSequential(live.backend, live.context, msgs);
    }
    results := ValidateInOrder(live, specs, msgs);
  }

  /** The validation loop: merge a fork that meets no earlier write, otherwise run the message again. */
  method ValidateInOrder(live: StateDB, specs: seq<(Context, Result)>, msgs: seq<Message>)
    returns (results: seq<Result>)
    requires |specs| == |msgs|
    requires forall i :: 0 <= i < |msgs| ==>
      specs[i] == Apply(live.backend, StartTracking(Fork(live.context)), msgs[i])
    modifies live
    ensures (live.context, results) == Validate(live.backend, old(live.context), old(live.context), {}, msgs)
  {
    ghost var db, start := live.backend, live.context;
    var earlier: set<AccessKey> := {};
    results := [];
    for i := 0 to |msgs|
      invariant Validate(db, start, start, {}, msgs).0 == Validate(db, start, live.context, earlier, msgs[i..]).0
      invariant Validate(db, start, start, {}, msgs).1 ==
        results + Validate(db, start, live.context, earlier, msgs[i..]).1
    {
      assert msgs[i..][0] == msgs[i] && msgs[i..][1..] == msgs[i + 1..];
      var r, written := Commit(live, start, earlier, specs[i], msgs[i]);
      results := results + [r];
      if r.Rejected? {
        return;
      }
      earlier := earlier + written;
    }
    assert results + [] == results;
  }

  /** One turn of the validation loop. */
  method Commit(live: StateDB, ghost parent: Context, earlier: set<AccessKey>, spec: (Context, Result), m: Message)
    returns (r: Result, written: set<AccessKey>)
    requires spec == Apply(live.backend, StartTracking(Fork(parent)), m)
    modifies live
    ensures (live.context, r, written) == ValidateOne(live.backend, parent, old(live.context), earlier, m)
  {
    var (fork, speculated) := spec;
    var conflict := ConflictsWith(fork, earlier);
    if speculated.Rejected? || conflict {
      var (c, again) := Apply(live.backend, StartTracking(live.context), m);
      live.context := StopTracking(c);
      r, written := again, c.writeSet;
    } else {
      live.ApplyOverlay(fork);
      r, written := speculated, fork.writeSet;
    }
  }

  function Indices(n: nat): (s: set<nat>)
    ensures forall i: nat :: i in s <==> i < n
  {
    if n == 0 then {} else Indices(n - 1) + {n - 1}
  }

  /** Every message on its own fork of the parent, in any order. */
  method Speculate(parent: StateDB, msgs: seq<Message>) returns (specs: seq<(Context, Result)>)
    ensures |specs| == |msgs|
    ensures forall i :: 0 <= i < |msgs| ==>
      specs[i] == Apply(parent.backend, StartTracking(Fork(parent.context)), msgs[i])
  {
    var context := parent.context;
    specs := seq(|msgs|, _ => (context, OutOfGas));
    var pending := Indices(|msgs|);
    while pending != {}
      invariant |specs| == |msgs|
      invariant forall i :: 0 <= i < |msgs| && i !in pending ==>
        specs[i] == Apply(parent.backend, StartTracking(Fork(parent.context)), msgs[i])
      invariant pending <= Indices(|msgs|)
      decreases pending
    {
      var i :| i in pending;
      var fork := parent.Copy();
      specs := specs[i := Apply(fork.backend, StartTracking(fork.context), msgs[i])];
      pending := pending - {i};
    }
  }
}
