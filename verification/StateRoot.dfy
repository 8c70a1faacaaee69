/**
 The state root is a function of what the state reads as: of the accounts, nonzero words and code that the caches show
 over the durable state, however they are divided between the two.
 */
module StateRoot {
  import opened Accounts
  import opened BigEndian
  import opened Options
  import opened Execution
  import opened SerialEquivalence
  import opened Proposal
  import SparseMerkle

  /** The durable state, and the code hashes it holds the code of. */
  datatype Durable = Durable(layer: Layer, codes: set<nat>)

  /** What a flush leaves behind: no zero words, and the code of every account. */
  ghost predicate Flushed(d: Durable) {
    && (forall id <- d.layer.storage.Keys :: d.layer.storage[id] != 0)
    && (forall a <- d.layer.accounts.Keys ::
          d.layer.accounts[a].codeHash != 0 ==> d.layer.accounts[a].codeHash in d.codes)
  }

  /* ---------- collecting the leaves ---------- */

  datatype Flat = Flat(accounts: map<Address, Account>, words: map<SlotId, Word>, codes: set<nat>)

  /** The durable state overlaid with the caches; a zero word takes its leaf away. */
  function Overlay(d: Durable, cache: Layer): Flat {
    Flat(
      d.layer.accounts + cache.accounts,
      d.layer.storage + cache.storage - (set id | id in cache.storage && cache.storage[id] == 0),
      d.codes + set a | a in cache.accounts && cache.accounts[a].codeHash != 0 :: cache.accounts[a].codeHash)
  }

  /** The part of a cache with the given accounts and slots. */
  ghost function Only(cache: Layer, accounts: set<Address>, slots: set<SlotId>): Layer {
    Layer(map a | a in cache.accounts && a in accounts :: cache.accounts[a],
          map id | id in cache.storage && id in slots :: cache.storage[id])
  }

  function WithAccount(f: Flat, a: Address, acc: Account): Flat {
    f.(accounts := f.accounts[a := acc], codes := if acc.codeHash != 0 then f.codes + {acc.codeHash} else f.codes)
  }

  function WithWord(f: Flat, id: SlotId, word: Word): Flat {
    f.(words := if word == 0 then f.words - {id} else f.words[id := word])
  }

  lemma AccountStep(d: Durable, cache: Layer, accounts: set<Address>, slots: set<SlotId>, a: Address)
    requires a in cache.accounts
    ensures Overlay(d, Only(cache, accounts + {a}, slots)) ==
      WithAccount(Overlay(d, Only(cache, accounts, slots)), a, cache.accounts[a])
  {
    var less, more := Only(cache, accounts, slots), Only(cache, accounts + {a}, slots);
    assert more == Layer(less.accounts[a := cache.accounts[a]], less.storage);
    MoreAccounts(d, less, a, cache.accounts[a]);
  }

  lemma MoreAccounts(d: Durable, cache: Layer, a: Address, acc: Account)
    requires a !in cache.accounts || cache.accounts[a] == acc
    ensures Overlay(d, Layer(cache.accounts[a := acc], cache.storage)) == WithAccount(Overlay(d, cache), a, acc)
  {
    var more := Layer(cache.accounts[a := acc], cache.storage);
    assert Overlay(d, more).accounts == WithAccount(Overlay(d, cache), a, acc).accounts;
    assert more.accounts[a] == acc;
    assert forall b <- cache.accounts.Keys :: more.accounts[b] == cache.accounts[b];
    assert Overlay(d, more).codes == WithAccount(Overlay(d, cache), a, acc).codes;
  }

  lemma WordStep(d: Durable, cache: Layer, accounts: set<Address>, slots: set<SlotId>, id: SlotId)
    requires id in cache.storage
    ensures Overlay(d, Only(cache, accounts, slots + {id})) ==
      WithWord(Overlay(d, Only(cache, accounts, slots)), id, cache.storage[id])
  {
    var less, more := Only(cache, accounts, slots), Only(cache, accounts, slots + {id});
    assert more == Layer(less.accounts, less.storage[id := cache.storage[id]]);
    MoreWords(d, less, id, cache.storage[id]);
  }

  lemma MoreWords(d: Durable, cache: Layer, id: SlotId, word: Word)
    ensures Overlay(d, Layer(cache.accounts, cache.storage[id := word])) == WithWord(Overlay(d, cache), id, word)
  {
    var more := Layer(cache.accounts, cache.storage[id := word]);
    assert Overlay(d, more).words == WithWord(Overlay(d, cache), id, word).words;
  }

  lemma OnlyNone(d: Durable, cache: Layer)
    ensures Overlay(d, Only(cache, {}, {})) == Flat(d.layer.accounts, d.layer.storage, d.codes)
    ensures Only(cache, cache.accounts.Keys, cache.storage.Keys) == cache
  {
    assert Only(cache, {}, {}) == Layer(map[], map[]);
  }

  /** Starts from the durable state and goes through the cached accounts and then the cached words. */
  method CollectLeaves(d: Durable, cache: Layer) returns (f: Flat)
    ensures f == Overlay(d, cache)
  {
    hide Overlay, Only;
    OnlyNone(d, cache);
    f := Flat(d.layer.accounts, d.layer.storage, d.codes);
    var accounts := cache.accounts.Keys;
    assert cache.accounts.Keys - accounts == {};
    while accounts != {}
      invariant accounts <= cache.accounts.Keys
      invariant f == Overlay(d, Only(cache, cache.accounts.Keys - accounts, {}))
    {
      var a :| a in accounts;
      AccountStep(d, cache, cache.accounts.Keys - accounts, {}, a);
      assert cache.accounts.Keys - (accounts - {a}) == cache.accounts.Keys - accounts + {a};
      accounts := accounts - {a};
      f := WithAccount(f, a, cache.accounts[a]);
    }
    var slots := cache.storage.Keys;
    assert cache.accounts.Keys - accounts == cache.accounts.Keys && cache.storage.Keys - slots == {};
    while slots != {}
      invariant slots <= cache.storage.Keys
      invariant f == Overlay(d, Only(cache, cache.accounts.Keys, cache.storage.Keys - slots))
    {
      var id :| id in slots;
      WordStep(d, cache, cache.accounts.Keys, cache.storage.Keys - slots, id);
      assert cache.storage.Keys - (slots - {id}) == cache.storage.Keys - slots + {id};
      slots := slots - {id};
      f := WithWord(f, id, cache.storage[id]);
    }
    assert cache.storage.Keys - slots == cache.storage.Keys;
  }

  /** An account has a leaf exactly when it exists, and the leaf is what it reads as. */
  lemma AccountLeaf(d: Durable, cache: Layer, a: Address)
    ensures a in Overlay(d, cache).accounts <==> AccountAt(d.layer, cache, a).Some?
    ensures a in Overlay(d, cache).accounts ==> AccountAt(d.layer, cache, a) == Some(Overlay(d, cache).accounts[a])
  {
  }

  /** The code leaves are those already on disk and those of the accounts that exist. */
  lemma CodeLeaf(d: Durable, cache: Layer, h: Hash)
    requires Flushed(d)
    ensures h in Overlay(d, cache).codes <==>
      h in d.codes || exists a: Address :: h != 0 && HasCode(d.layer, cache, a, h)
  {
    if h in Overlay(d, cache).codes && h !in d.codes {
      var a :| a in cache.accounts && cache.accounts[a].codeHash != 0 && cache.accounts[a].codeHash == h;
      assert HasCode(d.layer, cache, a, h);
    }
  }

  predicate HasCode(db: Layer, cache: Layer, a: Address, h: Hash) {
    AccountAt(db, cache, a).Some? && AccountAt(db, cache, a).value.codeHash == h
  }

  lemma SameAccounts(d: Durable, s: Layer, t: Layer)
    requires SameView(d.layer, s, t)
    ensures Overlay(d, s).accounts == Overlay(d, t).accounts
  {
    forall a: Address ensures AccountAt(d.layer, s, a) == AccountAt(d.layer, t, a) {
      assert See(d.layer, s, AccountKey(a)) == See(d.layer, t, AccountKey(a));
    }
    forall a: Address ensures a in Overlay(d, s).accounts <==> a in Overlay(d, t).accounts {
      assert AccountAt(d.layer, s, a) == AccountAt(d.layer, t, a);
    }
    forall a <- Overlay(d, s).accounts.Keys ensures Overlay(d, s).accounts[a] == Overlay(d, t).accounts[a] {
      assert AccountAt(d.layer, s, a) == AccountAt(d.layer, t, a);
    }
  }

  /** A slot has a leaf exactly when it reads as nonzero, and the leaf is what it reads as. */
  lemma WordLeaf(d: Durable, cache: Layer, id: SlotId)
    requires Flushed(d)
    ensures id in Overlay(d, cache).words <==> WordAt(d.layer, cache, id) != 0
    ensures id in Overlay(d, cache).words ==> Overlay(d, cache).words[id] == WordAt(d.layer, cache, id)
  {
  }

  lemma SameWords(d: Durable, s: Layer, t: Layer)
    requires Flushed(d) && SameView(d.layer, s, t)
    ensures Overlay(d, s).words == Overlay(d, t).words
  {
    forall id: SlotId
      ensures id in Overlay(d, s).words <==> id in Overlay(d, t).words
      ensures id in Overlay(d, s).words ==> Overlay(d, s).words[id] == Overlay(d, t).words[id]
    {
      assert See(d.layer, s, StorageKey(id)) == See(d.layer, t, StorageKey(id));
      WordLeaf(d, s, id);
      WordLeaf(d, t, id);
    }
  }

  lemma CodesWithin(d: Durable, s: Layer, t: Layer)
    requires Flushed(d) && SameView(d.layer, s, t)
    ensures Overlay(d, s).codes <= Overlay(d, t).codes
  {
    forall a <- s.accounts.Keys | s.accounts[a].codeHash != 0 ensures s.accounts[a].codeHash in Overlay(d, t).codes {
      assert See(d.layer, s, AccountKey(a)) == See(d.layer, t, AccountKey(a));
    }
  }

  /** States that read the same have the same leaves. */
  lemma SameViewSameLeaves(d: Durable, s: Layer, t: Layer)
    requires Flushed(d) && SameView(d.layer, s, t)
    ensures Overlay(d, s) == Overlay(d, t)
  {
    SameAccounts(d, s, t);
    SameWords(d, s, t);
    CodesWithin(d, s, t);
    CodesWithin(d, t, s);
  }

  /* ---------- the root ---------- */

  /** How keys and values are written. */
  datatype Codec = Codec(
    accountKey: Address -> Bytes, slotKey: SlotId -> Bytes, codeKey: nat -> Bytes,
    account: Account -> Bytes, word: Word -> Bytes, code: nat -> Bytes)

  ghost predicate IsLeaf(x: Codec, f: Flat, l: SparseMerkle.Leaf) {
    || (exists a <- f.accounts.Keys :: l == SparseMerkle.Leaf(x.accountKey(a), x.account(f.accounts[a])))
    || (exists id <- f.words.Keys :: l == SparseMerkle.Leaf(x.slotKey(id), x.word(f.words[id])))
    || (exists h <- f.codes :: l == SparseMerkle.Leaf(x.codeKey(h), x.code(h)))
  }

  /** A list of the leaves, one for a key. */
  ghost predicate Lists(x: Codec, f: Flat, leaves: seq<SparseMerkle.Leaf>) {
    && (forall l :: l in leaves <==> IsLeaf(x, f, l))
    && (forall i, j | 0 <= i < j < |leaves| :: leaves[i].key != leaves[j].key)
  }

  lemma {:induction false} ContentsAre(leaves: seq<SparseMerkle.Leaf>, key: Bytes)
    requires forall i, j | 0 <= i < j < |leaves| :: leaves[i].key != leaves[j].key
    ensures key in SparseMerkle.Contents(leaves) <==> exists l <- leaves :: l.key == key
    ensures forall l <- leaves :: l.key == key ==> SparseMerkle.ValueAt(SparseMerkle.Contents(leaves), key) == l.val
  {
    if leaves != [] {
      var last := |leaves| - 1;
      ContentsAre(leaves[..last], key);
      assert leaves == leaves[..last] + [leaves[last]];
    }
  }

  /** No two keys of the state share a path. */
  ghost predicate Separate(k: SparseMerkle.Hasher, x: Codec, f: Flat) {
    forall l, m :: IsLeaf(x, f, l) && IsLeaf(x, f, m) && k.path(l.key) == k.path(m.key) ==> l.key == m.key
  }

  lemma SeparatePaths(k: SparseMerkle.Hasher, x: Codec, f: Flat, a: seq<SparseMerkle.Leaf>, b: seq<SparseMerkle.Leaf>)
    requires Separate(k, x, f) && Lists(x, f, a) && Lists(x, f, b)
    ensures SparseMerkle.DistinctPaths(k, SparseMerkle.Contents(a).Keys + SparseMerkle.Contents(b).Keys)
  {
    hide IsLeaf;
    var keys := SparseMerkle.Contents(a).Keys + SparseMerkle.Contents(b).Keys;
    forall p <- keys, q <- keys | k.path(p) == k.path(q) ensures p == q {
      ContentsAre(a, p);
      ContentsAre(b, p);
      ContentsAre(a, q);
      ContentsAre(b, q);
      var l :| l in a + b && l.key == p;
      var m :| m in a + b && m.key == q;
      assert IsLeaf(x, f, l) && IsLeaf(x, f, m);
    }
  }

  lemma SameListedValues(x: Codec, f: Flat, a: seq<SparseMerkle.Leaf>, b: seq<SparseMerkle.Leaf>)
    requires Lists(x, f, a) && Lists(x, f, b)
    ensures SparseMerkle.SameValues(SparseMerkle.Contents(a), SparseMerkle.Contents(b))
  {
    hide IsLeaf;
    forall key: Bytes
      ensures SparseMerkle.ValueAt(SparseMerkle.Contents(a), key) == SparseMerkle.ValueAt(SparseMerkle.Contents(b), key)
    {
      ContentsAre(a, key);
      ContentsAre(b, key);
      if key in SparseMerkle.Contents(a) {
        var l :| l in a && l.key == key;
        assert l in b;
      }
    }
  }

  /** The root of a state: of any list of its leaves. */
  ghost predicate HasRoot(k: SparseMerkle.Hasher, depth: nat, x: Codec, d: Durable, cache: Layer,
                          root: SparseMerkle.Hash) {
    exists leaves :: Lists(x, Overlay(d, cache), leaves) && root == SparseMerkle.RootOf(k, depth, leaves)
  }

  /** States that read the same have the same root, if no two keys share a path. */
  lemma SameViewSameRoot(k: SparseMerkle.Hasher, depth: nat, x: Codec, d: Durable, s: Layer, t: Layer,
                         r: SparseMerkle.Hash, q: SparseMerkle.Hash)
    requires Flushed(d) && SameView(d.layer, s, t) && Separate(k, x, Overlay(d, s))
    requires HasRoot(k, depth, x, d, s, r) && HasRoot(k, depth, x, d, t, q)
    ensures r == q
  {
    SameViewSameLeaves(d, s, t);
    hide Lists, Separate, SparseMerkle.DistinctPaths;
    var a :| Lists(x, Overlay(d, s), a) && r == SparseMerkle.RootOf(k, depth, a);
    var b :| Lists(x, Overlay(d, t), b) && q == SparseMerkle.RootOf(k, depth, b);
    SeparatePaths(k, x, Overlay(d, s), a, b);
    SameListedValues(x, Overlay(d, s), a, b);
    SparseMerkle.SameValuesSameRoot(k, depth, a, b);
  }

  /** Parallel and sequential execution of truthful messages end in the same root. */
  lemma ParallelRootIsSequential(k: SparseMerkle.Hasher, depth: nat, x: Codec, d: Durable, start: Context,
                                 msgs: seq<Message>, r: SparseMerkle.Hash, q: SparseMerkle.Hash)
    requires Flushed(d) && Separate(k, x, Overlay(d, Validate(d.layer, start, start, {}, msgs).0.cache))
    requires start.touched == {} && Truthful(d.layer, start, start, msgs)
    requires HasRoot(k, depth, x, d, Validate(d.layer, start, start, {}, msgs).0.cache, r)
    requires HasRoot(k, depth, x, d, ApplyAll(d.layer, start, msgs).0.cache, q)
    ensures r == q
  {
    ParallelIsSequential(d.layer, start, msgs);
    SameViewSameRoot(k, depth, x, d, Validate(d.layer, start, start, {}, msgs).0.cache,
                     ApplyAll(d.layer, start, msgs).0.cache, r, q);
  }

  /* ---------- a proposal on another node ---------- */

  /** Untracked contexts that every read and every finalisation takes for the same. */
  ghost predicate Alike(db: Layer, x: Context, y: Context) {
    x.touched == y.touched && SameView(db, x.cache, y.cache)
  }

  lemma AlikeStep(db: Layer, x: Context, y: Context, act: Action)
    requires Alike(db, x, y) && !IsFinal(act)
    ensures Observed(db, x, act) == Observed(db, y, act) && Alike(db, Perform(db, x, act), Perform(db, y, act))
  {
    PerformSameView(db, x, y, act);
    assert See(db, x.cache, ActionKey(act)) == See(db, y.cache, ActionKey(act));
  }

  lemma AlikeEnd(db: Layer, x: Context, y: Context)
    requires Alike(db, x, y)
    ensures Alike(db, Finalise(db, x), Finalise(db, y))
  {
    forall a: Address ensures FieldsAt(db, x.cache, a) == FieldsAt(db, y.cache, a) {
      assert See(db, x.cache, AccountKey(a)) == See(db, y.cache, AccountKey(a));
    }
    forall k ensures See(db, Finalise(db, x).cache, k) == See(db, Finalise(db, y).cache, k) {
      assert See(db, x.cache, k) == See(db, y.cache, k);
      FinaliseSeen(db, x, k);
      FinaliseSeen(db, y, k);
    }
  }

  lemma {:induction false} AlikeRun(db: Layer, x: Context, y: Context, m: Message, seen: seq<Observation>)
    requires Alike(db, x, y)
    ensures Run(db, x, m, seen).1 == Run(db, y, m, seen).1 && Alike(db, Run(db, x, m, seen).0, Run(db, y, m, seen).0)
    decreases m.gas - |seen|
  {
    AlikeEnd(db, x, y);
    hide Alike, Finalise, Perform, Observed;
    if |seen| < m.gas && !IsFinal(m.next(seen)) {
      var act := m.next(seen);
      AlikeStep(db, x, y, act);
      AlikeRun(db, Perform(db, x, act), Perform(db, y, act), m, seen + [Observed(db, x, act)]);
    }
  }

  /** Nodes whose live states read the same run every block alike: the same results, gas and readable state. */
  lemma {:induction false} BlocksRunAlike(h: Head, other: Context, txs: seq<EvmTx>)
    requires SameView(h.db, h.live.cache, other.cache)
    ensures
      var x, y := RunBlock(h, txs), RunBlock(h.(live := other), txs);
      && x.Ran? == y.Ran? && (x.Ran? ==> x.results == y.results && x.gas == y.gas)
      && (x.Stopped? ==> x.error == y.error)
      && Alike(h.db, x.context, y.context)
  {
    if txs != [] {
      var most, tx := txs[..|txs| - 1], txs[|txs| - 1];
      BlocksRunAlike(h, other, most);
      hide Alike, Run, AsMessage;
      AlikeRun(h.db, RunBlock(h, most).context, RunBlock(h.(live := other), most).context, AsMessage(h.env, tx), []);
    }
  }

  /**
   A proposal that one node built and claims a gas and a root for is valid on every node whose live state reads the
   same: it runs there, to that gas and to that root.
   */
  lemma ProposalIsValidElsewhere(k: SparseMerkle.Hasher, depth: nat, x: Codec, codes: set<nat>, h: Head, other: Context,
                                 block: seq<EvmTx>, work: Context, gas: nat, r: SparseMerkle.Hash, q: SparseMerkle.Hash)
    requires Flushed(Durable(h.db, codes)) && Separate(k, x, Overlay(Durable(h.db, codes), work.cache))
    requires SameView(h.db, h.live.cache, other.cache) && Reaches(h, block, work, gas)
    requires HasRoot(k, depth, x, Durable(h.db, codes), work.cache, r)
    requires HasRoot(k, depth, x, Durable(h.db, codes), RunBlock(h.(live := other), block).context.cache, q)
    ensures Reaches(h.(live := other), block, RunBlock(h.(live := other), block).context, gas) && r == q
  {
    BlocksRunAlike(h, other, block);
    hide RunBlock, Flushed, HasRoot, SameView, Separate;
    SameViewSameRoot(k, depth, x, Durable(h.db, codes), work.cache, RunBlock(h.(live := other), block).context.cache,
                     r, q);
  }
}
