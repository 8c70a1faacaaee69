/**
 Dew-PE runs every message on a fork of the parent state and then, in index order, either merges a
 fork whose access set meets no earlier write or runs the message again on the live state. This
 module proves that the outcome is the sequential one whenever the access sets tell the truth.
 */
module SerialEquivalence {
  import opened Accounts
  import opened Options
  import opened Execution

  datatype Cell = AccountCell(account: Option<Account>) | WordCell(word: Word)

  /** What a key reads as through the caches. */
  function See(db: Layer, cache: Layer, k: AccessKey): Cell {
    match k
    case AccountKey(a) => AccountCell(AccountAt(db, cache, a))
    case StorageKey(id) => WordCell(WordAt(db, cache, id))
  }

  ghost predicate AgreeOn(db: Layer, s: Layer, t: Layer, keys: set<AccessKey>) {
    forall k <- keys :: See(db, s, k) == See(db, t, k)
  }

  ghost predicate AgreeOff(db: Layer, s: Layer, t: Layer, keys: set<AccessKey>) {
    forall k :: k !in keys ==> See(db, s, k) == See(db, t, k)
  }

  /** Equal through every accessor. */
  ghost predicate SameView(db: Layer, s: Layer, t: Layer) {
    forall k :: See(db, s, k) == See(db, t, k)
  }

  function AccountKeys(addrs: set<Address>): set<AccessKey> {
    set a | a in addrs :: AccountKey(a)
  }

  function DirtyKeys(c: Context): set<AccessKey> {
    AccountKeys(c.accountDirty) + set id | id in c.storageDirty :: StorageKey(id)
  }

  /** Everything a run consulted, noted or not. */
  function Consulted(c: Context): set<AccessKey> {
    c.readSet + c.writeSet + AccountKeys(c.hiddenReads)
  }

  function Conflicts(c: Context, earlier: set<AccessKey>): bool {
    (c.readSet + c.writeSet) * earlier != {}
  }

  /** A slot marked dirty whose account was dropped; merging clears it. */
  predicate Orphaned(c: Context, id: SlotId) {
    id in c.storageDirty && id.addr in c.accountDirty && id.addr !in c.cache.accounts
  }

  /**
   The access set of a finished run covers what the run did behind its back: each account whose
   presence it consulted was noted, each account it created or purged was noted as written, and no
   dirty slot lost its account.
   */
  ghost predicate Covered(c: Context) {
    && AccountKeys(c.hiddenReads) <= c.readSet + c.writeSet
    && AccountKeys(c.hiddenWrites) <= c.writeSet
    && forall id <- c.storageDirty :: !Orphaned(c, id)
  }

  /** ApplyOverlay: what remains of the live caches after merging the dirty part of `src`. */
  function Merge(live: Layer, src: Context): Layer {
    Layer(WithOwners(WithAccounts(live.accounts, src, src.accountDirty), src, src.storageDirty),
          WithSlots(live.storage, src, src.storageDirty))
  }

  function WithAccounts(live: map<Address, Account>, src: Context, addrs: set<Address>): map<Address, Account> {
    live - (addrs - src.cache.accounts.Keys)
      + (map a | a in addrs && a in src.cache.accounts :: src.cache.accounts[a])
  }

  function MergedWord(src: Context, id: SlotId): Word {
    if Orphaned(src, id) || id !in src.cache.storage then 0 else src.cache.storage[id]
  }

  function WithSlots(live: map<SlotId, Word>, src: Context, ids: set<SlotId>): map<SlotId, Word> {
    live + (map id | id in ids :: MergedWord(src, id))
  }

  /** Accounts of dirty slots, where the live caches have none. */
  function WithOwners(live: map<Address, Account>, src: Context, ids: set<SlotId>): map<Address, Account> {
    var owners := set id | id in ids && id.addr in src.cache.accounts :: id.addr;
    (map a | a in owners :: src.cache.accounts[a]) + live
  }

  /* ---------- one run ---------- */

  /** Bookkeeping only grows, and a dirty slot stays cached. */
  lemma PerformGrows(db: Layer, c: Context, act: Action)
    requires !IsFinal(act)
    ensures Consulted(c) <= Consulted(Perform(db, c, act))
    ensures c.writeSet <= Perform(db, c, act).writeSet
    ensures c.hiddenWrites <= Perform(db, c, act).hiddenWrites
    ensures DirtyKeys(c) <= DirtyKeys(Perform(db, c, act))
  {
  }

  lemma {:induction false} RunGrows(db: Layer, c: Context, m: Message, seen: seq<Observation>)
    ensures Consulted(c) <= Consulted(Run(db, c, m, seen).0)
    ensures c.writeSet <= Run(db, c, m, seen).0.writeSet
    ensures c.hiddenWrites <= Run(db, c, m, seen).0.hiddenWrites
    ensures DirtyKeys(c) <= DirtyKeys(Run(db, c, m, seen).0)
    decreases m.gas - |seen|
  {
    if |seen| < m.gas {
      var act := m.next(seen);
      if !IsFinal(act) {
        PerformGrows(db, c, act);
        RunGrows(db, Perform(db, c, act), m, seen + [Observed(db, c, act)]);
      }
    }
  }

  /** Account fields after an account update, seen through any key. */
  lemma UpdateSeen(db: Layer, c: Context, a: Address, change: Account -> Account, k: AccessKey)
    ensures See(db, UpdateAccount(db, c, a, change).cache, k)
         == if k == AccountKey(a) then AccountCell(Some(change(FieldsAt(db, c.cache, a)))) else See(db, c.cache, k)
  {
  }

  /** Storage and presence after a slot write that changes the slot, seen through any key. */
  lemma StoreSeen(db: Layer, c: Context, id: SlotId, word: Word, k: AccessKey)
    requires WordAt(db, c.cache, id) != word
    ensures See(db, StoreWord(db, c, id, word).cache, k)
         == if k == StorageKey(id) then WordCell(word)
            else if k == AccountKey(id.addr) then AccountCell(Some(FieldsAt(db, c.cache, id.addr)))
            else See(db, c.cache, k)
  {
  }

  function ActionKey(act: Action): AccessKey
    requires !IsFinal(act)
  {
    match act
    case Exist(a) => AccountKey(a)
    case GetAccount(a) => AccountKey(a)
    case Empty(a) => AccountKey(a)
    case Update(a, _) => AccountKey(a)
    case GetState(id) => StorageKey(id)
    case SetState(id, _) => StorageKey(id)
  }

  /** Every access is consulted, and a slot write that changes the slot also consults the account. */
  lemma ActionConsulted(db: Layer, c: Context, act: Action)
    requires !IsFinal(act) && c.tracking
    ensures ActionKey(act) in Consulted(Perform(db, c, act))
    ensures act.SetState? && WordAt(db, c.cache, act.id) != act.word
        ==> AccountKey(act.id.addr) in Consulted(Perform(db, c, act))
    ensures Perform(db, c, act).tracking
  {
    if act.SetState? && WordAt(db, c.cache, act.id) != act.word {
      assert act.id.addr in Perform(db, c, act).hiddenReads;
    }
    if act.Empty? {
      assert act.addr in Perform(db, c, act).hiddenReads;
    }
  }

  /** A step of two runs that agree on `keys` is the same step if it consults only `keys`. */
  lemma PerformFramed(db: Layer, x: Context, y: Context, act: Action, keys: set<AccessKey>)
    requires !IsFinal(act)
    requires x.tracking && x.touched == y.touched
    requires AgreeOn(db, x.cache, y.cache, keys)
    requires Consulted(Perform(db, x, act)) <= keys
    ensures Observed(db, x, act) == Observed(db, y, act)
    ensures AgreeOn(db, Perform(db, x, act).cache, Perform(db, y, act).cache, keys)
    ensures AgreeOff(db, y.cache, Perform(db, y, act).cache, keys)
    ensures Perform(db, x, act).touched == Perform(db, y, act).touched
  {
    ActionConsulted(db, x, act);
    assert See(db, x.cache, ActionKey(act)) == See(db, y.cache, ActionKey(act));
    forall k ensures k in keys ==> See(db, Perform(db, x, act).cache, k) == See(db, Perform(db, y, act).cache, k)
             ensures k !in keys ==> See(db, y.cache, k) == See(db, Perform(db, y, act).cache, k)
    {
      PerformFramedAt(db, x, y, act, keys, k);
    }
  }

  lemma PerformFramedAt(db: Layer, x: Context, y: Context, act: Action, keys: set<AccessKey>, k: AccessKey)
    requires !IsFinal(act)
    requires x.tracking && AgreeOn(db, x.cache, y.cache, keys)
    requires Consulted(Perform(db, x, act)) <= keys
    ensures k in keys ==> See(db, Perform(db, x, act).cache, k) == See(db, Perform(db, y, act).cache, k)
    ensures k !in keys ==> See(db, y.cache, k) == See(db, Perform(db, y, act).cache, k)
  {
    ActionConsulted(db, x, act);
    assert See(db, x.cache, ActionKey(act)) == See(db, y.cache, ActionKey(act));
    if act.Update? {
      UpdateSeen(db, x, act.addr, act.change, k);
      UpdateSeen(db, y, act.addr, act.change, k);
    } else if act.SetState? && WordAt(db, x.cache, act.id) != act.word {
      assert See(db, x.cache, AccountKey(act.id.addr)) == See(db, y.cache, AccountKey(act.id.addr));
      StoreSeen(db, x, act.id, act.word, k);
      StoreSeen(db, y, act.id, act.word, k);
    }
  }

  /** Dropping the empty touched accounts, seen through any key. */
  lemma FinaliseSeen(db: Layer, c: Context, k: AccessKey)
    ensures See(db, Finalise(db, c).cache, k)
         == if k.AccountKey? && k.addr in Purged(db, c)
            then AccountCell(if k.addr in db.accounts then Some(db.accounts[k.addr]) else None)
            else See(db, c.cache, k)
  {
  }

  lemma FinaliseFramed(db: Layer, x: Context, y: Context, keys: set<AccessKey>)
    requires x.touched == y.touched
    requires AgreeOn(db, x.cache, y.cache, keys)
    requires Consulted(Finalise(db, x)) <= keys
    ensures AgreeOn(db, Finalise(db, x).cache, Finalise(db, y).cache, keys)
    ensures AgreeOff(db, y.cache, Finalise(db, y).cache, keys)
    ensures Purged(db, x) == Purged(db, y)
  {
    forall a | a in x.touched ensures AccountKey(a) in keys && FieldsAt(db, x.cache, a) == FieldsAt(db, y.cache, a) {
      assert a in Finalise(db, x).hiddenReads;
      assert AccountKey(a) in AccountKeys(Finalise(db, x).hiddenReads);
      assert See(db, x.cache, AccountKey(a)) == See(db, y.cache, AccountKey(a));
    }
    forall k ensures k in keys ==> See(db, Finalise(db, x).cache, k) == See(db, Finalise(db, y).cache, k)
             ensures k !in keys ==> See(db, y.cache, k) == See(db, Finalise(db, y).cache, k)
    {
      FinaliseSeen(db, x, k);
      FinaliseSeen(db, y, k);
    }
  }

  /** The frame property: a run is determined by the keys it consults, and changes nothing else. */
  lemma {:induction false} RunFramed(db: Layer, x: Context, y: Context, m: Message, seen: seq<Observation>,
                                     keys: set<AccessKey>)
    requires x.tracking && x.touched == y.touched
    requires AgreeOn(db, x.cache, y.cache, keys)
    requires Consulted(Run(db, x, m, seen).0) <= keys
    ensures Run(db, x, m, seen).1 == Run(db, y, m, seen).1
    ensures AgreeOn(db, Run(db, x, m, seen).0.cache, Run(db, y, m, seen).0.cache, keys)
    ensures AgreeOff(db, y.cache, Run(db, y, m, seen).0.cache, keys)
    decreases m.gas - |seen|
  {
    if |seen| >= m.gas || m.next(seen).Halt? {
      FinaliseFramed(db, x, y, keys);
    } else if !m.next(seen).Reject? {
      var act := m.next(seen);
      var x', y' := Perform(db, x, act), Perform(db, y, act);
      RunGrows(db, x', m, seen + [Observed(db, x, act)]);
      ActionConsulted(db, x, act);
      PerformFramed(db, x, y, act, keys);
      RunFramed(db, x', y', m, seen + [Observed(db, x, act)], keys);
    }
  }

  ghost predicate SameNotes(x: Context, y: Context) {
    && x.tracking == y.tracking && x.readSet == y.readSet && x.writeSet == y.writeSet
    && x.hiddenReads == y.hiddenReads && x.hiddenWrites == y.hiddenWrites
  }

  /** Runs on caches with the same view keep the same notes. */
  lemma {:induction false} RunNotes(db: Layer, x: Context, y: Context, m: Message, seen: seq<Observation>)
    requires x.tracking && x.touched == y.touched && SameNotes(x, y)
    requires SameView(db, x.cache, y.cache)
    ensures SameNotes(Run(db, x, m, seen).0, Run(db, y, m, seen).0)
    decreases m.gas - |seen|
  {
    if |seen| >= m.gas || m.next(seen).Halt? {
      var keys := Consulted(Finalise(db, x));
      FinaliseFramed(db, x, y, keys);
    } else if !m.next(seen).Reject? {
      var act := m.next(seen);
      var x', y' := Perform(db, x, act), Perform(db, y, act);
      var keys := Consulted(x');
      ActionConsulted(db, x, act);
      PerformFramed(db, x, y, act, keys);
      assert SameNotes(x', y') by { PerformNotes(db, x, y, act); }
      assert SameView(db, x'.cache, y'.cache) by { PerformSameView(db, x, y, act); }
      RunNotes(db, x', y', m, seen + [Observed(db, x, act)]);
    }
  }

  lemma PerformNotes(db: Layer, x: Context, y: Context, act: Action)
    requires !IsFinal(act)
    requires SameNotes(x, y) && SameView(db, x.cache, y.cache)
    ensures SameNotes(Perform(db, x, act), Perform(db, y, act))
  {
    if act.SetState? {
      assert See(db, x.cache, StorageKey(act.id)) == See(db, y.cache, StorageKey(act.id));
      assert See(db, x.cache, AccountKey(act.id.addr)) == See(db, y.cache, AccountKey(act.id.addr));
    }
  }

  lemma PerformSameView(db: Layer, x: Context, y: Context, act: Action)
    requires !IsFinal(act)
    requires SameView(db, x.cache, y.cache)
    ensures SameView(db, Perform(db, x, act).cache, Perform(db, y, act).cache)
  {
    forall k ensures See(db, Perform(db, x, act).cache, k) == See(db, Perform(db, y, act).cache, k) {
      assert See(db, x.cache, ActionKey(act)) == See(db, y.cache, ActionKey(act));
      if act.Update? {
        UpdateSeen(db, x, act.addr, act.change, k);
        UpdateSeen(db, y, act.addr, act.change, k);
      } else if act.SetState? && WordAt(db, x.cache, act.id) != act.word {
        assert See(db, x.cache, AccountKey(act.id.addr)) == See(db, y.cache, AccountKey(act.id.addr));
        StoreSeen(db, x, act.id, act.word, k);
        StoreSeen(db, y, act.id, act.word, k);
      }
    }
  }

  /* ---------- what a run may change ---------- */

  function MayChange(c: Context): set<AccessKey> {
    c.writeSet + AccountKeys(c.hiddenWrites)
  }

  lemma PerformChanges(db: Layer, c: Context, act: Action)
    requires !IsFinal(act)
    ensures AgreeOff(db, c.cache, Perform(db, c, act).cache, DirtyKeys(Perform(db, c, act)))
    ensures c.tracking ==> AgreeOff(db, c.cache, Perform(db, c, act).cache, MayChange(Perform(db, c, act)))
  {
    var c' := Perform(db, c, act);
    if act.Update? {
      forall k ensures See(db, c.cache, k) == See(db, c'.cache, k) || k == AccountKey(act.addr) {
        UpdateSeen(db, c, act.addr, act.change, k);
      }
      assert act.addr in c'.accountDirty;
    } else if act.SetState? && WordAt(db, c.cache, act.id) != act.word {
      forall k ensures See(db, c.cache, k) == See(db, c'.cache, k) || k == StorageKey(act.id)
                    || (k == AccountKey(act.id.addr) && AccountAt(db, c.cache, act.id.addr).None?)
      {
        StoreSeen(db, c, act.id, act.word, k);
      }
      assert act.id in c'.storageDirty;
      if AccountAt(db, c.cache, act.id.addr).None? {
        assert act.id.addr in c'.accountDirty && act.id.addr in c'.hiddenWrites;
      }
    }
  }

  lemma FinaliseChanges(db: Layer, c: Context)
    ensures AgreeOff(db, c.cache, Finalise(db, c).cache, DirtyKeys(Finalise(db, c)))
    ensures AgreeOff(db, c.cache, Finalise(db, c).cache, MayChange(Finalise(db, c)))
  {
    var c' := Finalise(db, c);
    forall k ensures See(db, c.cache, k) == See(db, c'.cache, k)
                  || (k.AccountKey? && k.addr in c'.accountDirty && k.addr in c'.hiddenWrites)
    {
      FinaliseSeen(db, c, k);
    }
  }

  /** A run changes only dirty keys, and only keys it noted as written or created behind its back. */
  lemma {:induction false} RunChanges(db: Layer, c: Context, m: Message, seen: seq<Observation>)
    ensures AgreeOff(db, c.cache, Run(db, c, m, seen).0.cache, DirtyKeys(Run(db, c, m, seen).0))
    ensures c.tracking ==> AgreeOff(db, c.cache, Run(db, c, m, seen).0.cache, MayChange(Run(db, c, m, seen).0))
    decreases m.gas - |seen|
  {
    if |seen| >= m.gas || m.next(seen).Halt? {
      FinaliseChanges(db, c);
    } else if !m.next(seen).Reject? {
      var act := m.next(seen);
      var c' := Perform(db, c, act);
      PerformChanges(db, c, act);
      if c.tracking { ActionConsulted(db, c, act); }
      RunChanges(db, c', m, seen + [Observed(db, c, act)]);
      RunGrows(db, c', m, seen + [Observed(db, c, act)]);
    }
  }

  /** In a run that started with nothing dirty, each dirty slot is cached and its account was consulted. */
  ghost predicate SlotsOwned(c: Context) {
    forall id <- c.storageDirty :: id in c.cache.storage && id.addr in c.hiddenReads
  }

  lemma {:induction false} RunOwned(db: Layer, c: Context, m: Message, seen: seq<Observation>)
    requires SlotsOwned(c)
    ensures SlotsOwned(Run(db, c, m, seen).0)
    decreases m.gas - |seen|
  {
    if |seen| < m.gas && !IsFinal(m.next(seen)) {
      var act := m.next(seen);
      RunOwned(db, Perform(db, c, act), m, seen + [Observed(db, c, act)]);
    }
  }

  lemma PerformDirtyNoted(db: Layer, c: Context, act: Action)
    requires !IsFinal(act)
    requires c.tracking && DirtyKeys(c) <= MayChange(c)
    ensures Perform(db, c, act).tracking
    ensures DirtyKeys(Perform(db, c, act)) <= MayChange(Perform(db, c, act))
  {
    var c' := Perform(db, c, act);
    PerformGrows(db, c, act);
    forall k | k in DirtyKeys(c') ensures k in MayChange(c') {
      if k !in DirtyKeys(c) && k.AccountKey? && act.SetState? {
        assert k.addr in c'.hiddenWrites;
      }
    }
  }

  /** In a run that started with nothing dirty, each dirty key was noted as written or created hidden. */
  lemma {:induction false} RunDirtyNoted(db: Layer, c: Context, m: Message, seen: seq<Observation>)
    requires c.tracking && DirtyKeys(c) <= MayChange(c)
    ensures DirtyKeys(Run(db, c, m, seen).0) <= MayChange(Run(db, c, m, seen).0)
    decreases m.gas - |seen|
  {
    if |seen| < m.gas && !IsFinal(m.next(seen)) {
      var act := m.next(seen);
      PerformDirtyNoted(db, c, act);
      RunDirtyNoted(db, Perform(db, c, act), m, seen + [Observed(db, c, act)]);
    }
  }

  /* ---------- merging a fork ---------- */

  /** Merging shows the fork's value at each dirty key and the live value everywhere else. */
  lemma MergeSeen(db: Layer, live: Layer, src: Context, k: AccessKey)
    requires SlotsOwned(src)
    requires forall id <- src.storageDirty :: !Orphaned(src, id)
    requires forall id <- src.storageDirty :: id.addr !in src.accountDirty ==>
      See(db, src.cache, AccountKey(id.addr)) == See(db, live, AccountKey(id.addr))
    ensures See(db, Merge(live, src), k) == if k in DirtyKeys(src) then See(db, src.cache, k) else See(db, live, k)
  {
    if k.AccountKey? {
      assert k in DirtyKeys(src) <==> k.addr in src.accountDirty;
    } else {
      assert k in DirtyKeys(src) <==> k.id in src.storageDirty;
    }
  }

  /** A merged fork leaves the live state as if the message had run there. */
  lemma MergeIsRun(db: Layer, parent: Context, live: Layer, y: Context, m: Message, earlier: set<AccessKey>)
    requires y.touched == {}
    requires SameView(db, live, y.cache)
    requires AgreeOff(db, parent.cache, live, earlier)
    requires Covered(Apply(db, StartTracking(Fork(parent)), m).0)
    requires !Conflicts(Apply(db, StartTracking(Fork(parent)), m).0, earlier)
    ensures Apply(db, y, m).1 == Apply(db, StartTracking(Fork(parent)), m).1
    ensures SameView(db, Merge(live, Apply(db, StartTracking(Fork(parent)), m).0), Apply(db, y, m).0.cache)
    ensures AgreeOff(db, live, Apply(db, y, m).0.cache, Apply(db, StartTracking(Fork(parent)), m).0.writeSet)
  {
    var x := StartTracking(Fork(parent));
    var x', y' := Apply(db, x, m).0, Apply(db, y, m).0;
    var keys := Consulted(x');
    forall k | k in keys ensures See(db, x.cache, k) == See(db, y.cache, k) {
      assert k in earlier ==> k in (x'.readSet + x'.writeSet) * earlier;
    }
    RunFramed(db, x, y, m, [], keys);
    RunChanges(db, x, m, []);
    RunDirtyNoted(db, x, m, []);
    RunOwned(db, x, m, []);
    forall id | id in x'.storageDirty && id.addr !in x'.accountDirty
      ensures See(db, x'.cache, AccountKey(id.addr)) == See(db, live, AccountKey(id.addr))
    {
      assert AccountKey(id.addr) in AccountKeys(x'.hiddenReads) && AccountKey(id.addr) !in DirtyKeys(x');
    }
    forall k ensures See(db, Merge(live, x'), k) == See(db, y'.cache, k)
             ensures k !in x'.writeSet ==> See(db, live, k) == See(db, y'.cache, k)
    {
      MergeSeen(db, live, x', k);
      if k in keys {
        assert See(db, x'.cache, k) == See(db, y'.cache, k);
      } else {
        assert k !in MayChange(x');
        assert See(db, y.cache, k) == See(db, y'.cache, k);
      }
    }
  }

  /* ---------- a whole block ---------- */

  lemma {:induction false} RunClears(db: Layer, c: Context, m: Message, seen: seq<Observation>)
    ensures Run(db, c, m, seen).1.Rejected? || Run(db, c, m, seen).0.touched == {}
    decreases m.gas - |seen|
  {
    if |seen| < m.gas && !IsFinal(m.next(seen)) {
      var act := m.next(seen);
      RunClears(db, Perform(db, c, act), m, seen + [Observed(db, c, act)]);
    }
  }

  ghost predicate WritesNoted(c: Context) {
    AccountKeys(c.hiddenWrites) <= c.writeSet
  }

  /**
   The condition on a block: every speculative run on `parent` is covered by its access set, and every
   sequential run notes what it writes.
   */
  ghost predicate Truthful(db: Layer, parent: Context, c: Context, msgs: seq<Message>)
    decreases |msgs|
  {
    msgs != [] ==>
      var fork := Apply(db, StartTracking(Fork(parent)), msgs[0]);
      var (c1, r) := Apply(db, c, msgs[0]);
      && (fork.1.Rejected? || Covered(fork.0))
      && WritesNoted(Apply(db, StartTracking(c), msgs[0]).0)
      && (r.Rejected? || Truthful(db, parent, c1, msgs[1..]))
  }

  /** Running a message again on the live state is the sequential step. */
  lemma RerunIsRun(db: Layer, live: Context, y: Context, m: Message)
    requires live.touched == y.touched == {}
    requires SameView(db, live.cache, y.cache)
    requires WritesNoted(Apply(db, StartTracking(y), m).0)
    ensures Apply(db, StartTracking(live), m).1 == Apply(db, y, m).1
    ensures SameView(db, Apply(db, StartTracking(live), m).0.cache, Apply(db, y, m).0.cache)
    ensures AgreeOff(db, live.cache, Apply(db, y, m).0.cache, Apply(db, StartTracking(live), m).0.writeSet)
  {
    var x := StartTracking(live);
    var x', y' := Apply(db, x, m).0, Apply(db, y, m).0;
    var keys := Consulted(x');
    RunFramed(db, x, y, m, [], keys);
    RunChanges(db, x, m, []);
    RunNotes(db, x, StartTracking(y), m, []);
    forall k ensures See(db, x'.cache, k) == See(db, y'.cache, k)
             ensures k !in x'.writeSet ==> See(db, live.cache, k) == See(db, y'.cache, k)
    {
      assert k !in keys ==> k !in MayChange(x');
    }
  }

  function Merged(live: Context, src: Context): Context {
    var cache := Merge(live.cache, src);
    var copied := WithAccounts(live.cache.accounts, src, src.accountDirty);
    live.(cache := cache,
          accountDirty := live.accountDirty + src.accountDirty + (cache.accounts.Keys - copied.Keys),
          storageDirty := live.storageDirty + src.storageDirty)
  }

  /** One message of the validation loop: the live context, the result, and the keys it wrote. */
  function ValidateOne(db: Layer, parent: Context, live: Context, earlier: set<AccessKey>, m: Message)
    : (Context, Result, set<AccessKey>)
  {
    var (fork, r) := Apply(db, StartTracking(Fork(parent)), m);
    if r.Rejected? || Conflicts(fork, earlier) then
      var (c, again) := Apply(db, StartTracking(live), m);
      (StopTracking(c), again, c.writeSet)
    else
      (Merged(live, fork), r, fork.writeSet)
  }

  /** The validation loop of ApplyParallel over the messages that remain. */
  function Validate(db: Layer, parent: Context, live: Context, earlier: set<AccessKey>, msgs: seq<Message>)
    : (Context, seq<Result>)
    decreases |msgs|
  {
    if msgs == [] then (live, []) else
    var (live1, r, written) := ValidateOne(db, parent, live, earlier, msgs[0]);
    if r.Rejected? then (live1, [r]) else
    var (live2, rest) := Validate(db, parent, live1, earlier + written, msgs[1..]);
    (live2, [r] + rest)
  }

  lemma {:induction false} ValidateIsSequential(
    db: Layer, parent: Context, live: Context, c: Context, earlier: set<AccessKey>, msgs: seq<Message>)
    requires live.touched == c.touched == {}
    requires SameView(db, live.cache, c.cache)
    requires AgreeOff(db, parent.cache, live.cache, earlier)
    requires Truthful(db, parent, c, msgs)
    ensures Validate(db, parent, live, earlier, msgs).1 == ApplyAll(db, c, msgs).1
    ensures SameView(db, Validate(db, parent, live, earlier, msgs).0.cache, ApplyAll(db, c, msgs).0.cache)
    decreases |msgs|
  {
    if msgs != [] {
      var m := msgs[0];
      var fork := Apply(db, StartTracking(Fork(parent)), m);
      if fork.1.Rejected? || Conflicts(fork.0, earlier) {
        RerunIsRun(db, live, c, m);
      } else {
        MergeIsRun(db, parent, live.cache, c, m, earlier);
      }
      RunClears(db, c, m, []);
      RunClears(db, StartTracking(live), m, []);
      var (live1, r, written) := ValidateOne(db, parent, live, earlier, m);
      if !r.Rejected? {
        ValidateIsSequential(db, parent, live1, Apply(db, c, m).0, earlier + written, msgs[1..]);
      }
    }
  }

  /**
   Serial equivalence: when the access sets are truthful, speculation with validation returns the
   results of the sequential run and a state that reads the same through every accessor.
   */
  lemma ParallelIsSequential(db: Layer, start: Context, msgs: seq<Message>)
    requires start.touched == {}
    requires Truthful(db, start, start, msgs)
    ensures Validate(db, start, start, {}, msgs).1 == ApplyAll(db, start, msgs).1
    ensures SameView(db, Validate(db, start, start, {}, msgs).0.cache, ApplyAll(db, start, msgs).0.cache)
  {
    ValidateIsSequential(db, start, start, start, {}, msgs);
  }

  /* ---------- messages whose access sets are always truthful ---------- */

  /** By `seen`, the message has gone through a tracked accessor of `a`. */
  ghost predicate NotedBy(m: Message, seen: seq<Observation>, a: Address) {
    exists j | 0 <= j < |seen| ::
      var act := m.next(seen[..j]);
      !IsFinal(act) && !act.Empty? && ActionKey(act) == AccountKey(a)
  }

  /** By `seen`, the message has found code at `a`, or given it a nonce. */
  ghost predicate Settled(m: Message, seen: seq<Observation>, a: Address) {
    exists j | 0 <= j < |seen| :: Settles(m.next(seen[..j]), seen[j], a)
  }

  ghost predicate Settles(act: Action, o: Observation, a: Address) {
    && o.Fields?
    && match act
       case GetAccount(b) => a == b && o.account.codeHash != 0
       case Update(b, change) => a == b && change(o.account).nonce != 0
       case _ => false
  }

  /**
   A message that behaves like EVM calls and creations: storage is written only for an account whose code was loaded or
   which the message gave a nonce, emptiness is asked only of accounts already noted, and no account loses its code or
   its nonce.
   */
  ghost predicate Guarded(m: Message) {
    forall seen: seq<Observation> :: GuardedAt(m, seen)
  }

  ghost predicate GuardedAt(m: Message, seen: seq<Observation>) {
    var act := m.next(seen);
    && (act.SetState? ==> Settled(m, seen, act.id.addr))
    && (act.Empty? ==> NotedBy(m, seen, act.addr))
    && (act.Update? ==> forall acc: Account :: KeepsHold(acc, act.change(acc)))
  }

  predicate KeepsHold(before: Account, after: Account) {
    (before.codeHash != 0 ==> after.codeHash != 0) && (before.nonce != 0 ==> after.nonce != 0)
  }

  lemma NotedByStep(m: Message, seen: seq<Observation>, o: Observation, a: Address)
    ensures NotedBy(m, seen + [o], a)
       <==> (NotedBy(m, seen, a)
             || (!IsFinal(m.next(seen)) && !m.next(seen).Empty? && ActionKey(m.next(seen)) == AccountKey(a)))
    ensures Settled(m, seen + [o], a) <==> Settled(m, seen, a) || Settles(m.next(seen), o, a)
  {
    var longer := seen + [o];
    assert longer[..|seen|] == seen && longer[|seen|] == o;
    assert forall j | 0 <= j < |seen| :: longer[..j] == seen[..j] && longer[j] == seen[j];
    if NotedBy(m, seen, a) {
      var j :| 0 <= j < |seen| && !IsFinal(m.next(seen[..j])) && !m.next(seen[..j]).Empty?
               && ActionKey(m.next(seen[..j])) == AccountKey(a);
      assert longer[..j] == seen[..j];
    }
    if Settled(m, seen, a) {
      var j :| 0 <= j < |seen| && Settles(m.next(seen[..j]), seen[j], a);
      assert longer[..j] == seen[..j];
    }
  }

  /** The account has code or a nonce, so finalising does not drop it. */
  predicate Holds(acc: Account) {
    acc.codeHash != 0 || acc.nonce != 0
  }

  predicate Noted(c: Context, a: Address) {
    AccountKey(a) in c.readSet + c.writeSet
  }

  /** What a guarded run keeps before it finishes. */
  ghost predicate GuardedState(db: Layer, c: Context, m: Message, seen: seq<Observation>) {
    && c.tracking
    && (forall a | NotedBy(m, seen, a) :: Noted(c, a))
    && (forall a | Settled(m, seen, a) :: Noted(c, a) && Holds(FieldsAt(db, c.cache, a)))
    && (forall a <- c.hiddenReads :: Noted(c, a))
    && c.hiddenWrites == {}
    && (forall a <- c.touched :: AccountKey(a) in c.writeSet || (Noted(c, a) && Holds(FieldsAt(db, c.cache, a))))
  }

  ghost predicate SlotsHoused(c: Context) {
    forall id <- c.storageDirty :: id.addr in c.cache.accounts && Holds(c.cache.accounts[id.addr])
  }

  lemma GuardedPerform(db: Layer, c: Context, m: Message, seen: seq<Observation>)
    requires GuardedState(db, c, m, seen) && GuardedAt(m, seen) && !IsFinal(m.next(seen))
    ensures GuardedState(db, Perform(db, c, m.next(seen)), m, seen + [Observed(db, c, m.next(seen))])
    ensures SlotsHoused(c) ==> SlotsHoused(Perform(db, c, m.next(seen)))
  {
    var act := m.next(seen);
    var c', seen' := Perform(db, c, act), seen + [Observed(db, c, act)];
    if act.Update? {
      assert KeepsHold(FieldsAt(db, c.cache, act.addr), act.change(FieldsAt(db, c.cache, act.addr)));
    }
    forall a ensures Noted(c, a) ==> Noted(c', a)
             ensures Holds(FieldsAt(db, c.cache, a)) ==> Holds(FieldsAt(db, c'.cache, a))
    {
    }
    forall a ensures NotedBy(m, seen', a) ==> Noted(c', a)
             ensures Settled(m, seen', a) ==> Noted(c', a) && Holds(FieldsAt(db, c'.cache, a))
    {
      NotedByStep(m, seen, Observed(db, c, act), a);
    }
    if act.SetState? {
      assert Settled(m, seen, act.id.addr);
      assert Holds(FieldsAt(db, c.cache, act.id.addr));
    }
    if act.Empty? {
      assert NotedBy(m, seen, act.addr);
    }
  }

  lemma {:induction false} GuardedRun(db: Layer, c: Context, m: Message, seen: seq<Observation>)
    requires Guarded(m) && GuardedState(db, c, m, seen)
    ensures
      var c' := Run(db, c, m, seen).0;
      AccountKeys(c'.hiddenReads) <= c'.readSet + c'.writeSet
    ensures WritesNoted(Run(db, c, m, seen).0)
    ensures SlotsHoused(c) ==> SlotsHoused(Run(db, c, m, seen).0)
    decreases m.gas - |seen|
  {
    if |seen| < m.gas && !IsFinal(m.next(seen)) {
      assert GuardedAt(m, seen);
      GuardedPerform(db, c, m, seen);
      GuardedRun(db, Perform(db, c, m.next(seen)), m, seen + [Observed(db, c, m.next(seen))]);
    } else {
      assert forall a <- c.hiddenReads :: Noted(c, a);
    }
  }

  lemma {:induction false} GuardedIsTruthful(db: Layer, parent: Context, c: Context, msgs: seq<Message>)
    requires forall m <- msgs :: Guarded(m)
    requires c.touched == {}
    ensures Truthful(db, parent, c, msgs)
    decreases |msgs|
  {
    if msgs != [] {
      var m := msgs[0];
      assert Guarded(m);
      GuardedRun(db, StartTracking(Fork(parent)), m, []);
      GuardedRun(db, StartTracking(c), m, []);
      RunClears(db, c, m, []);
      if !Apply(db, c, m).1.Rejected? {
        GuardedIsTruthful(db, parent, Apply(db, c, m).0, msgs[1..]);
      }
    }
  }

  /** Serial equivalence needs no condition on the runs when every message is guarded. */
  lemma GuardedEquivalence(db: Layer, start: Context, msgs: seq<Message>)
    requires start.touched == {}
    requires forall m <- msgs :: Guarded(m)
    ensures Validate(db, start, start, {}, msgs).1 == ApplyAll(db, start, msgs).1
    ensures SameView(db, Validate(db, start, start, {}, msgs).0.cache, ApplyAll(db, start, msgs).0.cache)
  {
    GuardedIsTruthful(db, start, start, msgs);
    ParallelIsSequential(db, start, msgs);
  }

  /* ---------- why the condition is there ---------- */

  const Nothing := Layer(map[], map[])

  function Fresh(cache: Layer): Context {
    Context(cache, {}, {}, {}, false, {}, {}, {}, {})
  }

  function Deposit(acc: Account): Account {
    acc.(balance := acc.balance + 5)
  }

  function Clear(acc: Account): Account {
    NewAccount
  }

  function CreditOne(seen: seq<Observation>): Action {
    if |seen| == 0 then Update(1, Deposit) else Halt(0)
  }

  function AskWhetherOneIsEmpty(seen: seq<Observation>): Action {
    if |seen| == 0 then Empty(1) else if seen[0] == Presence(true) then Halt(1) else Halt(2)
  }

  /**
   `Empty` leaves no note: a message that asks it about an account credited earlier in the block keeps
   its stale answer, so the parallel and the sequential results differ.
   */
  lemma HiddenEmptinessDiffers()
    ensures
      var msgs := [Message(2, CreditOne), Message(2, AskWhetherOneIsEmpty)];
      && Validate(Nothing, Fresh(Nothing), Fresh(Nothing), {}, msgs).1 == [Completed(0), Completed(1)]
      && ApplyAll(Nothing, Fresh(Nothing), msgs).1 == [Completed(0), Completed(2)]
  {
    var credit, ask := Message(2, CreditOne), Message(2, AskWhetherOneIsEmpty);
    var start := Fresh(Nothing);
    var fork := StartTracking(Fork(start));
    TwoStepRun(Nothing, fork, credit);
    TwoStepRun(Nothing, fork, ask);
    TwoStepRun(Nothing, start, credit);
    var c2 := Apply(Nothing, start, credit).0;
    assert FieldsAt(Nothing, c2.cache, 1) == Account(0, 5, 0);
    TwoStepRun(Nothing, c2, ask);
    PairOfMessages(Nothing, start, credit, ask);
  }

  /** A block of two messages, the second of which notes nothing the first one wrote. */
  lemma PairOfMessages(db: Layer, start: Context, m0: Message, m1: Message)
    requires !Apply(db, start, m0).1.Rejected? && !Apply(db, Apply(db, start, m0).0, m1).1.Rejected?
    requires
      var spec0, spec1 := Apply(db, StartTracking(Fork(start)), m0), Apply(db, StartTracking(Fork(start)), m1);
      !spec0.1.Rejected? && !spec1.1.Rejected? && !Conflicts(spec1.0, spec0.0.writeSet)
    ensures ApplyAll(db, start, [m0, m1]).1 == [Apply(db, start, m0).1, Apply(db, Apply(db, start, m0).0, m1).1]
    ensures Validate(db, start, start, {}, [m0, m1]).1
         == [Apply(db, StartTracking(Fork(start)), m0).1, Apply(db, StartTracking(Fork(start)), m1).1]
  {
    var msgs := [m0, m1];
    assert msgs[1..] == [m1] && [m1][1..] == [];
    var (live, r, written) := ValidateOne(db, start, start, {}, m0);
    assert r == Apply(db, StartTracking(Fork(start)), m0).1 && {} + written == written;
    assert Validate(db, start, live, {} + written, [m1]).1 == [Apply(db, StartTracking(Fork(start)), m1).1];
    var c1 := Apply(db, start, m0).0;
    assert ApplyAll(db, c1, [m1]).1 == [Apply(db, c1, m1).1];
  }

  /** A message that halts after one access. */
  lemma TwoStepRun(db: Layer, c: Context, m: Message)
    requires m.gas == 2 && !IsFinal(m.next([]))
    requires m.next([Observed(db, c, m.next([]))]).Halt?
    ensures Apply(db, c, m)
         == (Finalise(db, Perform(db, c, m.next([]))), Completed(m.next([Observed(db, c, m.next([]))]).output))
  {
    var act := m.next([]);
    var o := Observed(db, c, act);
    assert [] + [o] == [o];
    assert Run(db, c, m, []) == Run(db, Perform(db, c, act), m, [o]);
  }

  const EmptyAccountCached := Layer(map[1 := NewAccount], map[])

  function StoreAtOne(seen: seq<Observation>): Action {
    if |seen| == 0 then SetState(SlotId(1, 0), 8) else Halt(0)
  }

  function AskWhetherOneExists(seen: seq<Observation>): Action {
    if |seen| == 0 then Exist(1) else if seen[0] == Presence(true) then Halt(1) else Halt(2)
  }

  /**
   A slot write touches its account without a note; when the account is empty it is purged at the end of the message,
   and a later message that asks whether it exists keeps its stale answer.
   */
  lemma HiddenPurgeDiffers()
    ensures
      var msgs := [Message(2, StoreAtOne), Message(2, AskWhetherOneExists)];
      var start := Fresh(EmptyAccountCached);
      && Validate(Nothing, start, start, {}, msgs).1 == [Completed(0), Completed(1)]
      && ApplyAll(Nothing, start, msgs).1 == [Completed(0), Completed(2)]
  {
    var store, ask := Message(2, StoreAtOne), Message(2, AskWhetherOneExists);
    var start := Fresh(EmptyAccountCached);
    var fork := StartTracking(Fork(start));
    TwoStepRun(Nothing, fork, store);
    TwoStepRun(Nothing, fork, ask);
    TwoStepRun(Nothing, start, store);
    var c2 := Apply(Nothing, start, store).0;
    assert 1 in Purged(Nothing, Perform(Nothing, start, SetState(SlotId(1, 0), 8)));
    assert AccountAt(Nothing, c2.cache, 1).None?;
    TwoStepRun(Nothing, c2, ask);
    var spec0, spec1 := Apply(Nothing, fork, store).0, Apply(Nothing, fork, ask).0;
    assert spec0.writeSet == {StorageKey(SlotId(1, 0))} && spec1.readSet + spec1.writeSet == {AccountKey(1)};
    PairOfMessages(Nothing, start, store, ask);
  }

  const Deployed := Layer(map[1 := Account(0, 0, 7)], map[SlotId(1, 0) := 9])

  function StoreThenEmpty(seen: seq<Observation>): Action {
    if |seen| == 0 then SetState(SlotId(1, 0), 8)
    else if |seen| == 1 then Update(1, Clear)
    else Halt(0)
  }

  /**
   A message that stores to a slot and then empties the account itself leaves the stored word behind
   when it runs on the live state, but the merge of its fork clears the slot.
   */
  lemma OrphanedSlotDiffers()
    ensures
      var msgs := [Message(3, StoreThenEmpty)];
      && WordAt(Deployed, Validate(Deployed, Fresh(Nothing), Fresh(Nothing), {}, msgs).0.cache, SlotId(1, 0)) == 0
      && WordAt(Deployed, ApplyAll(Deployed, Fresh(Nothing), msgs).0.cache, SlotId(1, 0)) == 8
  {
    var m, id := Message(3, StoreThenEmpty), SlotId(1, 0);
    var msgs := [m];
    assert msgs[1..] == [];
    StoreThenEmptyRun(StartTracking(Fork(Fresh(Nothing))));
    StoreThenEmptyRun(Fresh(Nothing));
    var (fork, r) := Apply(Deployed, StartTracking(Fork(Fresh(Nothing))), m);
    assert Orphaned(fork, id);
    assert (fork.readSet + fork.writeSet) * {} == {};
    assert Validate(Deployed, Fresh(Nothing), Fresh(Nothing), {}, msgs).0 == Merged(Fresh(Nothing), fork);
    assert MergedWord(fork, id) == 0;
  }

  lemma StoreThenEmptyRun(c: Context)
    requires c.cache == Nothing && c.touched == {}
    ensures Apply(Deployed, c, Message(3, StoreThenEmpty)).1 == Completed(0)
    ensures var c' := Apply(Deployed, c, Message(3, StoreThenEmpty)).0;
      && WordAt(Deployed, c'.cache, SlotId(1, 0)) == 8
      && SlotId(1, 0) in c'.storageDirty && 1 in c'.accountDirty && 1 !in c'.cache.accounts
  {
    var m := Message(3, StoreThenEmpty);
    var c1 := Perform(Deployed, c, SetState(SlotId(1, 0), 8));
    var c2 := Perform(Deployed, c1, Update(1, Clear));
    assert FieldsAt(Deployed, c1.cache, 1) == Account(0, 0, 7);
    assert Run(Deployed, c2, m, [Value(9), Fields(Account(0, 0, 7))]) == (Finalise(Deployed, c2), Completed(0));
    assert [Value(9)] + [Fields(Account(0, 0, 7))] == [Value(9), Fields(Account(0, 0, 7))];
    assert Run(Deployed, c1, m, [Value(9)]) == (Finalise(Deployed, c2), Completed(0));
    assert [] + [Value(9)] == [Value(9)];
    assert Run(Deployed, c, m, []) == (Finalise(Deployed, c2), Completed(0));
  }
}
