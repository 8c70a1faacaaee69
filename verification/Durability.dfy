/**
 Writing the state to disk. Only keys marked dirty are written, so everything that reads differently from the disk has
 to be marked. Sequential and parallel execution see to that, and then a flush leaves a disk that reads like the state.
 */
module Durability {
  import opened Accounts
  import opened Execution
  import opened SerialEquivalence

  const Cold := Layer(map[], map[])

  ghost predicate AccountMarked(db: Layer, c: Context, a: Address) {
    AccountAt(db, c.cache, a) != AccountAt(db, Cold, a) ==> a in c.accountDirty
  }

  ghost predicate WordMarked(db: Layer, c: Context, id: SlotId) {
    WordAt(db, c.cache, id) != WordAt(db, Cold, id) ==> id in c.storageDirty
  }

  /** Whatever reads differently from the disk is dirty, and a dirty slot is cached. */
  ghost predicate Marked(db: Layer, c: Context) {
    && (forall a: Address :: AccountMarked(db, c, a))
    && (forall id: SlotId :: WordMarked(db, c, id))
    && c.storageDirty <= c.cache.storage.Keys
  }

  /* ---------- execution marks what it changes ---------- */

  lemma PerformMarks(db: Layer, c: Context, act: Action)
    requires Marked(db, c) && !IsFinal(act)
    ensures Marked(db, Perform(db, c, act))
  {
    var c' := Perform(db, c, act);
    forall a: Address ensures AccountMarked(db, c', a) {
      assert AccountMarked(db, c, a);
    }
    forall id: SlotId ensures WordMarked(db, c', id) {
      assert WordMarked(db, c, id);
    }
  }

  lemma FinaliseMarks(db: Layer, c: Context)
    requires Marked(db, c)
    ensures Marked(db, Finalise(db, c))
  {
    var c' := Finalise(db, c);
    forall a: Address ensures AccountMarked(db, c', a) {
      assert AccountMarked(db, c, a);
    }
    forall id: SlotId ensures WordMarked(db, c', id) {
      assert WordMarked(db, c, id);
    }
  }

  lemma {:induction false} RunMarks(db: Layer, c: Context, m: Message, seen: seq<Observation>)
    requires Marked(db, c)
    ensures Marked(db, Run(db, c, m, seen).0)
    decreases m.gas - |seen|
  {
    FinaliseMarks(db, c);
    hide Marked, Perform, Finalise, Observed;
    if |seen| < m.gas && !IsFinal(m.next(seen)) {
      PerformMarks(db, c, m.next(seen));
      RunMarks(db, Perform(db, c, m.next(seen)), m, seen + [Observed(db, c, m.next(seen))]);
    }
  }

  lemma {:induction false} SequentialMarks(db: Layer, c: Context, msgs: seq<Message>)
    requires Marked(db, c)
    ensures Marked(db, ApplyAll(db, c, msgs).0)
    decreases |msgs|
  {
    if msgs != [] {
      hide Marked, Run;
      RunMarks(db, c, msgs[0], []);
      SequentialMarks(db, Apply(db, c, msgs[0]).0, msgs[1..]);
    }
  }

  /** Merging marks all it copies, whatever the fork did. */
  lemma MergeMarks(db: Layer, live: Context, src: Context)
    requires Marked(db, live)
    ensures Marked(db, Merged(live, src))
  {
    var c' := Merged(live, src);
    forall a: Address ensures AccountMarked(db, c', a) {
      assert AccountMarked(db, live, a);
    }
    forall id: SlotId ensures WordMarked(db, c', id) {
      assert WordMarked(db, live, id);
    }
  }

  lemma TrackingMarks(db: Layer, c: Context)
    requires Marked(db, c)
    ensures Marked(db, StartTracking(c)) && Marked(db, StopTracking(c))
  {
    forall a: Address ensures AccountMarked(db, StartTracking(c), a) && AccountMarked(db, StopTracking(c), a) {
      assert AccountMarked(db, c, a);
    }
    forall id: SlotId ensures WordMarked(db, StartTracking(c), id) && WordMarked(db, StopTracking(c), id) {
      assert WordMarked(db, c, id);
    }
  }

  lemma {:induction false} ParallelMarks(db: Layer, parent: Context, live: Context, earlier: set<AccessKey>,
                                         msgs: seq<Message>)
    requires Marked(db, live)
    ensures Marked(db, Validate(db, parent, live, earlier, msgs).0)
    decreases |msgs|
  {
    if msgs != [] {
      hide Marked, Run, Merged, Conflicts, StartTracking, StopTracking, Fork;
      var m := msgs[0];
      TrackingMarks(db, live);
      RunMarks(db, StartTracking(live), m, []);
      TrackingMarks(db, Apply(db, StartTracking(live), m).0);
      MergeMarks(db, live, Apply(db, StartTracking(Fork(parent)), m).0);
      var (live1, r, written) := ValidateOne(db, parent, live, earlier, m);
      ParallelMarks(db, parent, live1, earlier + written, msgs[1..]);
    }
  }

  /* ---------- the flush ---------- */

  /** The disk after a flush: dirty accounts that are cached, and dirty words, zero words deleted. */
  function Flushed(db: Layer, c: Context): Layer {
    Layer(db.accounts + (map a | a in c.accountDirty && a in c.cache.accounts :: c.cache.accounts[a]),
          db.storage - ZeroSlots(c) + (map id | id in c.storageDirty && id !in ZeroSlots(c) :: c.cache.storage[id]))
  }

  function ZeroSlots(c: Context): set<SlotId> {
    set id | id in c.storageDirty && (id !in c.cache.storage || c.cache.storage[id] == 0)
  }

  function Cleared(c: Context): Context {
    c.(accountDirty := {}, storageDirty := {})
  }

  /** The same with only the given keys dirty. */
  ghost function Partly(db: Layer, c: Context, accounts: set<Address>, slots: set<SlotId>): Layer {
    Flushed(db, c.(accountDirty := accounts, storageDirty := slots))
  }

  lemma AccountFlushed(db: Layer, c: Context, done: set<Address>, a: Address)
    ensures Partly(db, c, done + {a}, {}).storage == Partly(db, c, done, {}).storage
    ensures Partly(db, c, done + {a}, {}).accounts ==
      var w := Partly(db, c, done, {}).accounts;
      if a in c.cache.accounts then w[a := c.cache.accounts[a]] else w
  {
    assert ZeroSlots(c.(accountDirty := done, storageDirty := {})) == {};
    assert ZeroSlots(c.(accountDirty := done + {a}, storageDirty := {})) == {};
  }

  lemma SlotFlushed(db: Layer, c: Context, accounts: set<Address>, done: set<SlotId>, id: SlotId)
    requires id !in done
    ensures Partly(db, c, accounts, done + {id}).accounts == Partly(db, c, accounts, done).accounts
    ensures Partly(db, c, accounts, done + {id}).storage ==
      var w := Partly(db, c, accounts, done).storage;
      if id !in c.cache.storage || c.cache.storage[id] == 0 then w - {id} else w[id := c.cache.storage[id]]
  {
    var x := c.(accountDirty := accounts, storageDirty := done);
    var y := c.(accountDirty := accounts, storageDirty := done + {id});
    assert ZeroSlots(y) == ZeroSlots(x) + (if id !in c.cache.storage || c.cache.storage[id] == 0 then {id} else {});
  }

  /** Goes through the dirty accounts and then the dirty slots, in no particular order. */
  method FlushDirtyTo(db: Layer, c: Context) returns (disk: Layer)
    ensures disk == Flushed(db, c)
  {
    disk := db;
    var accounts := c.accountDirty;
    assert Partly(db, c, {}, {}) == db;
    assert c.accountDirty - accounts == {};
    hide Flushed;
    while accounts != {}
      invariant accounts <= c.accountDirty && disk == Partly(db, c, c.accountDirty - accounts, {})
    {
      var a :| a in accounts;
      AccountFlushed(db, c, c.accountDirty - accounts, a);
      assert c.accountDirty - (accounts - {a}) == c.accountDirty - accounts + {a};
      accounts := accounts - {a};
      if a !in c.cache.accounts { continue; }
      disk := disk.(accounts := disk.accounts[a := c.cache.accounts[a]]);
    }
    var slots := c.storageDirty;
    assert c.accountDirty - accounts == c.accountDirty && c.storageDirty - slots == {};
    while slots != {}
      invariant slots <= c.storageDirty && disk == Partly(db, c, c.accountDirty, c.storageDirty - slots)
    {
      var id :| id in slots;
      SlotFlushed(db, c, c.accountDirty, c.storageDirty - slots, id);
      assert c.storageDirty - (slots - {id}) == c.storageDirty - slots + {id};
      slots := slots - {id};
      if id !in c.cache.storage || c.cache.storage[id] == 0 {
        disk := disk.(storage := disk.storage - {id});
        continue;
      }
      disk := disk.(storage := disk.storage[id := c.cache.storage[id]]);
    }
    assert c.storageDirty - slots == c.storageDirty;
    assert c.(accountDirty := c.accountDirty, storageDirty := c.storageDirty) == c;
  }

  /** A flush makes the disk read like the state, and nothing is left to write. */
  lemma FlushIsDurable(db: Layer, c: Context)
    requires Marked(db, c)
    ensures forall k :: See(Flushed(db, c), Cold, k) == See(db, c.cache, k) == See(Flushed(db, c), c.cache, k)
    ensures Marked(Flushed(db, c), Cleared(c))
  {
    var disk := Flushed(db, c);
    forall a: Address ensures AccountAt(disk, Cold, a) == AccountAt(db, c.cache, a) == AccountAt(disk, c.cache, a) {
      assert AccountMarked(db, c, a);
    }
    forall id: SlotId ensures WordAt(disk, Cold, id) == WordAt(db, c.cache, id) == WordAt(disk, c.cache, id) {
      assert WordMarked(db, c, id);
    }
    forall a: Address ensures AccountMarked(disk, Cleared(c), a) {
      assert AccountAt(disk, Cold, a) == AccountAt(disk, c.cache, a);
    }
    forall id: SlotId ensures WordMarked(disk, Cleared(c), id) {
      assert WordAt(disk, Cold, id) == WordAt(disk, c.cache, id);
    }
  }

  /** A block executed in parallel and flushed leaves a disk that reads like the state, and so does one in sequence. */
  lemma BlocksAreDurable(db: Layer, start: Context, msgs: seq<Message>)
    requires Marked(db, start)
    ensures
      var c := ApplyAll(db, start, msgs).0;
      forall k :: See(Flushed(db, c), Cold, k) == See(db, c.cache, k)
    ensures
      var c := Validate(db, start, start, {}, msgs).0;
      forall k :: See(Flushed(db, c), Cold, k) == See(db, c.cache, k)
  {
    hide Marked, Flushed;
    SequentialMarks(db, start, msgs);
    ParallelMarks(db, start, start, {}, msgs);
    FlushIsDurable(db, ApplyAll(db, start, msgs).0);
    FlushIsDurable(db, Validate(db, start, start, {}, msgs).0);
  }
}
