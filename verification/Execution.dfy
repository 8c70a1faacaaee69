/**
 The state database as message execution sees it: caches layered over a durable backend, the dirty
 sets, the journal's list of touched accounts, and the Dew-PE access set.

 The EVM is foreign code. A message is therefore any deterministic strategy over the state
 accessors: it looks at everything it has observed so far and picks its next access, and its gas
 bounds how often it may do so. A revert inside a message is a run of restoring writes, which is
 what the journal issues.
 */
module Execution {
  import opened Accounts
  import opened Options

  datatype AccessKey = AccountKey(addr: Address) | StorageKey(id: SlotId)

  /** The accounts and storage slots held by a layer: the durable backend, or the caches above it. */
  datatype Layer = Layer(accounts: map<Address, Account>, storage: map<SlotId, Word>)

  datatype Action =
    | Exist(addr: Address)
    | GetAccount(addr: Address)
    | Empty(addr: Address)
    | Update(addr: Address, change: Account -> Account)
    | GetState(id: SlotId)
    | SetState(id: SlotId, word: Word)
    | Halt(output: nat)
    | Reject(error: nat)

  datatype Observation = Presence(present: bool) | Fields(account: Account) | Value(word: Word)

  datatype Message = Message(gas: nat, next: seq<Observation> -> Action)

  datatype Result = Completed(output: nat) | OutOfGas | Rejected(error: nat)

  /**
   The mutable part of a StateDB. `readSet` and `writeSet` are the access set and are filled only while
   `tracking`. `hiddenReads` and `hiddenWrites` are not in the program: they collect the accounts
   whose presence is consulted, or which are created or purged, without a note in the access set.
   */
  datatype Context = Context(
    cache: Layer,
    accountDirty: set<Address>,
    storageDirty: set<SlotId>,
    touched: set<Address>,
    tracking: bool,
    readSet: set<AccessKey>,
    writeSet: set<AccessKey>,
    hiddenReads: set<Address>,
    hiddenWrites: set<Address>)

  function AccountAt(db: Layer, cache: Layer, a: Address): Option<Account> {
    if a in cache.accounts then Some(cache.accounts[a])
    else if a in db.accounts then Some(db.accounts[a])
    else None
  }

  function FieldsAt(db: Layer, cache: Layer, a: Address): Account {
    var found := AccountAt(db, cache, a);
    if found.Some? then found.value else NewAccount
  }

  function WordAt(db: Layer, cache: Layer, id: SlotId): Word {
    if id in cache.storage then cache.storage[id]
    else if id in db.storage then db.storage[id]
    else 0
  }

  predicate IsEmpty(acc: Account) {
    acc == NewAccount
  }

  function RecordRead(c: Context, k: AccessKey): Context {
    if !c.tracking || k in c.writeSet then c else c.(readSet := c.readSet + {k})
  }

  function RecordWrite(c: Context, k: AccessKey): Context {
    if !c.tracking then c else c.(readSet := c.readSet - {k}, writeSet := c.writeSet + {k})
  }

  /** Puts the account in the cache, marking it dirty when it had to be made. */
  function GetOrNewAccount(db: Layer, c: Context, a: Address): Context {
    var c' := c.(cache := c.cache.(accounts := c.cache.accounts[a := FieldsAt(db, c.cache, a)]));
    if AccountAt(db, c.cache, a).Some? then c' else c'.(accountDirty := c.accountDirty + {a})
  }

  /** The journaled account mutators all have this shape; they differ in `change`. */
  function UpdateAccount(db: Layer, c: Context, a: Address, change: Account -> Account): Context {
    var c1 := GetOrNewAccount(db, RecordWrite(c, AccountKey(a)), a);
    c1.(cache := c1.cache.(accounts := c1.cache.accounts[a := change(FieldsAt(db, c.cache, a))]),
        accountDirty := c1.accountDirty + {a},
        touched := c1.touched + {a})
  }

  /** SetStateJournaled: a write of the value already there is dropped. */
  function StoreWord(db: Layer, c: Context, id: SlotId, word: Word): Context {
    var c1 := RecordRead(c, StorageKey(id));
    if WordAt(db, c.cache, id) == word then c1 else
    var created := AccountAt(db, c.cache, id.addr).None?;
    var c2 := GetOrNewAccount(db, RecordWrite(c1, StorageKey(id)), id.addr);
    c2.(cache := c2.cache.(storage := c2.cache.storage[id := word]),
        storageDirty := c2.storageDirty + {id},
        touched := c2.touched + {id.addr},
        hiddenReads := c2.hiddenReads + {id.addr},
        hiddenWrites := if created then c2.hiddenWrites + {id.addr} else c2.hiddenWrites)
  }

  predicate IsFinal(act: Action) {
    act.Halt? || act.Reject?
  }

  function Observed(db: Layer, c: Context, act: Action): Observation
    requires !IsFinal(act)
  {
    match act
    case Exist(a) => Presence(AccountAt(db, c.cache, a).Some?)
    case GetAccount(a) => Fields(FieldsAt(db, c.cache, a))
    case Empty(a) => Presence(IsEmpty(FieldsAt(db, c.cache, a)))
    case Update(a, _) => Fields(FieldsAt(db, c.cache, a))
    case GetState(id) => Value(WordAt(db, c.cache, id))
    case SetState(id, _) => Value(WordAt(db, c.cache, id))
  }

  function Perform(db: Layer, c: Context, act: Action): Context
    requires !IsFinal(act)
  {
    match act
    case Exist(a) => RecordRead(c, AccountKey(a))
    case GetAccount(a) => RecordRead(c, AccountKey(a))
    case Empty(a) => c.(hiddenReads := c.hiddenReads + {a})
    case Update(a, change) => UpdateAccount(db, c, a, change)
    case GetState(id) => RecordRead(c, StorageKey(id))
    case SetState(id, word) => StoreWord(db, c, id, word)
  }

  function Purged(db: Layer, c: Context): set<Address> {
    set a | a in c.touched && IsEmpty(FieldsAt(db, c.cache, a))
  }

  /** Drops the touched accounts that ended up empty and clears the journal. */
  function Finalise(db: Layer, c: Context): Context {
    var gone := Purged(db, c);
    c.(cache := c.cache.(accounts := c.cache.accounts - gone),
       accountDirty := c.accountDirty + gone,
       touched := {},
       hiddenReads := c.hiddenReads + c.touched,
       hiddenWrites := c.hiddenWrites + gone)
  }

  /** Runs `m` from the point where it has observed `seen`. */
  function Run(db: Layer, c: Context, m: Message, seen: seq<Observation>): (Context, Result)
    decreases m.gas - |seen|
  {
    if |seen| >= m.gas then (Finalise(db, c), OutOfGas) else
    var act := m.next(seen);
    match act
    case Halt(output) => (Finalise(db, c), Completed(output))
    case Reject(error) => (c, Rejected(error))
    case _ => Run(db, Perform(db, c, act), m, seen + [Observed(db, c, act)])
  }

  /** ApplyMessage: what one message does to the state database. */
  function Apply(db: Layer, c: Context, m: Message): (Context, Result) {
    Run(db, c, m, [])
  }

  /** ApplySequential stops at the first rejected message. */
  function ApplyAll(db: Layer, c: Context, msgs: seq<Message>): (Context, seq<Result>)
    decreases |msgs|
  {
    if msgs == [] then (c, []) else
    var (c1, r) := Apply(db, c, msgs[0]);
    if r.Rejected? then (c1, [r]) else
    var (c2, rest) := ApplyAll(db, c1, msgs[1..]);
    (c2, [r] + rest)
  }

  function StartTracking(c: Context): Context {
    c.(tracking := true, readSet := {}, writeSet := {}, hiddenReads := {}, hiddenWrites := {})
  }

  function StopTracking(c: Context): Context {
    c.(tracking := false, readSet := {}, writeSet := {}, hiddenReads := {}, hiddenWrites := {})
  }

  /** Copy: same caches, nothing dirty, empty journal. */
  function Fork(c: Context): Context {
    Context(c.cache, {}, {}, {}, false, {}, {}, {}, {})
  }
}
