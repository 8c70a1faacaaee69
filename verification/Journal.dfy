/**
 The journaled part of the state database: every mutator appends undo entries, a snapshot remembers a
 journal length, and reverting to a snapshot undoes the entries after it, last first.

 Accounts not in the cache are read from the disk, which no operation here changes. Code and storage are read
 through to the disk only when first used, so each is one map here.
 */
module Journal {
  import opened Accounts
  import opened Arithmetic
  import opened Options

  type Log = nat

  /** Bytecode is only stored, hashed and compared; 0 is the empty code. */
  type Code = nat

  /** Warm addresses; an index of -1 means no warm slots, otherwise it points into `slots`. */
  datatype AccessList = AccessList(addresses: map<Address, int>, slots: seq<set<Word>>)

  datatype World = World(
    disk: map<Address, Account>,
    accounts: map<Address, Account>,
    code: map<Hash, Code>,
    storage: map<SlotId, Word>,
    transient: map<SlotId, Word>,
    refund: nat,
    logs: seq<Log>,
    warm: AccessList)

  datatype Entry =
    | BalanceChange(addr: Address, prev: nat)
    | NonceChange(addr: Address, prev: nat)
    | CodeChange(addr: Address, prevHash: Hash, prevCode: Option<Code>)
    | StorageChange(id: SlotId, word: Word)
    | CreateObjectChange(addr: Address)
    | RefundChange(prev: nat)
    | AddLogChange
    | AccessListAddAccountChange(addr: Address)
    | AccessListAddSlotChange(id: SlotId)
    | TransientStorageChange(id: SlotId, word: Word)

  datatype Mutation =
    | AddBalance(addr: Address, amount: nat)
    | SubBalance(addr: Address, amount: nat)
    | SetBalance(addr: Address, balance: nat)
    | SetNonce(addr: Address, nonce: nat)
    | SetCode(addr: Address, code: Code)
    | SetState(id: SlotId, word: Word)
    | CreateAccount(addr: Address)
    | AddRefund(gas: nat)
    | SubRefund(gas: nat)
    | AddLog(log: Log)
    | SetTransientState(id: SlotId, word: Word)
    | AddAddressToAccessList(addr: Address)
    | AddSlotToAccessList(id: SlotId)

  /* ---------- reads ---------- */

  function OnDisk(w: World, a: Address): Account {
    if a in w.disk then w.disk[a] else NewAccount
  }

  function AccountAt(w: World, a: Address): Account {
    if a in w.accounts then w.accounts[a] else OnDisk(w, a)
  }

  predicate Exists(w: World, a: Address) {
    a in w.accounts || a in w.disk
  }

  /** GetCode: nothing for empty code, and nothing when the code is missing from the table. */
  function CodeOf(w: World, a: Address): Option<Code> {
    var h := AccountAt(w, a).codeHash;
    if h == 0 || h !in w.code then None else Some(w.code[h])
  }

  function WordIn(m: map<SlotId, Word>, id: SlotId): Word {
    if id in m then m[id] else 0
  }

  predicate IsWarm(l: AccessList, a: Address) {
    a in l.addresses
  }

  predicate IsWarmSlot(l: AccessList, id: SlotId) {
    && id.addr in l.addresses
    && 0 <= l.addresses[id.addr] < |l.slots|
    && id.slot in l.slots[l.addresses[id.addr]]
  }

  ghost predicate SameAccount(v: World, w: World, a: Address) {
    AccountAt(v, a) == AccountAt(w, a) && CodeOf(v, a) == CodeOf(w, a) && IsWarm(v.warm, a) == IsWarm(w.warm, a)
  }

  ghost predicate SameSlot(v: World, w: World, id: SlotId) {
    && WordIn(v.storage, id) == WordIn(w.storage, id)
    && WordIn(v.transient, id) == WordIn(w.transient, id)
    && IsWarmSlot(v.warm, id) == IsWarmSlot(w.warm, id)
  }

  /** Every balance, nonce, code, slot, transient slot, warm flag, the refund and the logs read the same. */
  ghost predicate SameReads(v: World, w: World) {
    && v.disk == w.disk
    && (forall a: Address :: SameAccount(v, w, a))
    && (forall id: SlotId :: SameSlot(v, w, id))
    && v.refund == w.refund
    && v.logs == w.logs
  }

  ghost predicate SameAccounts(v: World, w: World) {
    v.disk == w.disk && forall a: Address :: SameAccount(v, w, a)
  }

  ghost predicate SameSlots(v: World, w: World) {
    forall id: SlotId :: SameSlot(v, w, id)
  }

  ghost predicate SameCounters(v: World, w: World) {
    v.refund == w.refund && v.logs == w.logs
  }

  /** Nothing reads differently but perhaps the fields and the code of one account. */
  ghost predicate OnlyAccount(v: World, w: World, a: Address) {
    && v.disk == w.disk && (forall b: Address :: b != a ==> SameAccount(v, w, b))
    && IsWarm(v.warm, a) == IsWarm(w.warm, a)
    && SameSlots(v, w) && SameCounters(v, w)
  }

  /** Nothing reads differently but perhaps one slot. */
  ghost predicate OnlySlot(v: World, w: World, id: SlotId) {
    SameAccounts(v, w) && (forall j: SlotId :: j != id ==> SameSlot(v, w, j)) && SameCounters(v, w)
  }

  /* ---------- mutators ---------- */

  function WithAccount(w: World, a: Address, acc: Account): World {
    w.(accounts := w.accounts[a := acc])
  }

  /** The account's code hash, and the code in the table unless it is empty. */
  function WithCode(keccak: Code -> Hash, w: World, a: Address, code: Code): World {
    if code == 0 then WithAccount(w, a, AccountAt(w, a).(codeHash := 0))
    else WithAccount(w, a, AccountAt(w, a).(codeHash := keccak(code))).(code := w.code[keccak(code) := code])
  }

  function AddSlot(l: AccessList, id: SlotId): AccessList {
    if id.addr !in l.addresses || l.addresses[id.addr] == -1 then
      AccessList(l.addresses[id.addr := |l.slots|], l.slots + [{id.slot}])
    else if 0 <= l.addresses[id.addr] < |l.slots| then
      l.(slots := l.slots[l.addresses[id.addr] := l.slots[l.addresses[id.addr]] + {id.slot}])
    else l
  }

  function DeleteSlot(l: AccessList, id: SlotId): AccessList {
    if id.addr !in l.addresses || !(0 <= l.addresses[id.addr] < |l.slots|) then l else
    var i := l.addresses[id.addr];
    var left := l.slots[i] - {id.slot};
    AccessList(if left == {} then l.addresses[id.addr := -1] else l.addresses, l.slots[i := left])
  }

  /** The entries left by warming a slot: one for an address that becomes warm, one for the slot. */
  function SlotEntries(l: AccessList, id: SlotId): seq<Entry> {
    if IsWarmSlot(l, id) then []
    else if IsWarm(l, id.addr) then [AccessListAddSlotChange(id)]
    else [AccessListAddAccountChange(id.addr), AccessListAddSlotChange(id)]
  }

  /** What a mutation does, and the entries it leaves. `keccak` is the code hash. */
  function Mutate(keccak: Code -> Hash, w: World, m: Mutation): (World, seq<Entry>) {
    match m
    case AddBalance(a, amount) =>
      var acc := AccountAt(w, a);
      (WithAccount(w, a, acc.(balance := (acc.balance + amount) % TwoTo256)), [BalanceChange(a, acc.balance)])
    case SubBalance(a, amount) =>
      var acc := AccountAt(w, a);
      (WithAccount(w, a, acc.(balance := (acc.balance - amount) % TwoTo256)), [BalanceChange(a, acc.balance)])
    case SetBalance(a, balance) =>
      var acc := AccountAt(w, a);
      (WithAccount(w, a, acc.(balance := balance)), [BalanceChange(a, acc.balance)])
    case SetNonce(a, nonce) =>
      var acc := AccountAt(w, a);
      (WithAccount(w, a, acc.(nonce := nonce)), [NonceChange(a, acc.nonce)])
    case SetCode(a, code) =>
      (WithCode(keccak, w, a, code), [CodeChange(a, AccountAt(w, a).codeHash, CodeOf(w, a))])
    case SetState(id, word) =>
      var prev := WordIn(w.storage, id);
      if prev == word then (w, []) else
      (WithAccount(w, id.addr, AccountAt(w, id.addr)).(storage := w.storage[id := word]), [StorageChange(id, prev)])
    case CreateAccount(a) =>
      (WithAccount(w, a, NewAccount.(balance := AccountAt(w, a).balance)), [CreateObjectChange(a)])
    case AddRefund(gas) => (w.(refund := (w.refund + gas) % TwoTo64), [RefundChange(w.refund)])
    case SubRefund(gas) => (w.(refund := if gas <= w.refund then w.refund - gas else 0), [RefundChange(w.refund)])
    case AddLog(log) => (w.(logs := w.logs + [log]), [AddLogChange])
    case SetTransientState(id, word) =>
      (w.(transient := w.transient[id := word]), [TransientStorageChange(id, WordIn(w.transient, id))])
    case AddAddressToAccessList(a) =>
      if IsWarm(w.warm, a) then (w, []) else
      (w.(warm := w.warm.(addresses := w.warm.addresses[a := -1])), [AccessListAddAccountChange(a)])
    case AddSlotToAccessList(id) =>
      (w.(warm := AddSlot(w.warm, id)), SlotEntries(w.warm, id))
  }

  /* ---------- undo ---------- */

  // What undoing an entry does to each part of the world.

  function RevertAccounts(w: World, e: Entry): map<Address, Account> {
    match e
    case BalanceChange(a, prev) => w.accounts[a := AccountAt(w, a).(balance := prev)]
    case NonceChange(a, prev) => w.accounts[a := AccountAt(w, a).(nonce := prev)]
    case CodeChange(a, prevHash, _) => w.accounts[a := AccountAt(w, a).(codeHash := prevHash)]
    case CreateObjectChange(a) => w.accounts - {a}
    case _ => w.accounts
  }

  function RevertCode(code: map<Hash, Code>, e: Entry): map<Hash, Code> {
    if e.CodeChange? && e.prevHash != 0 && e.prevCode.Some? then code[e.prevHash := e.prevCode.value] else code
  }

  function RevertStorage(storage: map<SlotId, Word>, e: Entry): map<SlotId, Word> {
    match e
    case StorageChange(id, word) => storage[id := word]
    case _ => storage
  }

  function RevertTransient(transient: map<SlotId, Word>, e: Entry): map<SlotId, Word> {
    match e
    case TransientStorageChange(id, word) => transient[id := word]
    case _ => transient
  }

  function RevertRefund(refund: nat, e: Entry): nat {
    match e
    case RefundChange(prev) => prev
    case _ => refund
  }

  function RevertLogs(logs: seq<Log>, e: Entry): seq<Log> {
    if e.AddLogChange? && logs != [] then logs[..|logs| - 1] else logs
  }

  function RevertWarm(l: AccessList, e: Entry): AccessList {
    match e
    case AccessListAddAccountChange(a) => l.(addresses := l.addresses - {a})
    case AccessListAddSlotChange(id) => DeleteSlot(l, id)
    case _ => l
  }

  function Revert(w: World, e: Entry): World {
    World(w.disk, RevertAccounts(w, e), RevertCode(w.code, e), RevertStorage(w.storage, e),
          RevertTransient(w.transient, e), RevertRefund(w.refund, e), RevertLogs(w.logs, e), RevertWarm(w.warm, e))
  }

  /** Undoes the entries from the last down to the one at n. */
  function Undo(w: World, entries: seq<Entry>, n: nat): World
    requires n <= |entries|
    decreases |entries|
  {
    if n == |entries| then w
    else Undo(Revert(w, entries[|entries| - 1]), entries[..|entries| - 1], n)
  }

  /* ---------- well-formed worlds ---------- */

  /** The code table is addressed by content and holds the code of every account. */
  ghost predicate CodeTable(keccak: Code -> Hash, w: World) {
    Addressed(keccak, w.code) && CodeHeld(w.accounts, w.code) && CodeHeld(w.disk, w.code)
  }

  ghost predicate Addressed(keccak: Code -> Hash, code: map<Hash, Code>) {
    forall h <- code.Keys :: keccak(code[h]) == h
  }

  ghost predicate CodeHeld(accounts: map<Address, Account>, code: map<Hash, Code>) {
    forall a <- accounts.Keys :: accounts[a].codeHash != 0 ==> accounts[a].codeHash in code
  }

  /** Slot sets are not shared, and an address without warm slots has index -1. */
  ghost predicate Unshared(l: AccessList) {
    && (forall a <- l.addresses.Keys ::
          l.addresses[a] == -1 || (0 <= l.addresses[a] < |l.slots| && l.slots[l.addresses[a]] != {}))
    && (forall a <- l.addresses.Keys, b <- l.addresses.Keys ::
          a != b && l.addresses[a] != -1 ==> l.addresses[a] != l.addresses[b])
  }

  ghost predicate Good(keccak: Code -> Hash, w: World) {
    CodeTable(keccak, w) && Unshared(w.warm)
  }

  /** Code hashing has no collisions, and only empty code hashes to the empty code hash. */
  ghost predicate CodeHashing(keccak: Code -> Hash) {
    && (forall c: Code, d: Code :: keccak(c) == keccak(d) ==> c == d)
    && (forall c: Code :: keccak(c) == 0 <==> c == 0)
  }

  /** A recorded previous code belongs to its hash. */
  ghost predicate EntryOk(keccak: Code -> Hash, e: Entry) {
    e.CodeChange? && e.prevHash != 0 ==> e.prevCode.Some? && keccak(e.prevCode.value) == e.prevHash
  }

  /** CreateAccount finds no unsaved change of the account, and SubRefund (which panics) stays above zero. */
  predicate Allowed(w: World, m: Mutation) {
    && (m.CreateAccount? ==> AccountAt(w, m.addr) == OnDisk(w, m.addr))
    && (m.SubRefund? ==> m.gas <= w.refund)
  }

  /* ---------- one entry ---------- */

  lemma DeleteSlotReads(l: AccessList, id: SlotId)
    requires Unshared(l)
    ensures Unshared(DeleteSlot(l, id))
    ensures forall a: Address :: IsWarm(DeleteSlot(l, id), a) == IsWarm(l, a)
    ensures forall j: SlotId :: IsWarmSlot(DeleteSlot(l, id), j) == (IsWarmSlot(l, j) && j != id)
  {
    var d := DeleteSlot(l, id);
    forall j: SlotId ensures IsWarmSlot(d, j) == (IsWarmSlot(l, j) && j != id) {
      if IsWarmSlot(l, id) && IsWarmSlot(l, j) && j != id && j.addr == id.addr {
        assert j.slot in l.slots[l.addresses[id.addr]] - {id.slot};
      }
    }
  }

  lemma DeleteAddressReads(l: AccessList, a: Address)
    requires Unshared(l)
    ensures Unshared(l.(addresses := l.addresses - {a}))
    ensures forall b: Address :: IsWarm(l.(addresses := l.addresses - {a}), b) == (IsWarm(l, b) && b != a)
    ensures forall j: SlotId :: IsWarmSlot(l.(addresses := l.addresses - {a}), j) == (IsWarmSlot(l, j) && j.addr != a)
  {
  }

  lemma AddSlotReads(l: AccessList, id: SlotId)
    requires Unshared(l)
    ensures Unshared(AddSlot(l, id))
    ensures forall b: Address :: IsWarm(AddSlot(l, id), b) == (IsWarm(l, b) || b == id.addr)
    ensures forall j: SlotId :: IsWarmSlot(AddSlot(l, id), j) == (IsWarmSlot(l, j) || j == id)
  {
    var d := AddSlot(l, id);
    forall j: SlotId ensures IsWarmSlot(d, j) == (IsWarmSlot(l, j) || j == id) {
    }
  }

  /** Writing the code that belongs to a hash changes no code anyone reads. */
  lemma CodeKept(keccak: Code -> Hash, w: World, code: Code, a: Address)
    requires CodeHashing(keccak) && CodeTable(keccak, w) && code != 0
    ensures CodeTable(keccak, w.(code := w.code[keccak(code) := code]))
    ensures CodeOf(w.(code := w.code[keccak(code) := code]), a) == CodeOf(w, a)
  {
  }

  lemma RevertGood(keccak: Code -> Hash, w: World, e: Entry)
    requires CodeHashing(keccak) && Good(keccak, w) && EntryOk(keccak, e)
    ensures Good(keccak, Revert(w, e))
  {
    if e.AccessListAddSlotChange? {
      DeleteSlotReads(w.warm, e.id);
    } else if e.AccessListAddAccountChange? {
      DeleteAddressReads(w.warm, e.addr);
    } else if e.CodeChange? {
      CodeRestored(keccak, w, e, e.addr);
    }
  }

  /** Two content-addressed tables agree on the code of a hash they both hold. */
  lemma OneCode(keccak: Code -> Hash, u: World, v: World, h: Hash)
    requires CodeHashing(keccak) && CodeTable(keccak, u) && CodeTable(keccak, v) && h in u.code && h in v.code
    ensures u.code[h] == v.code[h]
  {
    assert keccak(u.code[h]) == keccak(v.code[h]);
  }

  lemma RevertCreateAt(keccak: Code -> Hash, u: World, v: World, a: Address, b: Address)
    requires CodeHashing(keccak) && CodeTable(keccak, u) && CodeTable(keccak, v)
    requires SameAccount(u, v, b) && u.disk == v.disk
    ensures SameAccount(Revert(u, CreateObjectChange(a)), Revert(v, CreateObjectChange(a)), b)
  {
    var h := OnDisk(u, b).codeHash;
    if a == b && h != 0 {
      OneCode(keccak, u, v, h);
    }
  }

  lemma RevertCodeAt(keccak: Code -> Hash, u: World, v: World, e: Entry, b: Address)
    requires CodeHashing(keccak) && CodeTable(keccak, u) && CodeTable(keccak, v) && EntryOk(keccak, e) && e.CodeChange?
    requires SameAccount(u, v, b)
    ensures SameAccount(Revert(u, e), Revert(v, e), b)
  {
    CodeRestored(keccak, u, e, b);
    CodeRestored(keccak, v, e, b);
  }

  lemma RevertFieldAt(u: World, v: World, e: Entry, b: Address)
    requires !e.CodeChange? && !e.CreateObjectChange?
    requires SameAccount(u, v, b)
    ensures SameAccount(Revert(u, e), Revert(v, e), b)
  {
    RevertWarmAt(u.warm, v.warm, e, b);
  }

  lemma RevertWarmAt(l: AccessList, r: AccessList, e: Entry, b: Address)
    requires IsWarm(l, b) == IsWarm(r, b)
    ensures IsWarm(RevertWarm(l, e), b) == IsWarm(RevertWarm(r, e), b)
  {
  }

  lemma RevertAccountAt(keccak: Code -> Hash, u: World, v: World, e: Entry, b: Address)
    requires CodeHashing(keccak) && CodeTable(keccak, u) && CodeTable(keccak, v) && EntryOk(keccak, e)
    requires SameAccount(u, v, b) && u.disk == v.disk
    ensures SameAccount(Revert(u, e), Revert(v, e), b)
  {
    match e
    case CodeChange(_, _, _) => RevertCodeAt(keccak, u, v, e, b);
    case CreateObjectChange(a) => RevertCreateAt(keccak, u, v, a, b);
    case _ => RevertFieldAt(u, v, e, b);
  }

  lemma RevertWarmSlotAt(l: AccessList, r: AccessList, e: Entry, id: SlotId)
    requires Unshared(l) && Unshared(r)
    requires IsWarmSlot(l, id) == IsWarmSlot(r, id)
    ensures IsWarmSlot(RevertWarm(l, e), id) == IsWarmSlot(RevertWarm(r, e), id)
  {
    match e
    case AccessListAddAccountChange(a) =>
      DeleteAddressReads(l, a);
      DeleteAddressReads(r, a);
    case AccessListAddSlotChange(j) =>
      DeleteSlotReads(l, j);
      DeleteSlotReads(r, j);
    case _ =>
  }

  lemma RevertSlotAt(u: World, v: World, e: Entry, id: SlotId)
    requires Unshared(u.warm) && Unshared(v.warm)
    requires SameSlot(u, v, id)
    ensures SameSlot(Revert(u, e), Revert(v, e), id)
  {
    RevertWarmSlotAt(u.warm, v.warm, e, id);
  }

  /** What is read after undoing an entry depends only on what was read before. */
  lemma RevertCongruent(keccak: Code -> Hash, u: World, v: World, e: Entry)
    requires CodeHashing(keccak) && Good(keccak, u) && Good(keccak, v) && EntryOk(keccak, e)
    requires SameReads(u, v)
    ensures SameReads(Revert(u, e), Revert(v, e))
  {
    forall b: Address ensures SameAccount(Revert(u, e), Revert(v, e), b) {
      assert SameAccount(u, v, b);
      RevertAccountAt(keccak, u, v, e, b);
    }
    forall id: SlotId ensures SameSlot(Revert(u, e), Revert(v, e), id) {
      assert SameSlot(u, v, id);
      RevertSlotAt(u, v, e, id);
    }
  }

  /** Undoing a code change: the account has its old code, every other account keeps its own. */
  lemma CodeRestored(keccak: Code -> Hash, w: World, e: Entry, b: Address)
    requires CodeHashing(keccak) && CodeTable(keccak, w) && EntryOk(keccak, e) && e.CodeChange?
    ensures CodeTable(keccak, Revert(w, e)) && Revert(w, e).warm == w.warm
    ensures AccountAt(Revert(w, e), b) ==
      if b == e.addr then AccountAt(w, b).(codeHash := e.prevHash) else AccountAt(w, b)
    ensures CodeOf(Revert(w, e), b) ==
            if b != e.addr then CodeOf(w, b) else if e.prevHash == 0 then None else e.prevCode
  {
    if e.prevHash != 0 {
      CodeKept(keccak, w, e.prevCode.value, b);
    }
  }

  /* ---------- what a mutation makes exist ---------- */

  /** A mutation makes the account it writes, or the one whose slot it gives a new word. */
  predicate Makes(w: World, m: Mutation, a: Address) {
    match m
    case AddBalance(b, _) => a == b
    case SubBalance(b, _) => a == b
    case SetBalance(b, _) => a == b
    case SetNonce(b, _) => a == b
    case SetCode(b, _) => a == b
    case CreateAccount(b) => a == b
    case SetState(id, word) => a == id.addr && word != WordIn(w.storage, id)
    case _ => false
  }

  lemma ExistsAfterMutation(keccak: Code -> Hash, w: World, m: Mutation, a: Address)
    ensures Exists(Mutate(keccak, w, m).0, a) <==> Exists(w, a) || Makes(w, m, a)
  {
  }

  /* ---------- what a mutation leaves alone ---------- */

  lemma FieldsOnly(keccak: Code -> Hash, w: World, m: Mutation)
    requires m.AddBalance? || m.SubBalance? || m.SetBalance? || m.SetNonce?
    ensures OnlyAccount(w, Mutate(keccak, w, m).0, m.addr)
    ensures CodeOf(Mutate(keccak, w, m).0, m.addr) == CodeOf(w, m.addr)
  {
  }

  lemma CreateOnly(keccak: Code -> Hash, w: World, a: Address)
    ensures OnlyAccount(w, Mutate(keccak, w, CreateAccount(a)).0, a)
    ensures CodeOf(Mutate(keccak, w, CreateAccount(a)).0, a) == None
  {
  }

  lemma CodeOnly(keccak: Code -> Hash, w: World, a: Address, code: Code)
    requires CodeHashing(keccak) && CodeTable(keccak, w)
    ensures OnlyAccount(w, WithCode(keccak, w, a, code), a)
    ensures CodeOf(WithCode(keccak, w, a, code), a) == if code == 0 then None else Some(code)
  {
    forall b: Address | b != a ensures SameAccount(w, WithCode(keccak, w, a, code), b) {
      OtherCodeKept(keccak, w, a, code, b);
    }
  }

  lemma StorageOnly(keccak: Code -> Hash, w: World, id: SlotId, word: Word)
    ensures OnlySlot(w, Mutate(keccak, w, SetState(id, word)).0, id)
  {
  }

  /** Nothing reads differently but whether one slot and its address are warm. */
  ghost predicate OnlyWarmth(v: World, w: World, id: SlotId) {
    && (forall b: Address :: AccountAt(v, b) == AccountAt(w, b) && CodeOf(v, b) == CodeOf(w, b))
    && (forall b: Address :: b != id.addr ==> IsWarm(v.warm, b) == IsWarm(w.warm, b))
    && (forall j: SlotId ::
          WordIn(v.storage, j) == WordIn(w.storage, j) && WordIn(v.transient, j) == WordIn(w.transient, j))
    && (forall j: SlotId :: j != id ==> IsWarmSlot(v.warm, j) == IsWarmSlot(w.warm, j))
    && SameCounters(v, w)
  }

  lemma WarmthOnly(w: World, id: SlotId)
    requires Unshared(w.warm)
    ensures OnlyWarmth(w, w.(warm := AddSlot(w.warm, id)), id)
    ensures IsWarm(AddSlot(w.warm, id), id.addr) && IsWarmSlot(AddSlot(w.warm, id), id)
  {
    AddSlotReads(w.warm, id);
  }

  /* ---------- one mutation ---------- */

  lemma UndoOne(w: World, e: Entry)
    ensures Undo(w, [e], 0) == Revert(w, e)
  {
    assert [e][..0] == [];
  }

  lemma UndoTwo(w: World, d: Entry, e: Entry)
    ensures Undo(w, [d, e], 0) == Revert(Revert(w, e), d)
  {
    assert [d, e][..1] == [d];
    UndoOne(Revert(w, e), d);
  }

  ghost predicate Undone(keccak: Code -> Hash, w: World, m: Mutation) {
    var (w', es) := Mutate(keccak, w, m);
    && Good(keccak, w')
    && (forall e <- es :: EntryOk(keccak, e))
    && SameReads(Undo(w', es, 0), w)
  }

  /** Putting an account in the cache as it reads changes no read. */
  lemma CachedReadsSame(w: World, a: Address)
    ensures SameReads(WithAccount(w, a, AccountAt(w, a)), w)
  {
    forall b: Address ensures SameAccount(WithAccount(w, a, AccountAt(w, a)), w, b) {
    }
    forall id: SlotId ensures SameSlot(WithAccount(w, a, AccountAt(w, a)), w, id) {
    }
  }

  lemma WithAccountOk(keccak: Code -> Hash, w: World, a: Address, acc: Account)
    requires Good(keccak, w) && (acc.codeHash == 0 || acc.codeHash == AccountAt(w, a).codeHash)
    ensures Good(keccak, WithAccount(w, a, acc))
  {
  }

  lemma FieldsUndone(keccak: Code -> Hash, w: World, m: Mutation)
    requires Good(keccak, w) && (m.AddBalance? || m.SubBalance? || m.SetBalance? || m.SetNonce?)
    ensures Undone(keccak, w, m)
  {
    hide Good;
    var (w', es) := Mutate(keccak, w, m);
    UndoOne(w', es[0]);
    assert Revert(w', es[0]) == WithAccount(w, m.addr, AccountAt(w, m.addr));
    CachedReadsSame(w, m.addr);
    WithAccountOk(keccak, w, m.addr, AccountAt(w', m.addr));
    hide SameReads;
  }

  lemma CreateUndone(keccak: Code -> Hash, w: World, a: Address)
    requires Good(keccak, w) && AccountAt(w, a) == OnDisk(w, a)
    ensures Undone(keccak, w, CreateAccount(a))
  {
    var (w', es) := Mutate(keccak, w, CreateAccount(a));
    WithAccountOk(keccak, w, a, AccountAt(w', a));
    hide Good;
    UndoOne(w', es[0]);
    var back := Revert(w', es[0]);
    forall b: Address ensures SameAccount(back, w, b) {
    }
    forall id: SlotId ensures SameSlot(back, w, id) {
    }
  }

  /** Setting code keeps the table in order. */
  lemma WithCodeOk(keccak: Code -> Hash, w: World, a: Address, code: Code)
    requires CodeHashing(keccak) && CodeTable(keccak, w)
    ensures CodeTable(keccak, WithCode(keccak, w, a, code))
  {
    if code != 0 {
      CodeKept(keccak, w, code, a);
    }
  }

  lemma CodeEntryOk(keccak: Code -> Hash, w: World, a: Address)
    requires CodeTable(keccak, w)
    ensures EntryOk(keccak, CodeChange(a, AccountAt(w, a).codeHash, CodeOf(w, a)))
  {
  }

  /** Other accounts read the same code while one account's code is set, and after that is undone. */
  lemma OtherCodeKept(keccak: Code -> Hash, w: World, a: Address, code: Code, b: Address)
    requires CodeHashing(keccak) && CodeTable(keccak, w) && a != b
    ensures CodeOf(WithCode(keccak, w, a, code), b) == CodeOf(w, b)
  {
    if code != 0 {
      CodeKept(keccak, w, code, b);
    }
  }

  lemma WithCodeFields(keccak: Code -> Hash, w: World, a: Address, code: Code, b: Address)
    ensures WithCode(keccak, w, a, code).warm == w.warm
    ensures a != b ==> AccountAt(WithCode(keccak, w, a, code), b) == AccountAt(w, b)
    ensures a == b ==>
      AccountAt(WithCode(keccak, w, a, code), b).(codeHash := AccountAt(w, b).codeHash) == AccountAt(w, b)
    ensures AccountAt(w, b).codeHash == 0 ==> CodeOf(w, b) == None
  {
  }

  lemma CodeUndoneAt(keccak: Code -> Hash, w: World, a: Address, code: Code, b: Address)
    requires CodeHashing(keccak) && CodeTable(keccak, w)
    ensures SameAccount(Revert(WithCode(keccak, w, a, code), CodeChange(a, AccountAt(w, a).codeHash, CodeOf(w, a))),
                        w, b)
  {
    hide CodeHashing, CodeTable, EntryOk, Revert, CodeOf, AccountAt, WithCode;
    CodeEntryOk(keccak, w, a);
    WithCodeOk(keccak, w, a, code);
    WithCodeFields(keccak, w, a, code, b);
    CodeRestored(keccak, WithCode(keccak, w, a, code), CodeChange(a, AccountAt(w, a).codeHash, CodeOf(w, a)), b);
    if a != b {
      OtherCodeKept(keccak, w, a, code, b);
    }
  }

  lemma SameSlotsAfterCode(keccak: Code -> Hash, w: World, a: Address, code: Code, e: Entry, id: SlotId)
    requires e.CodeChange?
    ensures SameSlot(Revert(WithCode(keccak, w, a, code), e), w, id)
  {
  }

  lemma CodeShape(keccak: Code -> Hash, w: World, a: Address, code: Code)
    ensures
      var w', e := WithCode(keccak, w, a, code), CodeChange(a, AccountAt(w, a).codeHash, CodeOf(w, a));
      && Mutate(keccak, w, SetCode(a, code)) == (w', [e]) && w'.warm == w.warm
      && Revert(w', e).disk == w.disk && Revert(w', e).refund == w.refund && Revert(w', e).logs == w.logs
  {
  }

  lemma CodeUndone(keccak: Code -> Hash, w: World, a: Address, code: Code)
    requires CodeHashing(keccak) && Good(keccak, w)
    ensures Undone(keccak, w, SetCode(a, code))
  {
    var w', e := WithCode(keccak, w, a, code), CodeChange(a, AccountAt(w, a).codeHash, CodeOf(w, a));
    hide Mutate, CodeTable, CodeHashing, Unshared, EntryOk, SameAccount, SameSlot, WithCode, Revert, CodeOf, AccountAt;
    CodeShape(keccak, w, a, code);
    UndoOne(w', e);
    WithCodeOk(keccak, w, a, code);
    CodeEntryOk(keccak, w, a);
    forall b: Address ensures SameAccount(Revert(w', e), w, b) {
      CodeUndoneAt(keccak, w, a, code, b);
    }
    forall id: SlotId ensures SameSlot(Revert(w', e), w, id) {
      SameSlotsAfterCode(keccak, w, a, code, e, id);
    }
  }

  lemma StorageUndone(keccak: Code -> Hash, w: World, id: SlotId, word: Word)
    requires Good(keccak, w)
    ensures Undone(keccak, w, SetState(id, word))
  {
    var (w', es) := Mutate(keccak, w, SetState(id, word));
    if es != [] {
      UndoOne(w', es[0]);
      var back := Revert(w', es[0]);
      forall b: Address ensures SameAccount(back, w, b) {
      }
      forall j: SlotId ensures SameSlot(back, w, j) {
      }
    }
  }

  lemma TransientUndone(keccak: Code -> Hash, w: World, id: SlotId, word: Word)
    requires Good(keccak, w)
    ensures Undone(keccak, w, SetTransientState(id, word))
  {
    var (w', es) := Mutate(keccak, w, SetTransientState(id, word));
    UndoOne(w', es[0]);
    var back := Revert(w', es[0]);
    forall b: Address ensures SameAccount(back, w, b) {
    }
    forall j: SlotId ensures SameSlot(back, w, j) {
    }
  }

  lemma CountersUndone(keccak: Code -> Hash, w: World, m: Mutation)
    requires Good(keccak, w) && (m.AddRefund? || m.SubRefund? || m.AddLog?)
    ensures Undone(keccak, w, m)
  {
    var (w', es) := Mutate(keccak, w, m);
    UndoOne(w', es[0]);
    assert Revert(w', es[0]) == w;
  }

  lemma WarmAddressUndone(keccak: Code -> Hash, w: World, a: Address)
    requires Good(keccak, w)
    ensures Undone(keccak, w, AddAddressToAccessList(a))
  {
    hide Addressed, CodeHeld;
    var (w', es) := Mutate(keccak, w, AddAddressToAccessList(a));
    if es != [] {
      WarmAddressAdded(w.warm, a);
      DeleteAddressReads(w'.warm, a);
      WarmEntry(w', AccessListAddAccountChange(a));
      UndoOne(w', AccessListAddAccountChange(a));
      SameReadsButWarm(w, w'.warm.(addresses := w'.warm.addresses - {a}));
    }
  }

  lemma WarmAddressAdded(l: AccessList, a: Address)
    requires Unshared(l) && !IsWarm(l, a)
    ensures Unshared(l.(addresses := l.addresses[a := -1]))
  {
  }

  /** The warm lists after the undo entries of a slot. */
  function UnwarmSlot(l: AccessList, id: SlotId): AccessList {
    var fewer := if IsWarmSlot(l, id) then AddSlot(l, id) else DeleteSlot(AddSlot(l, id), id);
    if IsWarm(l, id.addr) then fewer else fewer.(addresses := fewer.addresses - {id.addr})
  }

  lemma UnwarmSlotReads(l: AccessList, id: SlotId)
    requires Unshared(l)
    ensures forall b: Address :: IsWarm(UnwarmSlot(l, id), b) == IsWarm(l, b)
    ensures forall j: SlotId :: IsWarmSlot(UnwarmSlot(l, id), j) == IsWarmSlot(l, j)
  {
    AddSlotReads(l, id);
    DeleteSlotReads(AddSlot(l, id), id);
    var fewer := if IsWarmSlot(l, id) then AddSlot(l, id) else DeleteSlot(AddSlot(l, id), id);
    DeleteAddressReads(fewer, id.addr);
  }

  lemma WarmEntry(w: World, e: Entry)
    requires e.AccessListAddAccountChange? || e.AccessListAddSlotChange?
    ensures Revert(w, e) == w.(warm := RevertWarm(w.warm, e))
  {
  }

  lemma SlotEntriesUndone(w: World, l: AccessList, id: SlotId)
    ensures Undo(w.(warm := AddSlot(l, id)), SlotEntries(l, id), 0) == w.(warm := UnwarmSlot(l, id))
  {
    var w' := w.(warm := AddSlot(l, id));
    var slotEntry, addressEntry := AccessListAddSlotChange(id), AccessListAddAccountChange(id.addr);
    if !IsWarmSlot(l, id) {
      WarmEntry(w', slotEntry);
      if IsWarm(l, id.addr) {
        UndoOne(w', slotEntry);
      } else {
        UndoTwo(w', addressEntry, slotEntry);
        WarmEntry(Revert(w', slotEntry), addressEntry);
      }
    }
  }

  lemma SameReadsButWarm(w: World, l: AccessList)
    requires forall b: Address :: IsWarm(l, b) == IsWarm(w.warm, b)
    requires forall j: SlotId :: IsWarmSlot(l, j) == IsWarmSlot(w.warm, j)
    ensures SameReads(w.(warm := l), w)
  {
    forall b: Address ensures SameAccount(w.(warm := l), w, b) {
    }
    forall id: SlotId ensures SameSlot(w.(warm := l), w, id) {
    }
  }

  lemma WarmSlotUndone(keccak: Code -> Hash, w: World, id: SlotId)
    requires Good(keccak, w)
    ensures Undone(keccak, w, AddSlotToAccessList(id))
  {
    SlotEntriesUndone(w, w.warm, id);
    AddSlotReads(w.warm, id);
    UnwarmSlotReads(w.warm, id);
    SameReadsButWarm(w, UnwarmSlot(w.warm, id));
  }

  /** Undoing the entries of a mutation gives back every read. */
  lemma MutationUndone(keccak: Code -> Hash, w: World, m: Mutation)
    requires CodeHashing(keccak) && Good(keccak, w) && Allowed(w, m)
    ensures Undone(keccak, w, m)
  {
    match m
    case SetCode(a, code) => CodeUndone(keccak, w, a, code);
    case SetState(id, word) => StorageUndone(keccak, w, id, word);
    case AddAddressToAccessList(a) => WarmAddressUndone(keccak, w, a);
    case AddSlotToAccessList(id) => WarmSlotUndone(keccak, w, id);
    case AddRefund(_) => CountersUndone(keccak, w, m);
    case SubRefund(_) => CountersUndone(keccak, w, m);
    case AddLog(_) => CountersUndone(keccak, w, m);
    case SetTransientState(id, word) => TransientUndone(keccak, w, id, word);
    case CreateAccount(a) => CreateUndone(keccak, w, a);
    case _ => FieldsUndone(keccak, w, m);
  }

  /* ---------- whole journals ---------- */

  ghost predicate EntriesOk(keccak: Code -> Hash, entries: seq<Entry>) {
    forall e <- entries :: EntryOk(keccak, e)
  }

  lemma {:induction false} UndoCongruent(keccak: Code -> Hash, u: World, v: World, entries: seq<Entry>, n: nat)
    requires CodeHashing(keccak) && Good(keccak, u) && Good(keccak, v) && EntriesOk(keccak, entries) && n <= |entries|
    requires SameReads(u, v)
    ensures SameReads(Undo(u, entries, n), Undo(v, entries, n))
    decreases |entries|
  {
    if n < |entries| {
      var e := entries[|entries| - 1];
      assert e in entries;
      RevertGood(keccak, u, e);
      RevertGood(keccak, v, e);
      RevertCongruent(keccak, u, v, e);
      UndoCongruent(keccak, Revert(u, e), Revert(v, e), entries[..|entries| - 1], n);
    }
  }

  lemma {:induction false} UndoGood(keccak: Code -> Hash, w: World, entries: seq<Entry>, n: nat)
    requires CodeHashing(keccak) && Good(keccak, w) && EntriesOk(keccak, entries) && n <= |entries|
    ensures Good(keccak, Undo(w, entries, n))
    decreases |entries|
  {
    if n < |entries| {
      var e := entries[|entries| - 1];
      assert e in entries;
      RevertGood(keccak, w, e);
      UndoGood(keccak, Revert(w, e), entries[..|entries| - 1], n);
    }
  }

  /** Undoing in two stages: the later entries first. */
  lemma {:induction false} UndoSplit(w: World, first: seq<Entry>, later: seq<Entry>, n: nat)
    requires n <= |first|
    ensures Undo(w, first + later, n) == Undo(Undo(w, later, 0), first, n)
    decreases |later|
  {
    if later == [] {
      assert first + later == first;
    } else {
      var k := |later| - 1;
      assert (first + later)[|first| + k] == later[k];
      assert (first + later)[..|first| + k] == first + later[..k];
      UndoSplit(Revert(w, later[k]), first, later[..k], n);
    }
  }

  /* ---------- nested snapshots ---------- */

  datatype Revision = Revision(id: nat, journalIndex: nat)

  datatype Database = Database(world: World, entries: seq<Entry>, revisions: seq<Revision>, nextRevisionId: nat)

  datatype Action = Change(mutation: Mutation) | TakeSnapshot | RevertTo(position: nat)

  /** `saved` is the world at the time of each snapshot that is still valid. */
  datatype Traced = Traced(db: Database, saved: seq<World>)

  predicate Possible(t: Traced, act: Action) {
    match act
    case Change(m) => Allowed(t.db.world, m)
    case TakeSnapshot => true
    case RevertTo(i) => i < |t.db.revisions| && i < |t.saved| && t.db.revisions[i].journalIndex <= |t.db.entries|
  }

  function Changed(keccak: Code -> Hash, d: Database, m: Mutation): Database {
    var (w, es) := Mutate(keccak, d.world, m);
    d.(world := w, entries := d.entries + es)
  }

  function Snapshotted(d: Database): Database {
    d.(revisions := d.revisions + [Revision(d.nextRevisionId, |d.entries|)], nextRevisionId := d.nextRevisionId + 1)
  }

  function Reverted(d: Database, i: nat): Database
    requires i < |d.revisions| && d.revisions[i].journalIndex <= |d.entries|
  {
    var n := d.revisions[i].journalIndex;
    d.(world := Undo(d.world, d.entries, n), entries := d.entries[..n], revisions := d.revisions[..i])
  }

  function Step(keccak: Code -> Hash, t: Traced, act: Action): Traced
    requires Possible(t, act)
  {
    match act
    case Change(m) => t.(db := Changed(keccak, t.db, m))
    case TakeSnapshot => Traced(Snapshotted(t.db), t.saved + [t.db.world])
    case RevertTo(i) => Traced(Reverted(t.db, i), t.saved[..i])
  }

  /** Reverting to any valid snapshot would give back every read of the world saved with it. */
  ghost predicate Restorable(keccak: Code -> Hash, t: Traced) {
    && Good(keccak, t.db.world)
    && EntriesOk(keccak, t.db.entries)
    && |t.saved| == |t.db.revisions|
    && (forall i, j | 0 <= i < j < |t.db.revisions| ::
          && t.db.revisions[i].id < t.db.revisions[j].id
          && t.db.revisions[i].journalIndex <= t.db.revisions[j].journalIndex)
    && (forall i | 0 <= i < |t.db.revisions| ::
          && t.db.revisions[i].id < t.db.nextRevisionId
          && t.db.revisions[i].journalIndex <= |t.db.entries|
          && Restores(t, i))
  }

  ghost predicate Restores(t: Traced, i: nat)
    requires i < |t.db.revisions| && i < |t.saved| && t.db.revisions[i].journalIndex <= |t.db.entries|
  {
    SameReads(Undo(t.db.world, t.db.entries, t.db.revisions[i].journalIndex), t.saved[i])
  }

  lemma SafeTable(keccak: Code -> Hash, t: Traced)
    requires Restorable(keccak, t)
    ensures Good(keccak, t.db.world)
  {
  }

  lemma SameReadsTransitive(u: World, v: World, w: World)
    requires SameReads(u, v) && SameReads(v, w)
    ensures SameReads(u, w)
  {
    forall b: Address ensures SameAccount(u, w, b) {
      assert SameAccount(u, v, b) && SameAccount(v, w, b);
    }
    forall id: SlotId ensures SameSlot(u, w, id) {
      assert SameSlot(u, v, id) && SameSlot(v, w, id);
    }
  }

  lemma ChangeKeeps(keccak: Code -> Hash, t: Traced, m: Mutation)
    requires CodeHashing(keccak) && Restorable(keccak, t) && Allowed(t.db.world, m)
    ensures Restorable(keccak, Step(keccak, t, Change(m)))
  {
    var (w, es) := Mutate(keccak, t.db.world, m);
    var t' := Step(keccak, t, Change(m));
    MutationUndone(keccak, t.db.world, m);
    UndoGood(keccak, w, es, 0);
    forall i | 0 <= i < |t.db.revisions| ensures Restores(t', i) {
      var n := t.db.revisions[i].journalIndex;
      UndoSplit(w, t.db.entries, es, n);
      UndoCongruent(keccak, Undo(w, es, 0), t.db.world, t.db.entries, n);
      assert Restores(t, i);
      SameReadsTransitive(Undo(w, t'.db.entries, n), Undo(t.db.world, t.db.entries, n), t.saved[i]);
    }
  }

  lemma SnapshotKeeps(keccak: Code -> Hash, t: Traced)
    requires Restorable(keccak, t)
    ensures Restorable(keccak, Step(keccak, t, TakeSnapshot))
  {
    var t' := Step(keccak, t, TakeSnapshot);
    forall i | 0 <= i < |t'.db.revisions| ensures Restores(t', i) {
      if i < |t.db.revisions| {
        assert Restores(t, i);
      }
    }
  }

  lemma RevertKeeps(keccak: Code -> Hash, t: Traced, i: nat)
    requires CodeHashing(keccak) && Restorable(keccak, t) && Possible(t, RevertTo(i))
    ensures Restorable(keccak, Step(keccak, t, RevertTo(i)))
  {
    var t' := Step(keccak, t, RevertTo(i));
    var n := t.db.revisions[i].journalIndex;
    UndoGood(keccak, t.db.world, t.db.entries, n);
    forall j | 0 <= j < i ensures Restores(t', j) {
      assert Restores(t, j);
      assert t.db.entries == t.db.entries[..n] + t.db.entries[n..];
      UndoSplit(t.db.world, t.db.entries[..n], t.db.entries[n..], t.db.revisions[j].journalIndex);
      UndoShift(t.db.world, t.db.entries, n);
    }
  }

  lemma {:induction false} UndoShift(w: World, entries: seq<Entry>, n: nat)
    requires n <= |entries|
    ensures Undo(w, entries, n) == Undo(w, entries[n..], 0)
    decreases |entries|
  {
    if n < |entries| {
      var k := |entries| - 1;
      assert entries[n..][..k - n] == entries[..k][n..];
      UndoShift(Revert(w, entries[k]), entries[..k], n);
    }
  }

  /** Reverting gives back every read of the saved world, and the earlier snapshots stay restorable. */
  lemma RevertRestores(keccak: Code -> Hash, t: Traced, i: nat)
    requires CodeHashing(keccak) && Restorable(keccak, t) && i < |t.db.revisions|
    ensures Possible(t, RevertTo(i)) && |t.saved| == |t.db.revisions|
    ensures SameReads(Reverted(t.db, i).world, t.saved[i]) && Restorable(keccak, Step(keccak, t, RevertTo(i)))
  {
    assert Restores(t, i);
    RevertKeeps(keccak, t, i);
  }

  function RunAll(keccak: Code -> Hash, t: Traced, acts: seq<Action>): Option<Traced>
    decreases |acts|
  {
    if acts == [] then Some(t)
    else if !Possible(t, acts[0]) then None
    else RunAll(keccak, Step(keccak, t, acts[0]), acts[1..])
  }

  lemma StepRestorable(keccak: Code -> Hash, t: Traced, act: Action)
    requires CodeHashing(keccak) && Restorable(keccak, t) && Possible(t, act)
    ensures Restorable(keccak, Step(keccak, t, act))
  {
    match act
    case Change(m) => ChangeKeeps(keccak, t, m);
    case TakeSnapshot => SnapshotKeeps(keccak, t);
    case RevertTo(i) => RevertKeeps(keccak, t, i);
  }

  /** Every run of mutations, nested snapshots and reverts keeps each valid snapshot restorable. */
  lemma {:induction false} RunsStayRestorable(keccak: Code -> Hash, t: Traced, acts: seq<Action>)
    requires CodeHashing(keccak) && Restorable(keccak, t)
    ensures RunAll(keccak, t, acts).Some? ==> Restorable(keccak, RunAll(keccak, t, acts).value)
    decreases |acts|
  {
    if acts != [] && Possible(t, acts[0]) {
      StepRestorable(keccak, t, acts[0]);
      RunsStayRestorable(keccak, Step(keccak, t, acts[0]), acts[1..]);
    }
  }

  const EmptyWorld := World(map[], map[], map[], map[], map[], 0, [], AccessList(map[], []))

  /**
   From a database with no snapshots, whatever is done: reverting to any snapshot that is still valid gives back
   every read of the moment it was taken, and snapshots taken before it stay valid.
   */
  lemma SnapshotsRestore(keccak: Code -> Hash, w: World, acts: seq<Action>, i: nat)
    requires CodeHashing(keccak) && Good(keccak, w)
    ensures
      var r := RunAll(keccak, Traced(Database(w, [], [], 0), []), acts);
      r.Some? && Possible(r.value, RevertTo(i)) ==>
        && SameReads(Reverted(r.value.db, i).world, r.value.saved[i])
        && Restorable(keccak, Step(keccak, r.value, RevertTo(i)))
  {
    var start := Traced(Database(w, [], [], 0), []);
    RunsStayRestorable(keccak, start, acts);
    var r := RunAll(keccak, start, acts);
    if r.Some? && Possible(r.value, RevertTo(i)) {
      RevertRestores(keccak, r.value, i);
    }
  }

  /* ---------- what is not restored ---------- */

  /** Resetting an account is undone exactly when the account held no unsaved change. */
  lemma ResetUndoneExactly(keccak: Code -> Hash, w: World, a: Address)
    requires CodeHashing(keccak) && Good(keccak, w)
    ensures
      var (w', es) := Mutate(keccak, w, CreateAccount(a));
      SameReads(Undo(w', es, 0), w) <==> AccountAt(w, a) == OnDisk(w, a)
  {
    var (w', es) := Mutate(keccak, w, CreateAccount(a));
    UndoOne(w', es[0]);
    if AccountAt(w, a) == OnDisk(w, a) {
      CreateUndone(keccak, w, a);
    } else {
      assert !SameAccount(Undo(w', es, 0), w, a);
    }
  }

  /** The entries that put an account in the cache when undone, or take it out. */
  predicate TouchesCache(e: Entry, a: Address) {
    match e
    case BalanceChange(b, _) => a == b
    case NonceChange(b, _) => a == b
    case CodeChange(b, _, _) => a == b
    case CreateObjectChange(b) => a == b
    case _ => false
  }

  function FirstTouch(entries: seq<Entry>, a: Address): Option<Entry> {
    if entries == [] then None
    else if TouchesCache(entries[0], a) then Some(entries[0])
    else FirstTouch(entries[1..], a)
  }

  /**
   Existence after a revert is decided by the first entry for the address: any entry but a creation leaves the
   account in the cache, where it exists even if it did not before.
   */
  lemma {:induction false} ExistsAfterUndo(w: World, entries: seq<Entry>, a: Address)
    ensures Exists(Undo(w, entries, 0), a) <==>
            match FirstTouch(entries, a)
            case None => Exists(w, a)
            case Some(e) => !e.CreateObjectChange? || a in w.disk
    ensures Undo(w, entries, 0).disk == w.disk
    decreases |entries|
  {
    if entries != [] {
      var rest := entries[1..];
      ExistsAfterUndo(w, rest, a);
      assert entries == [entries[0]] + rest;
      UndoSplit(w, [entries[0]], rest, 0);
      UndoOne(Undo(w, rest, 0), entries[0]);
      CacheAfterRevert(Undo(w, rest, 0), entries[0], a);
    }
  }

  lemma CacheAfterRevert(w: World, e: Entry, a: Address)
    ensures a in Revert(w, e).accounts <==> if TouchesCache(e, a) then !e.CreateObjectChange? else a in w.accounts
  {
  }

  /** A balance change at an absent address, undone, leaves the address existing. */
  lemma TouchSurvivesRevert(keccak: Code -> Hash)
    ensures
      var (w, es) := Mutate(keccak, EmptyWorld, AddBalance(1, 5));
      !Exists(EmptyWorld, 1) && Exists(Undo(w, es, 0), 1)
  {
    var (w, es) := Mutate(keccak, EmptyWorld, AddBalance(1, 5));
    UndoOne(w, es[0]);
  }
}
