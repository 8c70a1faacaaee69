/**
 The state database as the virtual machine uses it: mutators that change it in place and record undo entries,
 snapshots, and the loop that undoes the journal.
 */
module JournaledState {
  import opened Accounts
  import opened Arithmetic
  import opened Options
  import opened Journal

  class StateDB {
    const keccak: Code -> Hash
    const disk: map<Address, Account>
    var accounts: map<Address, Account>
    var code: map<Hash, Code>
    var storage: map<SlotId, Word>
    var transient: map<SlotId, Word>
    var refund: nat
    var logs: seq<Log>
    var addresses: map<Address, int>
    var slots: seq<set<Word>>
    var entries: seq<Entry>
    var revisions: seq<Revision>
    var nextRevisionId: nat
    /** The world at the time of each snapshot that is still valid. */
    ghost var saved: seq<World>

    constructor (keccak: Code -> Hash, disk: map<Address, Account>, code: map<Hash, Code>, storage: map<SlotId, Word>)
      ensures this.keccak == keccak
      ensures Db() == Database(World(disk, map[], code, storage, map[], 0, [], AccessList(map[], [])), [], [], 0)
      ensures Valid() && saved == []
    {
      this.keccak, this.disk, this.code, this.storage := keccak, disk, code, storage;
      accounts, transient, refund, logs := map[], map[], 0, [];
      addresses, slots := map[], [];
      entries, revisions, nextRevisionId := [], [], 0;
      saved := [];
    }

    ghost function Current(): World
      reads this
    {
      World(disk, accounts, code, storage, transient, refund, logs, AccessList(addresses, slots))
    }

    ghost function Db(): Database
      reads this
    {
      Database(Current(), entries, revisions, nextRevisionId)
    }

    /** Reverting to any valid snapshot would give back every read of the world saved with it. */
    ghost predicate Safe()
      reads this
    {
      CodeHashing(keccak) && Restorable(keccak, Traced(Db(), saved))
    }

    /** Snapshots point into the journal, warm addresses into the slot sets. */
    ghost predicate Valid()
      reads this
    {
      && (forall r <- revisions :: r.journalIndex <= |entries|)
      && (forall i, j | 0 <= i < j < |revisions| :: revisions[i].journalIndex <= revisions[j].journalIndex)
      && Indexed()
    }

    ghost predicate Indexed()
      reads this`addresses, this`slots
    {
      forall a <- addresses.Keys :: -1 <= addresses[a] < |slots|
    }

    /** getAccount, which also fills the cache, and GetOrNewAccount. */
    function GetAccount(a: Address): (acc: Account)
      reads this
      ensures acc == AccountAt(Current(), a)
    {
      if a in accounts then accounts[a] else if a in disk then disk[a] else NewAccount
    }

    function GetCode(a: Address): (c: Option<Code>)
      reads this
      ensures c == CodeOf(Current(), a)
    {
      var h := GetAccount(a).codeHash;
      if h != 0 && h in code then Some(code[h]) else None
    }

    function GetState(id: SlotId): (word: Word)
      reads this
      ensures word == WordIn(storage, id)
    {
      if id in storage then storage[id] else 0
    }

    function GetTransientState(id: SlotId): (word: Word)
      reads this
      ensures word == WordIn(transient, id)
    {
      if id in transient then transient[id] else 0
    }

    function AddressInAccessList(a: Address): (warm: bool)
      reads this
      ensures warm == IsWarm(Current().warm, a)
    {
      a in addresses
    }

    function SlotInAccessList(id: SlotId): (warm: bool)
      reads this
      ensures warm == IsWarmSlot(Current().warm, id)
    {
      id.addr in addresses && 0 <= addresses[id.addr] < |slots| && id.slot in slots[addresses[id.addr]]
    }

    method AddBalance(a: Address, amount: nat)
      modifies this
      ensures Db() == Changed(keccak, old(Db()), Mutation.AddBalance(a, amount))
      ensures GetAccount(a) == old(GetAccount(a)).(balance := (old(GetAccount(a)).balance + amount) % TwoTo256)
      ensures GetCode(a) == old(GetCode(a)) && OnlyAccount(old(Current()), Current(), a)
      ensures saved == old(saved) && (old(Safe()) ==> Safe())
      ensures old(Valid()) ==> Valid()
    {
      hide Restorable, CodeHashing;
      if Safe() {
        ChangeKeeps(keccak, Traced(Db(), saved), Mutation.AddBalance(a, amount));
      }
      FieldsOnly(keccak, Current(), Mutation.AddBalance(a, amount));
      var acc := GetAccount(a);
      entries := entries + [BalanceChange(a, acc.balance)];
      accounts := accounts[a := acc.(balance := (acc.balance + amount) % TwoTo256)];
    }

    method SubBalance(a: Address, amount: nat)
      modifies this
      ensures Db() == Changed(keccak, old(Db()), Mutation.SubBalance(a, amount))
      ensures GetAccount(a) == old(GetAccount(a)).(balance := (old(GetAccount(a)).balance - amount) % TwoTo256)
      ensures GetCode(a) == old(GetCode(a)) && OnlyAccount(old(Current()), Current(), a)
      ensures saved == old(saved) && (old(Safe()) ==> Safe())
      ensures old(Valid()) ==> Valid()
    {
      hide Restorable, CodeHashing;
      if Safe() {
        ChangeKeeps(keccak, Traced(Db(), saved), Mutation.SubBalance(a, amount));
      }
      FieldsOnly(keccak, Current(), Mutation.SubBalance(a, amount));
      var acc := GetAccount(a);
      entries := entries + [BalanceChange(a, acc.balance)];
      accounts := accounts[a := acc.(balance := (acc.balance - amount) % TwoTo256)];
    }

    method SetBalance(a: Address, balance: nat)
      modifies this
      ensures Db() == Changed(keccak, old(Db()), Mutation.SetBalance(a, balance))
      ensures GetAccount(a) == old(GetAccount(a)).(balance := balance)
      ensures GetCode(a) == old(GetCode(a)) && OnlyAccount(old(Current()), Current(), a)
      ensures saved == old(saved) && (old(Safe()) ==> Safe())
      ensures old(Valid()) ==> Valid()
    {
      hide Restorable, CodeHashing;
      if Safe() {
        ChangeKeeps(keccak, Traced(Db(), saved), Mutation.SetBalance(a, balance));
      }
      FieldsOnly(keccak, Current(), Mutation.SetBalance(a, balance));
      var acc := GetAccount(a);
      entries := entries + [BalanceChange(a, acc.balance)];
      accounts := accounts[a := acc.(balance := balance)];
    }

    method SetNonce(a: Address, nonce: nat)
      modifies this
      ensures Db() == Changed(keccak, old(Db()), Mutation.SetNonce(a, nonce))
      ensures GetAccount(a) == old(GetAccount(a)).(nonce := nonce)
      ensures GetCode(a) == old(GetCode(a)) && OnlyAccount(old(Current()), Current(), a)
      ensures saved == old(saved) && (old(Safe()) ==> Safe())
      ensures old(Valid()) ==> Valid()
    {
      hide Restorable, CodeHashing;
      if Safe() {
        ChangeKeeps(keccak, Traced(Db(), saved), Mutation.SetNonce(a, nonce));
      }
      FieldsOnly(keccak, Current(), Mutation.SetNonce(a, nonce));
      var acc := GetAccount(a);
      entries := entries + [NonceChange(a, acc.nonce)];
      accounts := accounts[a := acc.(nonce := nonce)];
    }

    method SetCode(a: Address, newCode: Code)
      modifies this
      ensures Db() == Changed(keccak, old(Db()), Mutation.SetCode(a, newCode))
      ensures GetAccount(a) == old(GetAccount(a)).(codeHash := if newCode == 0 then 0 else keccak(newCode))
      ensures old(Safe()) ==>
        GetCode(a) == (if newCode == 0 then None else Some(newCode)) && OnlyAccount(old(Current()), Current(), a)
      ensures saved == old(saved) && (old(Safe()) ==> Safe())
      ensures old(Valid()) ==> Valid()
    {
      hide Restorable, CodeHashing;
      if Safe() {
        ChangeKeeps(keccak, Traced(Db(), saved), Mutation.SetCode(a, newCode));
        SafeTable(keccak, Traced(Db(), saved));
        CodeOnly(keccak, Current(), a, newCode);
      }
      var acc := GetAccount(a);
      var prevCode := if acc.codeHash != 0 && acc.codeHash in code then Some(code[acc.codeHash]) else None;
      entries := entries + [CodeChange(a, acc.codeHash, prevCode)];
      if newCode == 0 {
        accounts := accounts[a := acc.(codeHash := 0)];
      } else {
        var h := keccak(newCode);
        accounts := accounts[a := acc.(codeHash := h)];
        code := code[h := newCode];
      }
    }

    method SetState(id: SlotId, word: Word) returns (prev: Word)
      modifies this
      ensures Db() == Changed(keccak, old(Db()), Mutation.SetState(id, word))
      ensures GetState(id) == word && GetTransientState(id) == old(GetTransientState(id))
      ensures SlotInAccessList(id) == old(SlotInAccessList(id)) && OnlySlot(old(Current()), Current(), id)
      ensures saved == old(saved) && (old(Safe()) ==> Safe())
      ensures prev == old(GetState(id))
      ensures old(Valid()) ==> Valid()
    {
      hide Restorable, CodeHashing;
      if Safe() {
        ChangeKeeps(keccak, Traced(Db(), saved), Mutation.SetState(id, word));
      }
      StorageOnly(keccak, Current(), id, word);
      prev := if id in storage then storage[id] else 0;
      if prev == word { return; }
      entries := entries + [StorageChange(id, prev)];
      accounts := accounts[id.addr := GetAccount(id.addr)];
      storage := storage[id := word];
    }

    method CreateAccount(a: Address)
      modifies this
      ensures Db() == Changed(keccak, old(Db()), Mutation.CreateAccount(a))
      ensures GetAccount(a) == Account(0, old(GetAccount(a)).balance, 0) && GetCode(a) == None
      ensures OnlyAccount(old(Current()), Current(), a)
      ensures saved == old(saved) && (old(Safe()) && Allowed(old(Current()), Mutation.CreateAccount(a)) ==> Safe())
      ensures old(Valid()) ==> Valid()
    {
      hide Restorable, CodeHashing;
      if Safe() && Allowed(Current(), Mutation.CreateAccount(a)) {
        ChangeKeeps(keccak, Traced(Db(), saved), Mutation.CreateAccount(a));
      }
      CreateOnly(keccak, Current(), a);
      var prev := GetAccount(a);
      entries := entries + [CreateObjectChange(a)];
      accounts := accounts[a := NewAccount.(balance := prev.balance)];
    }

    method AddRefund(gas: nat)
      modifies this
      ensures Db() == Changed(keccak, old(Db()), Mutation.AddRefund(gas))
      ensures refund == (old(refund) + gas) % TwoTo64 && logs == old(logs)
      ensures SameAccounts(old(Current()), Current()) && SameSlots(old(Current()), Current())
      ensures saved == old(saved) && (old(Safe()) ==> Safe())
      ensures old(Valid()) ==> Valid()
    {
      hide Restorable, CodeHashing;
      if Safe() {
        ChangeKeeps(keccak, Traced(Db(), saved), Mutation.AddRefund(gas));
      }
      entries := entries + [RefundChange(refund)];
      refund := (refund + gas) % TwoTo64;
    }

    /** The original panics when the counter would go below zero. */
    method SubRefund(gas: nat)
      requires gas <= refund
      modifies this
      ensures Db() == Changed(keccak, old(Db()), Mutation.SubRefund(gas))
      ensures refund == old(refund) - gas && logs == old(logs)
      ensures SameAccounts(old(Current()), Current()) && SameSlots(old(Current()), Current())
      ensures saved == old(saved) && (old(Safe()) && Allowed(old(Current()), Mutation.SubRefund(gas)) ==> Safe())
      ensures old(Valid()) ==> Valid()
    {
      hide Restorable, CodeHashing;
      if Safe() && Allowed(Current(), Mutation.SubRefund(gas)) {
        ChangeKeeps(keccak, Traced(Db(), saved), Mutation.SubRefund(gas));
      }
      entries := entries + [RefundChange(refund)];
      refund := refund - gas;
    }

    method AddLog(log: Log)
      modifies this
      ensures Db() == Changed(keccak, old(Db()), Mutation.AddLog(log))
      ensures logs == old(logs) + [log] && refund == old(refund)
      ensures SameAccounts(old(Current()), Current()) && SameSlots(old(Current()), Current())
      ensures saved == old(saved) && (old(Safe()) ==> Safe())
      ensures old(Valid()) ==> Valid()
    {
      hide Restorable, CodeHashing;
      if Safe() {
        ChangeKeeps(keccak, Traced(Db(), saved), Mutation.AddLog(log));
      }
      entries := entries + [AddLogChange];
      logs := logs + [log];
    }

    method SetTransientState(id: SlotId, word: Word)
      modifies this
      ensures Db() == Changed(keccak, old(Db()), Mutation.SetTransientState(id, word))
      ensures GetTransientState(id) == word && GetState(id) == old(GetState(id))
      ensures SlotInAccessList(id) == old(SlotInAccessList(id)) && OnlySlot(old(Current()), Current(), id)
      ensures saved == old(saved) && (old(Safe()) ==> Safe())
      ensures old(Valid()) ==> Valid()
    {
      hide Restorable, CodeHashing;
      if Safe() {
        ChangeKeeps(keccak, Traced(Db(), saved), Mutation.SetTransientState(id, word));
      }
      entries := entries + [TransientStorageChange(id, if id in transient then transient[id] else 0)];
      transient := transient[id := word];
    }

    method AddAddressToAccessList(a: Address)
      modifies this
      ensures Db() == Changed(keccak, old(Db()), Mutation.AddAddressToAccessList(a))
      ensures AddressInAccessList(a) && GetAccount(a) == old(GetAccount(a)) && GetCode(a) == old(GetCode(a))
      ensures forall b: Address | b != a :: SameAccount(old(Current()), Current(), b)
      ensures SameSlots(old(Current()), Current()) && SameCounters(old(Current()), Current())
      ensures saved == old(saved) && (old(Safe()) ==> Safe())
      ensures old(Valid()) ==> Valid()
    {
      hide Restorable, CodeHashing;
      if Safe() {
        ChangeKeeps(keccak, Traced(Db(), saved), Mutation.AddAddressToAccessList(a));
      }
      if a !in addresses {
        addresses := addresses[a := -1];
        entries := entries + [AccessListAddAccountChange(a)];
      }
    }

    /** AddSlot of the access list: which of the address and the slot became warm. */
    method WarmSlot(id: SlotId) returns (addrMod: bool, slotMod: bool)
      requires Valid()
      modifies this`addresses, this`slots
      ensures Valid()
      ensures AccessList(addresses, slots) == AddSlot(old(AccessList(addresses, slots)), id)
      ensures addrMod == !IsWarm(old(AccessList(addresses, slots)), id.addr)
      ensures slotMod == !IsWarmSlot(old(AccessList(addresses, slots)), id)
    {
      if id.addr !in addresses || addresses[id.addr] == -1 {
        addrMod, slotMod := id.addr !in addresses, true;
        addresses := addresses[id.addr := |slots|];
        slots := slots + [{id.slot}];
        return;
      }
      var i := addresses[id.addr];
      if id.slot in slots[i] {
        assert slots[i] + {id.slot} == slots[i];
        assert slots[i := slots[i] + {id.slot}] == slots;
        return false, false;
      }
      slots := slots[i := slots[i] + {id.slot}];
      return false, true;
    }

    method AddSlotToAccessList(id: SlotId)
      requires Valid()
      modifies this
      ensures Valid()
      ensures Db() == Changed(keccak, old(Db()), Mutation.AddSlotToAccessList(id))
      ensures old(Safe()) ==>
        SlotInAccessList(id) && AddressInAccessList(id.addr) && OnlyWarmth(old(Current()), Current(), id)
      ensures saved == old(saved) && (old(Safe()) ==> Safe())
    {
      hide Restorable, CodeHashing;
      if Safe() {
        ChangeKeeps(keccak, Traced(Db(), saved), Mutation.AddSlotToAccessList(id));
        SafeTable(keccak, Traced(Db(), saved));
        WarmthOnly(Current(), id);
      }
      var addrMod, slotMod := WarmSlot(id);
      if addrMod {
        entries := entries + [AccessListAddAccountChange(id.addr)];
      }
      if slotMod {
        entries := entries + [AccessListAddSlotChange(id)];
      }
    }

    method Snapshot() returns (id: nat)
      modifies this
      ensures Db() == Snapshotted(old(Db()))
      ensures id == old(nextRevisionId)
      ensures saved == old(saved) + [old(Current())] && (old(Safe()) ==> Safe())
      ensures old(Valid()) ==> Valid()
    {
      hide Restorable, CodeHashing;
      if Safe() {
        SnapshotKeeps(keccak, Traced(Db(), saved));
      }
      saved := saved + [Current()];
      id := nextRevisionId;
      nextRevisionId := nextRevisionId + 1;
      revisions := revisions + [Revision(id, |entries|)];
    }

    /** The revert of one entry, by its kind. */
    method RevertEntry(e: Entry)
      modifies this`accounts, this`code, this`storage, this`transient, this`refund, this`logs, this`addresses,
        this`slots
      ensures Current() == Revert(old(Current()), e)
      ensures old(Indexed()) ==> Indexed()
    {
      match e
      case BalanceChange(a, prev) => accounts := accounts[a := GetAccount(a).(balance := prev)];
      case NonceChange(a, prev) => accounts := accounts[a := GetAccount(a).(nonce := prev)];
      case CodeChange(a, prevHash, prevCode) =>
        accounts := accounts[a := GetAccount(a).(codeHash := prevHash)];
        if prevHash != 0 && prevCode.Some? {
          code := code[prevHash := prevCode.value];
        }
      case StorageChange(id, word) => storage := storage[id := word];
      case CreateObjectChange(a) => accounts := accounts - {a};
      case RefundChange(prev) => refund := prev;
      case AddLogChange =>
        if |logs| > 0 {
          logs := logs[..|logs| - 1];
        }
      case AccessListAddAccountChange(a) => addresses := addresses - {a};
      case AccessListAddSlotChange(id) => CoolSlot(id);
      case TransientStorageChange(id, word) => transient := transient[id := word];
    }

    /** DeleteSlot of the access list. */
    method CoolSlot(id: SlotId)
      modifies this`addresses, this`slots
      ensures AccessList(addresses, slots) == DeleteSlot(old(AccessList(addresses, slots)), id)
      ensures old(Indexed()) ==> Indexed()
    {
      if id.addr !in addresses || !(0 <= addresses[id.addr] < |slots|) { return; }
      var i := addresses[id.addr];
      slots := slots[i := slots[i] - {id.slot}];
      if slots[i] == {} {
        addresses := addresses[id.addr := -1];
      }
    }

    /** Undoes the journal down to length n, last entry first. */
    method RevertJournal(n: nat)
      requires n <= |entries|
      modifies this`accounts, this`code, this`storage, this`transient, this`refund, this`logs, this`addresses,
        this`slots, this`entries
      ensures Current() == Undo(old(Current()), old(entries), n)
      ensures entries == old(entries)[..n]
      ensures old(Indexed()) ==> Indexed()
    {
      var i := |entries|;
      assert entries[..i] == entries;
      while i > n
        invariant n <= i <= |entries|
        invariant entries == old(entries)
        invariant old(Indexed()) ==> Indexed()
        invariant Undo(Current(), entries[..i], n) == Undo(old(Current()), old(entries), n)
      {
        i := i - 1;
        assert entries[..i + 1][..i] == entries[..i];
        RevertEntry(entries[i]);
      }
      entries := entries[..n];
    }

    /** The position of a valid revision, searched from the end; -1 when there is none. */
    method FindRevision(id: nat) returns (i: int)
      ensures -1 <= i < |revisions|
      ensures i >= 0 ==> revisions[i].id == id
      ensures i < 0 ==> forall r <- revisions :: r.id != id
    {
      i := |revisions| - 1;
      while i >= 0 && revisions[i].id != id
        invariant -1 <= i < |revisions|
        invariant forall j :: i < j < |revisions| ==> revisions[j].id != id
      {
        i := i - 1;
      }
    }

    /** Undoes the journal to the revision and drops it with the later ones: every read is back. */
    method RevertToRevision(i: nat)
      requires Valid() && i < |revisions|
      modifies this
      ensures Valid()
      ensures Db() == Reverted(old(Db()), i)
      ensures old(Safe()) ==> Safe() && |old(saved)| == |old(revisions)| && SameReads(Current(), old(saved)[i])
    {
      hide Restorable, CodeHashing, SameReads, Undo;
      if Safe() {
        RevertRestores(keccak, Traced(Db(), saved), i);
      }
      assert revisions[i] in revisions;
      RevertJournal(revisions[i].journalIndex);
      revisions := revisions[..i];
      if i <= |saved| {
        saved := saved[..i];
      }
    }

    /**
     Panics in the original when the snapshot is not valid any more. Otherwise, at the revision `at`, every read is
     what it was when the snapshot was taken.
     */
    method RevertToSnapshot(id: nat) returns (found: bool, ghost at: nat)
      requires Valid()
      modifies this
      ensures Valid()
      ensures found <==> exists r <- old(revisions) :: r.id == id
      ensures !found ==> Db() == old(Db()) && saved == old(saved)
      ensures found ==> at < |old(revisions)| && old(revisions)[at].id == id && Db() == Reverted(old(Db()), at)
      ensures found && old(Safe()) ==>
        Safe() && |old(saved)| == |old(revisions)| && SameReads(Current(), old(saved)[at])
    {
      hide Restorable, CodeHashing, SameReads, Undo;
      var i := FindRevision(id);
      at := 0;
      if i < 0 { return false, 0; }
      assert revisions[i] in revisions;
      RevertToRevision(i);
      return true, i;
    }
  }
}
