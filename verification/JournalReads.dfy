/**
 What the journaled state is for: it reads like a plain record of values that is copied at every snapshot and put back
 at every revert.
 */
module JournalReads {
  import opened Accounts
  import opened Arithmetic
  import opened Options
  import opened Journal

  /** Everything that can be read. */
  datatype View = View(
    account: Address -> Account,
    code: Address -> Option<Code>,
    word: SlotId -> Word,
    transient: SlotId -> Word,
    warm: Address -> bool,
    warmSlot: SlotId -> bool,
    refund: nat,
    logs: seq<Log>)

  ghost predicate ShowsAccount(w: World, v: View, a: Address) {
    AccountAt(w, a) == v.account(a) && CodeOf(w, a) == v.code(a) && IsWarm(w.warm, a) == v.warm(a)
  }

  ghost predicate ShowsSlot(w: World, v: View, id: SlotId) {
    && WordIn(w.storage, id) == v.word(id)
    && WordIn(w.transient, id) == v.transient(id)
    && IsWarmSlot(w.warm, id) == v.warmSlot(id)
  }

  ghost predicate Shows(w: World, v: View) {
    && (forall a: Address :: ShowsAccount(w, v, a))
    && (forall id: SlotId :: ShowsSlot(w, v, id))
    && w.refund == v.refund && w.logs == v.logs
  }

  /* ---------- one mutation ---------- */

  function With<K(==), V>(f: K -> V, k: K, x: V): K -> V {
    (j: K) => if j == k then x else f(j)
  }

  function WithFields(v: View, a: Address, acc: Account): View {
    v.(account := With<Address, Account>(v.account, a, acc))
  }

  /** What is read after a mutation, from what was read before. */
  function After(keccak: Code -> Hash, v: View, m: Mutation): View {
    match m
    case AddBalance(a, amount) =>
      WithFields(v, a, v.account(a).(balance := (v.account(a).balance + amount) % TwoTo256))
    case SubBalance(a, amount) =>
      WithFields(v, a, v.account(a).(balance := (v.account(a).balance - amount) % TwoTo256))
    case SetBalance(a, balance) => WithFields(v, a, v.account(a).(balance := balance))
    case SetNonce(a, nonce) => WithFields(v, a, v.account(a).(nonce := nonce))
    case SetCode(a, code) =>
      WithFields(v, a, v.account(a).(codeHash := keccak(code)))
        .(code := With<Address, Option<Code>>(v.code, a, if code == 0 then None else Some(code)))
    case SetState(id, word) => v.(word := With<SlotId, Word>(v.word, id, word))
    case CreateAccount(a) =>
      WithFields(v, a, Account(0, v.account(a).balance, 0)).(code := With<Address, Option<Code>>(v.code, a, None))
    case AddRefund(gas) => v.(refund := (v.refund + gas) % TwoTo64)
    case SubRefund(gas) => v.(refund := if gas <= v.refund then v.refund - gas else 0)
    case AddLog(log) => v.(logs := v.logs + [log])
    case SetTransientState(id, word) => v.(transient := With<SlotId, Word>(v.transient, id, word))
    case AddAddressToAccessList(a) => v.(warm := With<Address, bool>(v.warm, a, true))
    case AddSlotToAccessList(id) =>
      v.(warm := With<Address, bool>(v.warm, id.addr, true), warmSlot := With<SlotId, bool>(v.warmSlot, id, true))
  }

  lemma CodeShown(keccak: Code -> Hash, w: World, v: View, a: Address, code: Code, b: Address)
    requires CodeHashing(keccak) && CodeTable(keccak, w) && ShowsAccount(w, v, a) && ShowsAccount(w, v, b)
    ensures ShowsAccount(WithCode(keccak, w, a, code), After(keccak, v, SetCode(a, code)), b)
  {
    if code != 0 {
      CodeKept(keccak, w, code, b);
    }
  }

  lemma FieldsShown(keccak: Code -> Hash, w: World, v: View, m: Mutation, b: Address)
    requires m.AddBalance? || m.SubBalance? || m.SetBalance? || m.SetNonce? || m.CreateAccount?
    requires ShowsAccount(w, v, m.addr) && ShowsAccount(w, v, b)
    ensures ShowsAccount(Mutate(keccak, w, m).0, After(keccak, v, m), b)
  {
  }

  lemma OthersShown(keccak: Code -> Hash, w: World, v: View, m: Mutation, b: Address)
    requires m.SetState? || m.AddRefund? || m.SubRefund? || m.AddLog? || m.SetTransientState?
      || m.AddAddressToAccessList?
    requires ShowsAccount(w, v, b)
    ensures ShowsAccount(Mutate(keccak, w, m).0, After(keccak, v, m), b)
  {
  }

  lemma WarmthShown(keccak: Code -> Hash, w: World, v: View, id: SlotId, b: Address)
    requires Good(keccak, w) && ShowsAccount(w, v, b)
    ensures ShowsAccount(Mutate(keccak, w, AddSlotToAccessList(id)).0, After(keccak, v, AddSlotToAccessList(id)), b)
  {
    AddSlotReads(w.warm, id);
  }

  lemma AccountShown(keccak: Code -> Hash, w: World, v: View, m: Mutation, b: Address)
    requires CodeHashing(keccak) && Good(keccak, w) && Shows(w, v)
    ensures ShowsAccount(Mutate(keccak, w, m).0, After(keccak, v, m), b)
  {
    assert ShowsAccount(w, v, b);
    if m.AddBalance? || m.SubBalance? || m.SetBalance? || m.SetNonce? || m.CreateAccount? {
      assert ShowsAccount(w, v, m.addr);
      hide Mutate, After, ShowsAccount;
      FieldsShown(keccak, w, v, m, b);
    } else if m.SetCode? {
      assert ShowsAccount(w, v, m.addr);
      CodeShown(keccak, w, v, m.addr, m.code, b);
      hide After, ShowsAccount, WithCode;
    } else if m.AddSlotToAccessList? {
      hide Mutate, After, ShowsAccount;
      WarmthShown(keccak, w, v, m.id, b);
    } else {
      hide Mutate, After, ShowsAccount;
      OthersShown(keccak, w, v, m, b);
    }
  }

  /** The maps of slots a mutation does not name stay as they are. */
  lemma SlotsKept(keccak: Code -> Hash, w: World, m: Mutation)
    ensures !m.SetState? ==> Mutate(keccak, w, m).0.storage == w.storage
    ensures !m.SetTransientState? ==> Mutate(keccak, w, m).0.transient == w.transient
    ensures !m.AddAddressToAccessList? && !m.AddSlotToAccessList? ==> Mutate(keccak, w, m).0.warm == w.warm
  {
  }

  lemma WarmSlotsShown(keccak: Code -> Hash, w: World, m: Mutation, j: SlotId)
    requires Good(keccak, w)
    ensures IsWarmSlot(Mutate(keccak, w, m).0.warm, j) == (IsWarmSlot(w.warm, j) || m == AddSlotToAccessList(j))
  {
    SlotsKept(keccak, w, m);
    if m.AddSlotToAccessList? {
      AddSlotReads(w.warm, m.id);
    }
  }

  lemma SlotShown(keccak: Code -> Hash, w: World, v: View, m: Mutation, j: SlotId)
    requires Good(keccak, w) && ShowsSlot(w, v, j)
    ensures ShowsSlot(Mutate(keccak, w, m).0, After(keccak, v, m), j)
  {
    WarmSlotsShown(keccak, w, m, j);
    SlotsKept(keccak, w, m);
    hide IsWarmSlot, Good;
    if m.SetState? || m.SetTransientState? {
    } else {
      hide Mutate;
    }
  }

  /** A mutation changes what it names, to what it says, and nothing else that can be read. */
  lemma MutationShown(keccak: Code -> Hash, w: World, v: View, m: Mutation)
    requires CodeHashing(keccak) && Good(keccak, w) && Shows(w, v)
    ensures Shows(Mutate(keccak, w, m).0, After(keccak, v, m))
  {
    forall b: Address ensures ShowsAccount(Mutate(keccak, w, m).0, After(keccak, v, m), b) {
      AccountShown(keccak, w, v, m, b);
    }
    forall j: SlotId ensures ShowsSlot(Mutate(keccak, w, m).0, After(keccak, v, m), j) {
      assert ShowsSlot(w, v, j);
      SlotShown(keccak, w, v, m, j);
    }
  }

  /* ---------- whole runs ---------- */

  /** The plain record, with a copy for each valid snapshot. */
  datatype Copying = Copying(now: View, copies: seq<View>)

  function Next(keccak: Code -> Hash, r: Copying, act: Action): Copying
    requires act.RevertTo? ==> act.position < |r.copies|
  {
    match act
    case Change(m) => r.(now := After(keccak, r.now, m))
    case TakeSnapshot => r.(copies := r.copies + [r.now])
    case RevertTo(i) => Copying(r.copies[i], r.copies[..i])
  }

  ghost predicate Refines(t: Traced, r: Copying) {
    && Shows(t.db.world, r.now) && |t.saved| == |r.copies|
    && forall i | 0 <= i < |r.copies| :: Shows(t.saved[i], r.copies[i])
  }

  lemma SameReadsShow(u: World, w: World, v: View)
    requires SameReads(u, w) && Shows(w, v)
    ensures Shows(u, v)
  {
    forall a: Address ensures ShowsAccount(u, v, a) {
      assert SameAccount(u, w, a) && ShowsAccount(w, v, a);
    }
    forall id: SlotId ensures ShowsSlot(u, v, id) {
      assert SameSlot(u, w, id) && ShowsSlot(w, v, id);
    }
  }

  lemma StepRefines(keccak: Code -> Hash, t: Traced, r: Copying, act: Action)
    requires CodeHashing(keccak) && Restorable(keccak, t) && Possible(t, act) && Refines(t, r)
    ensures Refines(Step(keccak, t, act), Next(keccak, r, act))
  {
    hide Shows, SameReads, Mutate, After;
    match act
    case Change(m) => MutationShown(keccak, t.db.world, r.now, m);
    case TakeSnapshot =>
    case RevertTo(i) =>
      RevertRestores(keccak, t, i);
      SameReadsShow(Reverted(t.db, i).world, t.saved[i], r.copies[i]);
  }

  function CopyAll(keccak: Code -> Hash, r: Copying, acts: seq<Action>): Option<Copying>
    decreases |acts|
  {
    if acts == [] then Some(r)
    else if acts[0].RevertTo? && acts[0].position >= |r.copies| then None
    else CopyAll(keccak, Next(keccak, r, acts[0]), acts[1..])
  }

  /** Every run of mutations, snapshots and reverts reads like the same run on a record copied at each snapshot. */
  lemma {:induction false} RunsReadLikeCopies(keccak: Code -> Hash, t: Traced, r: Copying, acts: seq<Action>)
    requires CodeHashing(keccak) && Restorable(keccak, t) && Refines(t, r)
    ensures RunAll(keccak, t, acts).Some? ==>
      && CopyAll(keccak, r, acts).Some?
      && Shows(RunAll(keccak, t, acts).value.db.world, CopyAll(keccak, r, acts).value.now)
    decreases |acts|
  {
    if acts != [] && Possible(t, acts[0]) {
      hide Shows, Restorable;
      StepRefines(keccak, t, r, acts[0]);
      StepRestorable(keccak, t, acts[0]);
      RunsReadLikeCopies(keccak, Step(keccak, t, acts[0]), Next(keccak, r, acts[0]), acts[1..]);
    }
  }
}
