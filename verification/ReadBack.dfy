/**
 What messages see. The caches and the backend are forgotten here: a word is the one stored last, an account is what the
 updates so far made of it, and both come from the state before the block when nothing was written. Every run sees
 exactly that, and so does whoever reads the state afterwards.
 */
module ReadBack {
  import opened Accounts
  import opened Options
  import opened Execution

  /** An access, or the end of a message that was not rejected. */
  datatype Event = Did(act: Action) | Ended

  type History = seq<Event>

  /* ---------- reading a history ---------- */

  /** The word stored last, or else the cached one, or else the durable one, or else zero. */
  function WordAfter(db: Layer, start: Context, h: History, id: SlotId): Word {
    if h == [] then
      if id in start.cache.storage then start.cache.storage[id]
      else if id in db.storage then db.storage[id]
      else 0
    else
      match h[|h| - 1]
      case Did(SetState(j, word)) => if j == id then word else WordAfter(db, start, h[..|h| - 1], id)
      case _ => WordAfter(db, start, h[..|h| - 1], id)
  }

  /** Whether the access changes the account, or makes it: an update, or a store of a new word in one of its slots. */
  predicate Touches(db: Layer, start: Context, h: History, act: Action, a: Address) {
    match act
    case Update(b, _) => a == b
    case SetState(id, word) => a == id.addr && word != WordAfter(db, start, h, id)
    case _ => false
  }

  predicate TouchedAfter(db: Layer, start: Context, h: History, a: Address) {
    if h == [] then a in start.touched else
    match h[|h| - 1]
    case Did(act) => Touches(db, start, h[..|h| - 1], act, a) || TouchedAfter(db, start, h[..|h| - 1], a)
    case Ended => false
  }

  function Durable(db: Layer, a: Address): Option<Account> {
    if a in db.accounts then Some(db.accounts[a]) else None
  }

  function Fields(acc: Option<Account>): Account {
    if acc.Some? then acc.value else Account(0, 0, 0)
  }

  /**
   The account after all updates; an account touched in a message that ends with it empty is dropped from the cache.
   */
  function AccountAfter(db: Layer, start: Context, h: History, a: Address): Option<Account> {
    if h == [] then
      if a in start.cache.accounts then Some(start.cache.accounts[a]) else Durable(db, a)
    else
      var before := h[..|h| - 1];
      var acc := AccountAfter(db, start, before, a);
      match h[|h| - 1]
      case Did(act) =>
        if act.Update? && act.addr == a then Some(act.change(Fields(acc)))
        else if Touches(db, start, before, act, a) then Some(Fields(acc))
        else acc
      case Ended =>
        if TouchedAfter(db, start, before, a) && Fields(acc) == Account(0, 0, 0) then Durable(db, a) else acc
  }

  /* ---------- running by history ---------- */

  function Answer(db: Layer, start: Context, h: History, act: Action): Observation
    requires !IsFinal(act)
  {
    match act
    case Exist(a) => Presence(AccountAfter(db, start, h, a).Some?)
    case GetAccount(a) => Observation.Fields(Fields(AccountAfter(db, start, h, a)))
    case Empty(a) => Presence(Fields(AccountAfter(db, start, h, a)) == Account(0, 0, 0))
    case Update(a, _) => Observation.Fields(Fields(AccountAfter(db, start, h, a)))
    case GetState(id) => Value(WordAfter(db, start, h, id))
    case SetState(id, _) => Value(WordAfter(db, start, h, id))
  }

  /** A message run on a history alone: the longer history, what it saw, and its result. */
  datatype Replayed = Replayed(history: History, seen: seq<Observation>, result: Result)

  function Replay(db: Layer, start: Context, m: Message, h: History, seen: seq<Observation>): Replayed
    decreases m.gas - |seen|
  {
    if |seen| >= m.gas then Replayed(h + [Ended], seen, OutOfGas) else
    var act := m.next(seen);
    match act
    case Halt(output) => Replayed(h + [Ended], seen, Completed(output))
    case Reject(error) => Replayed(h, seen, Rejected(error))
    case _ => Replay(db, start, m, h + [Did(act)], seen + [Answer(db, start, h, act)])
  }

  function ReplayAll(db: Layer, start: Context, msgs: seq<Message>, h: History): (History, seq<Result>)
    decreases |msgs|
  {
    if msgs == [] then (h, []) else
    var r := Replay(db, start, msgs[0], h, []);
    if r.result.Rejected? then (r.history, [r.result]) else
    var (h', rest) := ReplayAll(db, start, msgs[1..], r.history);
    (h', [r.result] + rest)
  }

  /* ---------- the state remembers the history ---------- */

  ghost predicate RecallsAccount(db: Layer, start: Context, h: History, c: Context, a: Address) {
    && AccountAt(db, c.cache, a) == AccountAfter(db, start, h, a)
    && (a in c.touched <==> TouchedAfter(db, start, h, a))
  }

  ghost predicate RecallsWord(db: Layer, start: Context, h: History, c: Context, id: SlotId) {
    WordAt(db, c.cache, id) == WordAfter(db, start, h, id)
  }

  ghost predicate Recalls(db: Layer, start: Context, h: History, c: Context) {
    && (forall a: Address :: RecallsAccount(db, start, h, c, a))
    && (forall id: SlotId :: RecallsWord(db, start, h, c, id))
  }

  lemma Longer(h: History, e: Event)
    ensures |h + [e]| > 0 && (h + [e])[|h + [e]| - 1] == e && (h + [e])[..|h + [e]| - 1] == h
  {
  }

  lemma WordRecalled(db: Layer, start: Context, h: History, c: Context, act: Action, id: SlotId)
    requires Recalls(db, start, h, c) && !IsFinal(act)
    ensures RecallsWord(db, start, h + [Did(act)], Perform(db, c, act), id)
  {
    Longer(h, Did(act));
    assert RecallsWord(db, start, h, c, id);
  }

  lemma AccountRecalled(db: Layer, start: Context, h: History, c: Context, act: Action, a: Address)
    requires Recalls(db, start, h, c) && !IsFinal(act)
    ensures RecallsAccount(db, start, h + [Did(act)], Perform(db, c, act), a)
  {
    Longer(h, Did(act));
    assert RecallsAccount(db, start, h, c, a);
    if act.SetState? {
      assert RecallsWord(db, start, h, c, act.id);
    }
  }

  lemma StepRecalled(db: Layer, start: Context, h: History, c: Context, act: Action)
    requires Recalls(db, start, h, c) && !IsFinal(act)
    ensures Observed(db, c, act) == Answer(db, start, h, act)
    ensures Recalls(db, start, h + [Did(act)], Perform(db, c, act))
  {
    forall a: Address ensures RecallsAccount(db, start, h + [Did(act)], Perform(db, c, act), a) {
      AccountRecalled(db, start, h, c, act, a);
    }
    forall id: SlotId ensures RecallsWord(db, start, h + [Did(act)], Perform(db, c, act), id) {
      WordRecalled(db, start, h, c, act, id);
    }
    AnswerRecalled(db, start, h, c, act);
  }

  lemma AnswerRecalled(db: Layer, start: Context, h: History, c: Context, act: Action)
    requires Recalls(db, start, h, c) && !IsFinal(act)
    ensures Observed(db, c, act) == Answer(db, start, h, act)
  {
    match act
    case GetState(id) => assert RecallsWord(db, start, h, c, id);
    case SetState(id, _) => assert RecallsWord(db, start, h, c, id);
    case Exist(a) => assert RecallsAccount(db, start, h, c, a);
    case GetAccount(a) => assert RecallsAccount(db, start, h, c, a);
    case Empty(a) => assert RecallsAccount(db, start, h, c, a);
    case Update(a, _) => assert RecallsAccount(db, start, h, c, a);
  }

  lemma EndRecalled(db: Layer, start: Context, h: History, c: Context)
    requires Recalls(db, start, h, c)
    ensures Recalls(db, start, h + [Ended], Finalise(db, c))
  {
    Longer(h, Ended);
    forall a: Address ensures RecallsAccount(db, start, h + [Ended], Finalise(db, c), a) {
      assert RecallsAccount(db, start, h, c, a);
    }
    forall id: SlotId ensures RecallsWord(db, start, h + [Ended], Finalise(db, c), id) {
      assert RecallsWord(db, start, h, c, id);
    }
  }

  /** A run of a message sees, returns and leaves what its history says. */
  lemma {:induction false} RunIsReplay(db: Layer, start: Context, h: History, c: Context, m: Message,
                                       seen: seq<Observation>)
    requires Recalls(db, start, h, c)
    ensures Run(db, c, m, seen).1 == Replay(db, start, m, h, seen).result
    ensures Recalls(db, start, Replay(db, start, m, h, seen).history, Run(db, c, m, seen).0)
    decreases m.gas - |seen|
  {
    EndRecalled(db, start, h, c);
    hide Recalls, Perform, Observed, Answer, Finalise;
    if |seen| < m.gas && !IsFinal(m.next(seen)) {
      var act := m.next(seen);
      StepRecalled(db, start, h, c, act);
      RunIsReplay(db, start, h + [Did(act)], Perform(db, c, act), m, seen + [Observed(db, c, act)]);
    }
  }

  /** So does a run of a whole block. */
  lemma {:induction false} BlockIsReplay(db: Layer, start: Context, h: History, c: Context, msgs: seq<Message>)
    requires Recalls(db, start, h, c)
    ensures ApplyAll(db, c, msgs).1 == ReplayAll(db, start, msgs, h).1
    ensures Recalls(db, start, ReplayAll(db, start, msgs, h).0, ApplyAll(db, c, msgs).0)
    decreases |msgs|
  {
    if msgs != [] {
      hide Recalls, Run, Replay;
      RunIsReplay(db, start, h, c, msgs[0], []);
      if !Apply(db, c, msgs[0]).1.Rejected? {
        BlockIsReplay(db, start, Replay(db, start, msgs[0], h, []).history, Apply(db, c, msgs[0]).0, msgs[1..]);
      }
    }
  }

  lemma StartRecalls(db: Layer, c: Context)
    ensures Recalls(db, c, [], c)
  {
  }

  /* ---------- what one message sees, access by access ---------- */

  /** The message's access number `j`. */
  function Access(m: Message, seen: seq<Observation>, j: nat): Action
    requires j <= |seen|
  {
    m.next(seen[..j])
  }

  ghost predicate AnsweredAt(db: Layer, c: Context, m: Message, r: Replayed, j: nat)
    requires j < |r.seen| <= |r.history|
  {
    var act := Access(m, r.seen, j);
    !IsFinal(act) && r.history[j] == Did(act) && r.seen[j] == Answer(db, c, r.history[..j], act)
  }

  /** The message took its own accesses one by one, got those answers, and then ended as it says. */
  ghost predicate Traced(db: Layer, c: Context, m: Message, r: Replayed, from: nat) {
    && |r.seen| <= |r.history|
    && (forall j | from <= j < |r.seen| :: AnsweredAt(db, c, m, r, j))
    && (if |r.seen| >= m.gas then r.result == OutOfGas else
        match m.next(r.seen)
        case Halt(output) => r.result == Completed(output)
        case Reject(error) => r.result == Rejected(error)
        case _ => false)
  }

  lemma {:induction false} ReplayIsTraced(db: Layer, c: Context, m: Message, h: History, seen: seq<Observation>)
    requires |h| == |seen|
    ensures
      var r := Replay(db, c, m, h, seen);
      Traced(db, c, m, r, |seen|) && seen <= r.seen && h <= r.history
    decreases m.gas - |seen|
  {
    if |seen| < m.gas && !IsFinal(m.next(seen)) {
      var act := m.next(seen);
      var r := Replay(db, c, m, h, seen);
      hide Answer;
      ReplayIsTraced(db, c, m, h + [Did(act)], seen + [Answer(db, c, h, act)]);
      assert r.seen[..|seen|] == seen && r.history[..|seen|] == h;
      assert AnsweredAt(db, c, m, r, |seen|);
    }
  }

  /** What the message sees in a run from the state, in order. */
  function Sees(db: Layer, c: Context, m: Message): seq<Observation> {
    Replay(db, c, m, [], []).seen
  }

  /** A run ends as its message says after what it sees. */
  lemma RunFollowsSights(db: Layer, c: Context, m: Message)
    ensures
      var seen := Sees(db, c, m);
      Apply(db, c, m).1 ==
      if |seen| >= m.gas then OutOfGas else
      match m.next(seen)
      case Halt(output) => Completed(output)
      case Reject(error) => Rejected(error)
      case _ => OutOfGas
  {
    StartRecalls(db, c);
    RunIsReplay(db, c, [], c, m, []);
    ReplayIsTraced(db, c, m, [], []);
  }

  predicate StoresAt(m: Message, seen: seq<Observation>, i: nat, id: SlotId)
    requires i <= |seen|
  {
    var act := Access(m, seen, i);
    act.SetState? && act.id == id
  }

  predicate UpdatesAt(m: Message, seen: seq<Observation>, i: nat, a: Address)
    requires i <= |seen|
  {
    var act := Access(m, seen, i);
    act.Update? && act.addr == a
  }

  /** Without a store in between, a slot keeps its word. */
  lemma {:induction false} WordKept(db: Layer, c: Context, m: Message, i: nat, j: nat, id: SlotId)
    requires i <= j <= |Sees(db, c, m)| && forall k | i <= k < j :: !StoresAt(m, Sees(db, c, m), k, id)
    ensures |Sees(db, c, m)| <= |Replay(db, c, m, [], []).history|
    ensures
      var h := Replay(db, c, m, [], []).history;
      WordAfter(db, c, h[..j], id) == WordAfter(db, c, h[..i], id)
    decreases j
  {
    ReplayIsTraced(db, c, m, [], []);
    if i < j {
      var r := Replay(db, c, m, [], []);
      hide Replay, Answer;
      WordKept(db, c, m, i, j - 1, id);
      assert AnsweredAt(db, c, m, r, j - 1) && !StoresAt(m, r.seen, j - 1, id);
      assert r.history[..j][..j - 1] == r.history[..j - 1];
    }
  }

  /** A load sees the word stored last in this message, whatever came in between. */
  lemma LoadSeesLastStore(db: Layer, c: Context, m: Message, i: nat, j: nat, id: SlotId, word: Word)
    requires i < j < |Sees(db, c, m)|
    requires Access(m, Sees(db, c, m), i) == SetState(id, word) && Access(m, Sees(db, c, m), j) == GetState(id)
    requires forall k | i < k < j :: !StoresAt(m, Sees(db, c, m), k, id)
    ensures Sees(db, c, m)[j] == Value(word)
  {
    ReplayIsTraced(db, c, m, [], []);
    WordKept(db, c, m, i + 1, j, id);
    var r := Replay(db, c, m, [], []);
    hide Replay;
    assert AnsweredAt(db, c, m, r, i) && AnsweredAt(db, c, m, r, j);
    assert r.history[..i + 1][..i] == r.history[..i];
  }

  /** Before any store it sees the cached word, or else the durable one, or else zero. */
  lemma LoadSeesOldWord(db: Layer, c: Context, m: Message, j: nat, id: SlotId)
    requires j < |Sees(db, c, m)| && Access(m, Sees(db, c, m), j) == GetState(id)
    requires forall k | 0 <= k < j :: !StoresAt(m, Sees(db, c, m), k, id)
    ensures Sees(db, c, m)[j] == Value(
      if id in c.cache.storage then c.cache.storage[id] else if id in db.storage then db.storage[id] else 0)
  {
    ReplayIsTraced(db, c, m, [], []);
    WordKept(db, c, m, 0, j, id);
    var r := Replay(db, c, m, [], []);
    hide Replay;
    assert AnsweredAt(db, c, m, r, j);
    assert r.history[..0] == [];
  }

  /** Without an update in between, an account keeps its fields, and it does not vanish within a message. */
  lemma {:induction false} FieldsKept(db: Layer, c: Context, m: Message, i: nat, j: nat, a: Address)
    requires i <= j <= |Sees(db, c, m)| && forall k | i <= k < j :: !UpdatesAt(m, Sees(db, c, m), k, a)
    ensures |Sees(db, c, m)| <= |Replay(db, c, m, [], []).history|
    ensures
      var h := Replay(db, c, m, [], []).history;
      && Fields(AccountAfter(db, c, h[..j], a)) == Fields(AccountAfter(db, c, h[..i], a))
      && (AccountAfter(db, c, h[..i], a).Some? ==> AccountAfter(db, c, h[..j], a).Some?)
    decreases j
  {
    ReplayIsTraced(db, c, m, [], []);
    if i < j {
      var r := Replay(db, c, m, [], []);
      hide Replay, Answer;
      FieldsKept(db, c, m, i, j - 1, a);
      assert AnsweredAt(db, c, m, r, j - 1) && !UpdatesAt(m, r.seen, j - 1, a);
      assert r.history[..j][..j - 1] == r.history[..j - 1];
    }
  }

  /** After an update the account is there, with the fields the update made of what it saw. */
  lemma ReadSeesLastUpdate(db: Layer, c: Context, m: Message, i: nat, j: nat, a: Address)
    requires i < j < |Sees(db, c, m)| && UpdatesAt(m, Sees(db, c, m), i, a)
    requires forall k | i < k < j :: !UpdatesAt(m, Sees(db, c, m), k, a)
    ensures Sees(db, c, m)[i].Fields?
    ensures
      var seen := Sees(db, c, m);
      var acc := Access(m, seen, i).change(seen[i].account);
      match Access(m, seen, j)
      case GetAccount(b) => a == b ==> seen[j] == Observation.Fields(acc)
      case Update(b, _) => a == b ==> seen[j] == Observation.Fields(acc)
      case Exist(b) => a == b ==> seen[j] == Presence(true)
      case Empty(b) => a == b ==> seen[j] == Presence(acc == Account(0, 0, 0))
      case _ => true
  {
    ReplayIsTraced(db, c, m, [], []);
    FieldsKept(db, c, m, i + 1, j, a);
    var r := Replay(db, c, m, [], []);
    hide Replay;
    assert AnsweredAt(db, c, m, r, i) && AnsweredAt(db, c, m, r, j);
    assert r.history[..i + 1][..i] == r.history[..i];
  }

  /** Before any update it has the cached fields, or else the durable ones, or else none. */
  lemma ReadSeesOldFields(db: Layer, c: Context, m: Message, j: nat, a: Address)
    requires j < |Sees(db, c, m)| && Access(m, Sees(db, c, m), j) == GetAccount(a)
    requires forall k | 0 <= k < j :: !UpdatesAt(m, Sees(db, c, m), k, a)
    ensures Sees(db, c, m)[j] == Observation.Fields(
      if a in c.cache.accounts then c.cache.accounts[a]
      else if a in db.accounts then db.accounts[a]
      else Account(0, 0, 0))
  {
    ReplayIsTraced(db, c, m, [], []);
    FieldsKept(db, c, m, 0, j, a);
    var r := Replay(db, c, m, [], []);
    hide Replay;
    assert AnsweredAt(db, c, m, r, j);
    assert r.history[..0] == [];
  }
}
