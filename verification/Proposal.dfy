/**
 Building a block: a transaction is checked before it is run, candidates are filtered by running them on a copy of the
 state, and a block is run all or nothing.
 */
module Proposal {
  import opened Accounts
  import opened Arithmetic
  import opened Options
  import opened Execution
  import BlockBuild
  import Mempool

  datatype Pricing = Legacy(gasPrice: nat) | Dynamic(feeCap: nat, tipCap: nat)

  /**
   `decodes` and `sender` are the outcomes of decoding and of recovering the signer, and chain 0 is none. Once its gas
   is bought the transaction is foreign code: `body` picks accesses from what it has observed, at most `steps` of them,
   and `gasUsed` reads the gas off its output.
   */
  datatype EvmTx = EvmTx(
    hash: nat,
    decodes: bool,
    sender: Option<Address>,
    chainId: nat,
    nonce: nat,
    pricing: Pricing,
    gasLimit: nat,
    value: nat,
    steps: nat,
    body: seq<Observation> -> Action,
    gasUsed: nat -> nat)

  datatype Failure =
    | Undecodable | BadSignature | WrongChain | BadNonce | PriceTooLow
    | NoGas | CostOverflow | CannotBuyGas | CannotPayValue

  function Code(f: Failure): nat {
    match f
    case Undecodable => 0
    case BadSignature => 1
    case WrongChain => 2
    case BadNonce => 3
    case PriceTooLow => 4
    case NoGas => 5
    case CostOverflow => 6
    case CannotBuyGas => 7
    case CannotPayValue => 8
  }

  datatype Env = Env(chainId: nat, baseFee: nat)

  /** The head a block builds on: the block's environment, the durable state and the live caches. */
  datatype Head = Head(env: Env, db: Layer, live: Context)

  /* ---------- one transaction ---------- */

  function EffectivePrice(p: Pricing, baseFee: nat): Option<nat> {
    match p
    case Legacy(gasPrice) => Some(gasPrice)
    case Dynamic(feeCap, tipCap) =>
      if feeCap < baseFee then None
      else Some(if baseFee + tipCap > feeCap then feeCap else baseFee + tipCap)
  }

  function Cost(env: Env, tx: EvmTx): nat {
    match EffectivePrice(tx.pricing, env.baseFee)
    case Some(price) => tx.gasLimit * price
    case None => 0
  }

  /** The checks that look at the transaction only. */
  function CheckForm(env: Env, tx: EvmTx): Option<Failure> {
    if !tx.decodes then Some(Undecodable)
    else if tx.sender.None? then Some(BadSignature)
    else if tx.chainId != 0 && tx.chainId != env.chainId then Some(WrongChain)
    else None
  }

  function CheckNonce(env: Env, tx: EvmTx, from: Account): Option<Failure> {
    if from.nonce != tx.nonce then Some(BadNonce)
    else if EffectivePrice(tx.pricing, env.baseFee).None? then Some(PriceTooLow)
    else if tx.gasLimit == 0 then Some(NoGas)
    else if Cost(env, tx) >= TwoTo256 then Some(CostOverflow)
    else None
  }

  function CheckGas(env: Env, tx: EvmTx, from: Account): Option<Failure> {
    if from.balance < Cost(env, tx) then Some(CannotBuyGas) else None
  }

  function CheckValue(env: Env, tx: EvmTx, from: Account): Option<Failure> {
    if from.balance < (Cost(env, tx) + tx.value) % TwoTo256 then Some(CannotPayValue) else None
  }

  /** What is wrong with a transaction, given its sender's account. */
  function Check(env: Env, tx: EvmTx, from: Account): Option<Failure> {
    if CheckForm(env, tx).Some? then CheckForm(env, tx)
    else if CheckNonce(env, tx, from).Some? then CheckNonce(env, tx, from)
    else if CheckGas(env, tx, from).Some? then CheckGas(env, tx, from)
    else CheckValue(env, tx, from)
  }

  /** The price paid lies between the base fee and the cap, at the base fee and the tip unless the cap is lower. */
  lemma PriceIsEffective(p: Pricing, baseFee: nat)
    ensures p.Legacy? ==> EffectivePrice(p, baseFee) == Some(p.gasPrice)
    ensures p.Dynamic? ==> (EffectivePrice(p, baseFee).None? <==> p.feeCap < baseFee)
    ensures p.Dynamic? && baseFee <= p.feeCap ==>
      var price := EffectivePrice(p, baseFee).value;
      && baseFee <= price <= p.feeCap && price <= baseFee + p.tipCap
      && (price == p.feeCap || price == baseFee + p.tipCap)
  {
  }

  /** What a transaction has to be to pass, said from itself and its sender's account. */
  lemma PassesIff(env: Env, tx: EvmTx, from: Account)
    ensures Check(env, tx, from).None? <==>
      && tx.decodes && tx.sender.Some? && (tx.chainId == 0 || tx.chainId == env.chainId)
      && tx.nonce == from.nonce
      && tx.gasLimit > 0 && EffectivePrice(tx.pricing, env.baseFee).Some?
      && var cost := tx.gasLimit * EffectivePrice(tx.pricing, env.baseFee).value;
         cost <= from.balance && cost < TwoTo256 && (cost + tx.value) % TwoTo256 <= from.balance
  {
  }

  function Buy(cost: nat): Account -> Account {
    (x: Account) => x.(balance := (x.balance - cost) % TwoTo256)
  }

  function Shown(o: Observation): Account {
    if o.Fields? then o.account else NewAccount
  }

  /** Each check follows a fresh read of the sender's account. */
  function NextCheck(env: Env, tx: EvmTx, seen: seq<Observation>): Option<Failure> {
    match |seen|
    case 0 => CheckForm(env, tx)
    case 1 => CheckNonce(env, tx, Shown(seen[0]))
    case 2 => CheckGas(env, tx, Shown(seen[1]))
    case 3 => CheckValue(env, tx, Shown(seen[2]))
    case _ => None
  }

  /** After three reads and checks the gas is bought, and from then on there is no error to return. */
  function NextAction(env: Env, tx: EvmTx, seen: seq<Observation>): Action {
    match NextCheck(env, tx, seen)
    case Some(f) => Reject(Code(f))
    case None =>
      if |seen| >= 4 then
        var act := tx.body(seen[4..]);
        if act.Reject? then Halt(act.error) else act
      else if tx.sender.None? then Reject(Code(BadSignature))
      else if |seen| == 3 then Update(tx.sender.value, Buy(Cost(env, tx)))
      else GetAccount(tx.sender.value)
  }

  function AsMessage(env: Env, tx: EvmTx): Message {
    Message(4 + tx.steps, seen => NextAction(env, tx, seen))
  }

  function Execute(h: Head, c: Context, tx: EvmTx): (Context, Result) {
    Apply(h.db, c, AsMessage(h.env, tx))
  }

  function SenderOf(h: Head, c: Context, tx: EvmTx): Account {
    if tx.sender.Some? then FieldsAt(h.db, c.cache, tx.sender.value) else NewAccount
  }

  lemma {:induction false} BodyReturnsNoError(h: Head, c: Context, tx: EvmTx, seen: seq<Observation>)
    requires |seen| >= 4
    ensures !Run(h.db, c, AsMessage(h.env, tx), seen).1.Rejected?
    decreases 4 + tx.steps - |seen|
  {
    var m := AsMessage(h.env, tx);
    if |seen| < m.gas && !IsFinal(m.next(seen)) {
      BodyReturnsNoError(h, Perform(h.db, c, m.next(seen)), tx, seen + [Observed(h.db, c, m.next(seen))]);
    }
  }

  /** One read of the sender's account and the check that follows it. */
  lemma ReadStep(h: Head, c: Context, tx: EvmTx, seen: seq<Observation>)
    requires |seen| < 3 && tx.sender.Some?
    ensures
      var r := Run(h.db, c, AsMessage(h.env, tx), seen);
      match NextCheck(h.env, tx, seen)
      case Some(f) => r == (c, Rejected(Code(f)))
      case None =>
        r == Run(h.db, RecordRead(c, AccountKey(tx.sender.value)), AsMessage(h.env, tx),
                 seen + [Fields(SenderOf(h, c, tx))])
  {
  }

  lemma BuyStep(h: Head, c: Context, tx: EvmTx, seen: seq<Observation>)
    requires |seen| == 3 && tx.sender.Some?
    ensures
      var r := Run(h.db, c, AsMessage(h.env, tx), seen);
      match NextCheck(h.env, tx, seen)
      case Some(f) => r == (c, Rejected(Code(f)))
      case None => !r.1.Rejected?
  {
    if NextCheck(h.env, tx, seen).None? {
      var act := NextAction(h.env, tx, seen);
      BodyReturnsNoError(h, Perform(h.db, c, act), tx, seen + [Observed(h.db, c, act)]);
    }
  }

  /** The state once the gas is bought: the cost has left the sender, and no other account and no slot has changed. */
  ghost predicate Bought(h: Head, c: Context, tx: EvmTx, c': Context) {
    && tx.sender.Some? && Cost(h.env, tx) <= SenderOf(h, c, tx).balance
    && SenderOf(h, c', tx) == SenderOf(h, c, tx).(balance := SenderOf(h, c, tx).balance - Cost(h.env, tx))
    && (forall a: Address :: a != tx.sender.value ==> AccountAt(h.db, c'.cache, a) == AccountAt(h.db, c.cache, a))
    && (forall id: SlotId :: WordAt(h.db, c'.cache, id) == WordAt(h.db, c.cache, id))
  }

  lemma BuyTakesCost(h: Head, c: Context, tx: EvmTx)
    requires tx.sender.Some? && Cost(h.env, tx) <= SenderOf(h, c, tx).balance < TwoTo256
    ensures Bought(h, c, tx, Perform(h.db, c, Update(tx.sender.value, Buy(Cost(h.env, tx)))))
  {
    var left := SenderOf(h, c, tx).balance - Cost(h.env, tx);
    DivModUnique(left, TwoTo256, 0, left);
  }

  ghost predicate RunsOnBoughtGas(h: Head, c: Context, tx: EvmTx) {
    exists c', seen ::
      Bought(h, c, tx, c') && |seen| == 4 && Execute(h, c, tx) == Run(h.db, c', AsMessage(h.env, tx), seen)
  }

  /** A transaction that passes its checks runs its body from the state in which its gas is bought. */
  lemma GasIsBought(h: Head, c: Context, tx: EvmTx)
    requires Check(h.env, tx, SenderOf(h, c, tx)).None? && SenderOf(h, c, tx).balance < TwoTo256
    ensures RunsOnBoughtGas(h, c, tx)
  {
    var k, o := AccountKey(tx.sender.value), Fields(SenderOf(h, c, tx));
    var c1 := RecordRead(c, k);
    var c2 := RecordRead(c1, k);
    var c3 := RecordRead(c2, k);
    assert [] + [o] == [o] && [o] + [o] == [o, o] && [o, o] + [o] == [o, o, o];
    BuyTakesCost(h, c3, tx);
    hide Run, AsMessage, NextAction;
    ReadStep(h, c, tx, []);
    ReadStep(h, c1, tx, [o]);
    ReadStep(h, c2, tx, [o, o]);
    PurchaseStep(h, c3, tx, [o, o, o]);
    assert Bought(h, c, tx, Perform(h.db, c3, Update(tx.sender.value, Buy(Cost(h.env, tx)))));
  }

  lemma PurchaseStep(h: Head, c: Context, tx: EvmTx, seen: seq<Observation>)
    requires |seen| == 3 && tx.sender.Some? && NextCheck(h.env, tx, seen).None?
    ensures
      var act := Update(tx.sender.value, Buy(Cost(h.env, tx)));
      Run(h.db, c, AsMessage(h.env, tx), seen) ==
      Run(h.db, Perform(h.db, c, act), AsMessage(h.env, tx), seen + [Observed(h.db, c, act)])
  {
  }

  /**
   A transaction fails exactly when its check does, for that reason, and then nothing was written: all it can leave is a
   note of having read its sender's account.
   */
  lemma FailsClean(h: Head, c: Context, tx: EvmTx)
    ensures
      var (c', r) := Execute(h, c, tx);
      match Check(h.env, tx, SenderOf(h, c, tx))
      case Some(f) => r == Rejected(Code(f)) && c' == c.(readSet := c'.readSet) && (!c.tracking ==> c' == c)
      case None => !r.Rejected?
  {
    if CheckForm(h.env, tx).None? {
      var k, o := AccountKey(tx.sender.value), Fields(SenderOf(h, c, tx));
      var c1 := RecordRead(c, k);
      var c2 := RecordRead(c1, k);
      assert [] + [o] == [o] && [o] + [o] == [o, o] && [o, o] + [o] == [o, o, o];
      hide Run, AsMessage, NextAction;
      ReadStep(h, c, tx, []);
      ReadStep(h, c1, tx, [o]);
      ReadStep(h, c2, tx, [o, o]);
      BuyStep(h, RecordRead(c2, k), tx, [o, o, o]);
    }
  }

  /* ---------- a block ---------- */

  /** Running out of gas uses all of it. */
  function GasOf(tx: EvmTx, r: Result): nat {
    if r.Completed? && tx.gasUsed(r.output) <= tx.gasLimit then tx.gasUsed(r.output) else tx.gasLimit
  }

  /** Cumulative gas is a 64-bit word. */
  function AddGas(total: nat, gas: nat): nat {
    (total + gas) % TwoTo64
  }

  /** A block ran to its end, or stopped at the first failure. */
  datatype BlockRun = Ran(context: Context, results: seq<Result>, gas: nat) | Stopped(context: Context, error: nat)

  function RunTx(h: Head, before: BlockRun, tx: EvmTx): BlockRun {
    if before.Stopped? then before else
    var (c, r) := Execute(h, before.context, tx);
    if r.Rejected? then Stopped(c, r.error)
    else Ran(c, before.results + [r], AddGas(before.gas, GasOf(tx, r)))
  }

  /** Runs every transaction in order on a copy of the live state. */
  function RunBlock(h: Head, txs: seq<EvmTx>): BlockRun {
    if txs == [] then Ran(Fork(h.live), [], 0) else RunTx(h, RunBlock(h, txs[..|txs| - 1]), txs[|txs| - 1])
  }

  lemma {:induction false} RunKeepsTracking(db: Layer, c: Context, m: Message, seen: seq<Observation>)
    ensures Run(db, c, m, seen).0.tracking == c.tracking
    decreases m.gas - |seen|
  {
    if |seen| < m.gas && !IsFinal(m.next(seen)) {
      RunKeepsTracking(db, Perform(db, c, m.next(seen)), m, seen + [Observed(db, c, m.next(seen))]);
    }
  }

  /** Nothing is tracked on a copy, so a failure leaves it exactly as it was. */
  lemma {:induction false} BlockIsUntracked(h: Head, txs: seq<EvmTx>)
    ensures !RunBlock(h, txs).context.tracking
  {
    if txs != [] {
      var before := RunBlock(h, txs[..|txs| - 1]);
      BlockIsUntracked(h, txs[..|txs| - 1]);
      RunKeepsTracking(h.db, before.context, AsMessage(h.env, txs[|txs| - 1]), []);
    }
  }

  /** A transaction that can stand next in the block: its sender's account, as the block so far leaves it, passes. */
  ghost predicate Passes(h: Head, before: seq<EvmTx>, tx: EvmTx) {
    Check(h.env, tx, SenderOf(h, RunBlock(h, before).context, tx)).None?
  }

  lemma RunNext(h: Head, before: seq<EvmTx>, tx: EvmTx)
    requires RunBlock(h, before).Ran?
    ensures
      var run := RunBlock(h, before);
      var (c, r) := Execute(h, run.context, tx);
      if Passes(h, before, tx)
      then !r.Rejected? && RunBlock(h, before + [tx]) == Ran(c, run.results + [r], AddGas(run.gas, GasOf(tx, r)))
      else r.Rejected? && c == run.context && RunBlock(h, before + [tx]) == Stopped(c, r.error)
  {
    assert (before + [tx])[..|before|] == before;
    BlockIsUntracked(h, before);
    FailsClean(h, RunBlock(h, before).context, tx);
  }

  /** The gas of the results, uncut: what a completed run reports within its limit, and otherwise the limit. */
  ghost function GasSum(txs: seq<EvmTx>, results: seq<Result>): nat
    requires |txs| == |results|
  {
    if txs == [] then 0 else
    var (n, tx, r) := (|txs| - 1, txs[|txs| - 1], results[|txs| - 1]);
    GasSum(txs[..n], results[..n]) +
    match r
    case Completed(output) => if tx.gasUsed(output) <= tx.gasLimit then tx.gasUsed(output) else tx.gasLimit
    case _ => tx.gasLimit
  }

  /**
   A block that ran has a result for each transaction, none of them a failure, and the sum of their gas in 64 bits.
   */
  lemma {:induction false} BlockGas(h: Head, txs: seq<EvmTx>)
    requires RunBlock(h, txs).Ran?
    ensures GasAdded(txs, RunBlock(h, txs))
  {
    if txs != [] {
      var n := |txs| - 1;
      var before := RunBlock(h, txs[..n]);
      var (c, r) := Execute(h, before.context, txs[n]);
      assert before.Ran? && !r.Rejected?;
      assert RunBlock(h, txs) == Ran(c, before.results + [r], AddGas(before.gas, GasOf(txs[n], r)));
      hide Execute, RunBlock;
      BlockGas(h, txs[..n]);
      GasStep(txs, before, c, r);
    }
  }

  ghost predicate GasAdded(txs: seq<EvmTx>, run: BlockRun) {
    && run.Ran? && |run.results| == |txs| && (forall r <- run.results :: !r.Rejected?)
    && run.gas == GasSum(txs, run.results) % TwoTo64
  }

  lemma GasStep(txs: seq<EvmTx>, before: BlockRun, c: Context, r: Result)
    requires txs != [] && GasAdded(txs[..|txs| - 1], before) && !r.Rejected?
    ensures GasAdded(txs, Ran(c, before.results + [r], AddGas(before.gas, GasOf(txs[|txs| - 1], r))))
  {
    OneMoreGas(txs, before.results, r);
    CutOnce(GasSum(txs[..|txs| - 1], before.results), GasOf(txs[|txs| - 1], r));
    hide GasSum, GasOf;
  }

  lemma OneMoreGas(txs: seq<EvmTx>, results: seq<Result>, r: Result)
    requires |txs| == |results| + 1
    ensures GasSum(txs, results + [r]) == GasSum(txs[..|results|], results) + GasOf(txs[|results|], r)
  {
    assert (results + [r])[..|results|] == results;
  }

  lemma CutOnce(x: nat, y: nat)
    ensures (x % TwoTo64 + y) % TwoTo64 == (x + y) % TwoTo64
  {
    var r := x % TwoTo64 + y;
    DivModUnique(x + y, TwoTo64, r / TwoTo64 + x / TwoTo64, r % TwoTo64);
  }

  /* ---------- filtering ---------- */

  ghost predicate Increasing(picks: seq<nat>) {
    forall i, j | 0 <= i < j < |picks| :: picks[i] < picks[j]
  }

  /** `picks` are the positions in txs that were kept, in order. */
  ghost predicate Picked(txs: seq<EvmTx>, n: nat, picks: seq<nat>, kept: seq<EvmTx>) {
    && n <= |txs| && |picks| == |kept|
    && (forall i | 0 <= i < |picks| :: picks[i] < n && kept[i] == txs[picks[i]])
    && Increasing(picks)
  }

  /** How many of the picks come before a position. */
  ghost function Before(picks: seq<nat>, k: nat): (n: nat)
    ensures n <= |picks|
  {
    if picks == [] || picks[|picks| - 1] < k then |picks| else Before(picks[..|picks| - 1], k)
  }

  /** Exactly the transactions that were not kept fail where they stand, after the ones kept before them. */
  ghost predicate OthersFail(h: Head, txs: seq<EvmTx>, n: nat, picks: seq<nat>, kept: seq<EvmTx>)
    requires Picked(txs, n, picks, kept)
  {
    forall k: nat | k < n :: k in picks <==> PassesAt(h, txs, picks, kept, k)
  }

  ghost predicate PassesAt(h: Head, txs: seq<EvmTx>, picks: seq<nat>, kept: seq<EvmTx>, k: nat)
    requires k < |txs| && |picks| == |kept|
  {
    Passes(h, kept[..Before(picks, k)], txs[k])
  }

  lemma BeforeExtended(picks: seq<nat>, p: nat, k: nat)
    requires k <= p
    ensures Before(picks + [p], k) == Before(picks, k)
  {
    assert (picks + [p])[..|picks|] == picks;
  }

  lemma KeepStep(h: Head, txs: seq<EvmTx>, n: nat, picks: seq<nat>, kept: seq<EvmTx>)
    requires n < |txs| && Picked(txs, n, picks, kept) && OthersFail(h, txs, n, picks, kept) && Passes(h, kept, txs[n])
    ensures Picked(txs, n + 1, picks + [n], kept + [txs[n]])
    ensures OthersFail(h, txs, n + 1, picks + [n], kept + [txs[n]])
  {
    hide Passes;
    var picks', kept' := picks + [n], kept + [txs[n]];
    forall k: nat | k < n + 1 ensures k in picks' <==> PassesAt(h, txs, picks', kept', k) {
      BeforeExtended(picks, n, k);
      assert kept'[..Before(picks, k)] == kept[..Before(picks, k)];
      if k == n {
        assert picks'[|picks|] == n && Before(picks, n) == |picks| && kept[..|kept|] == kept;
      } else {
        assert k in picks <==> PassesAt(h, txs, picks, kept, k);
      }
    }
  }

  lemma SkipStep(h: Head, txs: seq<EvmTx>, n: nat, picks: seq<nat>, kept: seq<EvmTx>)
    requires n < |txs| && Picked(txs, n, picks, kept) && OthersFail(h, txs, n, picks, kept) && !Passes(h, kept, txs[n])
    ensures Picked(txs, n + 1, picks, kept) && OthersFail(h, txs, n + 1, picks, kept)
  {
    hide Passes;
    forall k: nat | k < n + 1 ensures k in picks <==> PassesAt(h, txs, picks, kept, k) {
      if k == n {
        assert Before(picks, n) == |picks| && kept[..|kept|] == kept;
      } else {
        assert k in picks <==> PassesAt(h, txs, picks, kept, k);
      }
    }
  }

  /** The hashes of what was not kept. */
  ghost predicate FailedAre(txs: seq<EvmTx>, n: nat, picks: seq<nat>, failed: set<nat>)
    requires n <= |txs|
  {
    && (forall k: nat | k < n && k !in picks :: txs[k].hash in failed)
    && (forall x <- failed :: exists k: nat | k < n && k !in picks :: txs[k].hash == x)
  }

  lemma FailedStep(txs: seq<EvmTx>, n: nat, picks: seq<nat>, failed: set<nat>)
    requires n < |txs| && FailedAre(txs, n, picks, failed) && forall p <- picks :: p < n
    ensures FailedAre(txs, n + 1, picks + [n], failed) && FailedAre(txs, n + 1, picks, failed + {txs[n].hash})
  {
    forall x <- failed
      ensures exists k: nat | k < n + 1 && k !in picks + [n] :: txs[k].hash == x
      ensures exists k: nat | k < n + 1 && k !in picks :: txs[k].hash == x
    {
      var k: nat :| k < n && k !in picks && txs[k].hash == x;
      assert k !in picks + [n];
    }
    assert n !in picks && n in picks + [n];
  }

  /** The first `n` candidates are sorted into kept and failed, exactly by whether they fail. */
  ghost predicate Filtered(h: Head, txs: seq<EvmTx>, n: nat, picks: seq<nat>, kept: seq<EvmTx>, failed: set<nat>) {
    Picked(txs, n, picks, kept) && OthersFail(h, txs, n, picks, kept) && FailedAre(txs, n, picks, failed)
  }

  lemma FilterStep(h: Head, txs: seq<EvmTx>, n: nat, picks: seq<nat>, kept: seq<EvmTx>, failed: set<nat>)
    requires n < |txs| && Filtered(h, txs, n, picks, kept, failed)
    ensures Passes(h, kept, txs[n]) ==> Filtered(h, txs, n + 1, picks + [n], kept + [txs[n]], failed)
    ensures !Passes(h, kept, txs[n]) ==> Filtered(h, txs, n + 1, picks, kept, failed + {txs[n].hash})
  {
    FailedStep(txs, n, picks, failed);
    hide Passes, OthersFail, FailedAre;
    if Passes(h, kept, txs[n]) {
      KeepStep(h, txs, n, picks, kept);
    } else {
      SkipStep(h, txs, n, picks, kept);
    }
  }

  /** Where a block of the kept transactions ends. */
  ghost predicate Reaches(h: Head, kept: seq<EvmTx>, work: Context, gas: nat) {
    var run := RunBlock(h, kept);
    run.Ran? && run.context == work && run.gas == gas
  }

  lemma ReachStep(h: Head, kept: seq<EvmTx>, work: Context, gas: nat, tx: EvmTx)
    requires Reaches(h, kept, work, gas)
    ensures
      var (c, r) := Execute(h, work, tx);
      if r.Rejected? then !Passes(h, kept, tx) && c == work
      else Passes(h, kept, tx) && Reaches(h, kept + [tx], c, AddGas(gas, GasOf(tx, r)))
  {
    hide Execute, RunBlock, Passes, GasOf, AddGas;
    RunNext(h, kept, tx);
  }

  lemma NothingYet(h: Head, txs: seq<EvmTx>)
    ensures Reaches(h, [], Fork(h.live), 0) && Filtered(h, txs, 0, [], [], {})
  {
  }

  /**
   Runs the candidates on a copy of the live state, on and on over failures, whatever they leave behind. What is kept
   runs as a block of its own to the same state and gas; everything else fails where it stood.
   */
  method SimulateAndFilter(h: Head, txs: seq<EvmTx>)
    returns (kept: seq<EvmTx>, work: Context, gas: nat, failed: set<nat>, ghost picks: seq<nat>)
    ensures Reaches(h, kept, work, gas) && Filtered(h, txs, |txs|, picks, kept, failed)
  {
    hide *;
    kept, work, gas, failed, picks := [], Fork(h.live), 0, {}, [];
    NothingYet(h, txs);
    for i := 0 to |txs|
      invariant Reaches(h, kept, work, gas) && Filtered(h, txs, i, picks, kept, failed)
    {
      ReachStep(h, kept, work, gas, txs[i]);
      FilterStep(h, txs, i, picks, kept, failed);
      var (c, r) := Execute(h, work, txs[i]);
      work := c;
      if r.Rejected? {
        failed := failed + {txs[i].hash};
        continue;
      }
      kept, picks := kept + [txs[i]], picks + [i];
      gas := AddGas(gas, GasOf(txs[i], r));
    }
  }

  /** Runs a block all or nothing on a copy of the live state. */
  method SimulateBlock(h: Head, txs: seq<EvmTx>) returns (run: BlockRun)
    ensures run == RunBlock(h, txs)
  {
    var work, results: seq<Result>, gas: nat := Fork(h.live), [], 0;
    for i := 0 to |txs|
      invariant RunBlock(h, txs[..i]) == Ran(work, results, gas)
    {
      assert txs[..i + 1][..i] == txs[..i];
      var (c, r) := Execute(h, work, txs[i]);
      if r.Rejected? {
        StoppedStays(h, txs, i + 1);
        return Stopped(c, r.error);
      }
      work, results, gas := c, results + [r], AddGas(gas, GasOf(txs[i], r));
    }
    assert txs[..|txs|] == txs;
    return Ran(work, results, gas);
  }

  lemma {:induction false} StoppedStays(h: Head, txs: seq<EvmTx>, n: nat)
    requires n <= |txs| && RunBlock(h, txs[..n]).Stopped?
    ensures RunBlock(h, txs) == RunBlock(h, txs[..n])
    decreases |txs|
  {
    if n == |txs| {
      assert txs[..n] == txs;
    } else {
      assert txs[..|txs| - 1][..n] == txs[..n];
      StoppedStays(h, txs[..|txs| - 1], n);
    }
  }

  /* ---------- a block that runs is kept whole ---------- */

  lemma {:induction false} AtLeastPosition(picks: seq<nat>)
    requires Increasing(picks)
    ensures forall i | 0 <= i < |picks| :: picks[i] >= i
    decreases |picks|
  {
    if picks != [] {
      var last := |picks| - 1;
      AtLeastPosition(picks[..last]);
      forall i | 0 <= i < |picks| ensures picks[i] >= i {
        if 0 < i == last {
          assert picks[..last][i - 1] >= i - 1;
        } else if i < last {
          assert picks[..last][i] >= i;
        }
      }
    }
  }

  lemma {:induction false} BeforeAll(picks: seq<nat>, k: nat)
    requires k <= |picks| && (forall i | 0 <= i < k :: picks[i] == i) && Increasing(picks)
    ensures Before(picks, k) == k
    decreases |picks|
  {
    AtLeastPosition(picks);
    var last := |picks| - 1;
    if picks != [] && picks[last] >= k {
      assert last >= k;
      BeforeAll(picks[..last], k);
    }
  }

  lemma PrefixRuns(h: Head, txs: seq<EvmTx>, n: nat)
    requires RunBlock(h, txs).Ran? && n <= |txs|
    ensures RunBlock(h, txs[..n]).Ran?
  {
    if RunBlock(h, txs[..n]).Stopped? {
      StoppedStays(h, txs, n);
    }
  }

  lemma EachPasses(h: Head, txs: seq<EvmTx>, k: nat)
    requires RunBlock(h, txs).Ran? && k < |txs|
    ensures Passes(h, txs[..k], txs[k])
  {
    hide RunBlock, Passes;
    PrefixRuns(h, txs, k);
    PrefixRuns(h, txs, k + 1);
    assert txs[..k + 1] == txs[..k] + [txs[k]];
    RunNext(h, txs[..k], txs[k]);
  }

  lemma {:induction false} FirstAreKept(h: Head, txs: seq<EvmTx>, picks: seq<nat>, kept: seq<EvmTx>, n: nat)
    requires RunBlock(h, txs).Ran? && n <= |txs|
    requires Picked(txs, |txs|, picks, kept) && OthersFail(h, txs, |txs|, picks, kept)
    ensures n <= |picks| && (forall i | 0 <= i < n :: picks[i] == i) && kept[..n] == txs[..n]
  {
    if n > 0 {
      var k := n - 1;
      FirstAreKept(h, txs, picks, kept, k);
      EachPasses(h, txs, k);
      BeforeAll(picks, k);
      hide RunBlock, Passes, Before;
      assert PassesAt(h, txs, picks, kept, k);
      AtLeastPosition(picks);
      assert k in picks && k < |picks| && picks[k] == k;
    }
  }

  /** Filtering a list that runs as a block keeps all of it; so filtering twice is filtering once. */
  lemma CleanKeepsAll(h: Head, txs: seq<EvmTx>, picks: seq<nat>, kept: seq<EvmTx>, failed: set<nat>)
    requires RunBlock(h, txs).Ran? && Filtered(h, txs, |txs|, picks, kept, failed)
    ensures kept == txs && failed == {}
  {
    var n := |txs|;
    FirstAreKept(h, txs, picks, kept, n);
    hide RunBlock, OthersFail;
    AtLeastPosition(picks);
    assert |picks| == n;
    assert kept == kept[..n] && txs == txs[..n];
    forall k: nat | k < n ensures k in picks {
      assert picks[k] == k;
    }
  }

  /* ---------- building and validating ---------- */

  const DefaultMaxTxs := 64
  const MaxAttempts := 16

  /** What the pool offers, and how its entries convert. */
  datatype Offer = Offer(pending: seq<Mempool.Entry>, txOf: Mempool.Entry -> EvmTx, gasLimit: nat, most: nat)

  /** One selection and its simulation. */
  datatype Attempt = Attempt(
    exclude: set<nat>, chosen: seq<Mempool.Entry>, txs: seq<EvmTx>, picks: seq<nat>, kept: seq<EvmTx>, failed: set<nat>)

  function JobOf(h: Head, o: Offer, exclude: set<nat>): BlockBuild.Job {
    var nonceOf := (a: Address) => FieldsAt(h.db, h.live.cache, a).nonce;
    BlockBuild.Job(o.pending, Mempool.EvmKind, exclude, nonceOf, o.gasLimit)
  }

  ghost predicate Converted(o: Offer, entries: seq<Mempool.Entry>, txs: seq<EvmTx>) {
    |txs| == |entries| && forall i | 0 <= i < |txs| :: txs[i] == o.txOf(entries[i])
  }

  ghost predicate Tried(h: Head, o: Offer, a: Attempt) {
    var job := JobOf(h, o, a.exclude);
    && BlockBuild.Chosen(job, a.chosen) && |a.chosen| <= o.most
    && (|a.chosen| < o.most ==> BlockBuild.Full(job, a.chosen))
    && Converted(o, a.chosen, a.txs)
    && Filtered(h, a.txs, |a.txs|, a.picks, a.kept, a.failed)
  }

  ghost predicate Follows(a: Attempt, b: Attempt) {
    a.kept == [] && b.exclude == a.exclude + a.failed
  }

  /** Attempts in a row, each without what failed before, and none but the last keeping anything. */
  ghost predicate InARow(h: Head, o: Offer, attempts: seq<Attempt>) {
    && (forall a <- attempts :: Tried(h, o, a))
    && (attempts != [] ==> attempts[0].exclude == {})
    && (forall i | 0 < i < |attempts| :: Follows(attempts[i - 1], attempts[i]))
  }

  method Convert(o: Offer, entries: seq<Mempool.Entry>) returns (txs: seq<EvmTx>)
    ensures Converted(o, entries, txs)
  {
    txs := [];
    for i := 0 to |entries|
      invariant |txs| == i && forall j | 0 <= j < i :: txs[j] == o.txOf(entries[j])
    {
      txs := txs + [o.txOf(entries[i])];
    }
  }

  method TryOnce(h: Head, o: Offer, exclude: set<nat>)
    returns (kept: seq<EvmTx>, work: Context, gas: nat, failed: set<nat>, ghost a: Attempt)
    requires Mempool.Unique(o.pending)
    ensures Tried(h, o, a) && a.exclude == exclude && a.kept == kept && a.failed == failed
    ensures Reaches(h, kept, work, gas)
    ensures failed == {} && kept == [] ==> a.chosen == []
  {
    hide BlockBuild.Chosen, BlockBuild.Full, Filtered, Reaches;
    var chosen := BlockBuild.SelectPendingTxs(JobOf(h, o, exclude), o.most);
    var candidates := Convert(o, chosen);
    ghost var picks;
    kept, work, gas, failed, picks := SimulateAndFilter(h, candidates);
    a := Attempt(exclude, chosen, candidates, picks, kept, failed);
    SomethingFailed(h, a);
  }

  lemma SomethingFailed(h: Head, a: Attempt)
    requires |a.txs| == |a.chosen| && Filtered(h, a.txs, |a.txs|, a.picks, a.kept, a.failed)
    ensures a.failed == {} && a.kept == [] ==> a.chosen == []
  {
    hide OthersFail;
    if a.kept == [] && a.chosen != [] {
      assert a.txs[0].hash in a.failed;
    }
  }

  /**
   Selects, simulates, and selects again without what failed when nothing was kept. The block made is one that runs,
   to the state and the gas it claims; it is empty only when a selection was, or after sixteen attempts.
   */
  method BuildBlock(h: Head, pending: seq<Mempool.Entry>, txOf: Mempool.Entry -> EvmTx, gasLimit: nat, maxTxs: int)
    returns (block: seq<EvmTx>, work: Context, gas: nat, ghost attempts: seq<Attempt>)
    requires Mempool.Unique(pending)
    ensures Reaches(h, block, work, gas)
    ensures InARow(h, Offer(pending, txOf, gasLimit, if maxTxs <= 0 then DefaultMaxTxs else maxTxs), attempts)
    ensures 0 < |attempts| <= MaxAttempts && block == attempts[|attempts| - 1].kept
    ensures block == [] ==> |attempts| == MaxAttempts || attempts[|attempts| - 1].chosen == []
  {
    hide Tried, Reaches;
    var o := Offer(pending, txOf, gasLimit, if maxTxs <= 0 then DefaultMaxTxs else maxTxs);
    var exclude: set<nat> := {};
    attempts := [];
    for n := 0 to MaxAttempts
      invariant InARow(h, o, attempts) && |attempts| == n
      invariant n == 0 ==> exclude == {}
      invariant n > 0 ==>
        attempts[n - 1].kept == [] && exclude == attempts[n - 1].exclude + attempts[n - 1].failed
    {
      ghost var a;
      var failed;
      block, work, gas, failed, a := TryOnce(h, o, exclude);
      attempts := attempts + [a];
      exclude := exclude + failed;
      if block != [] || failed == {} { return; }
    }
    NothingYet(h, []);
    block, work, gas := [], Fork(h.live), 0;
  }

  ghost predicate FromPool(o: Offer, exclude: set<nat>, tx: EvmTx) {
    exists e <- o.pending :: e.kind == Mempool.EvmKind && e.hash !in exclude && o.txOf(e) == tx
  }

  /** The transactions of a built block come from pending entries of the EVM kind, and are no more than asked for. */
  lemma KeptAreChosen(h: Head, o: Offer, a: Attempt)
    requires Tried(h, o, a)
    ensures |a.kept| <= o.most
    ensures forall tx <- a.kept :: FromPool(o, a.exclude, tx)
  {
    hide OthersFail, FailedAre;
    AtLeastPosition(a.picks);
    if a.picks != [] {
      assert a.picks[|a.picks| - 1] >= |a.picks| - 1;
    }
    forall tx <- a.kept ensures FromPool(o, a.exclude, tx) {
      var i :| 0 <= i < |a.kept| && a.kept[i] == tx;
      assert BlockBuild.Good(JobOf(h, o, a.exclude), a.chosen[a.picks[i]]);
    }
  }

  /** A block is valid when it runs and uses the gas its header claims. */
  method ValidateBlock(h: Head, txs: seq<EvmTx>, gasUsed: nat) returns (work: Option<Context>)
    ensures work.Some? ==> Reaches(h, txs, work.value, gasUsed)
    ensures work.None? ==> forall c: Context :: !Reaches(h, txs, c, gasUsed)
  {
    if txs == [] {
      if gasUsed != 0 { return None; }
      return Some(Fork(h.live));
    }
    var run := SimulateBlock(h, txs);
    if run.Stopped? || run.gas != gasUsed { return None; }
    return Some(run.context);
  }
}
