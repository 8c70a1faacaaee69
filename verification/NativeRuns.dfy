/** When a native transaction is applied, exactly, and that no run applies one twice. */
module NativeRuns {
  import opened Arithmetic
  import opened BigEndian
  import opened Staking
  import opened StakingRuns
  import opened StakingEffects
  import opened NativeTx

  /* ---------- acceptance ---------- */

  predicate FeeOk(tx: DewTx) {
    tx.fee == 0 || tx.fee >= 2_100_000_000_000
  }

  /** No payload, or a credit to a listed address. */
  predicate PayloadOk(c: Config, tx: DewTx) {
    tx.payload == [] ||
    (tx.payload[0] == 1 && |tx.payload| == 53 && Listed(c, tx, Value(tx.payload[1..21])))
  }

  predicate Listed(c: Config, tx: DewTx, a: Address) {
    a == tx.sender || a == tx.receiver || a == c.feeSink || a in tx.accessList
  }

  /** What the transaction spends in all. */
  function Spent(tx: DewTx): nat {
    tx.amount + (if |tx.payload| == 53 then Value(tx.payload[21..53]) else 0)
      + (if tx.fee == 0 then 2_100_000_000_000 else tx.fee)
  }

  predicate BalanceOk(w: World, tx: DewTx) {
    Spent(tx) % TwoTo256 <= (if tx.sender in w.balances then w.balances[tx.sender] else 0)
  }

  predicate NonceOk(w: World, tx: DewTx) {
    tx.nonce == (if tx.sender in w.nonces then w.nonces[tx.sender] else 0)
  }

  lemma NeedIsSpent(tx: DewTx)
    requires tx.payload == [] || (tx.payload[0] == 1 && |tx.payload| == 53)
    ensures Need(tx) == Spent(tx) % TwoTo256
  {
    WrapInside(tx.amount + Extra(tx).amount, FeeOf(tx));
  }

  /** A transaction is applied exactly when version, fee, nonce, payload, access list and balance are right. */
  lemma AppliedIff(c: Config, w: World, tx: DewTx)
    ensures ApplyDewTx(c, w, tx).Applied? <==>
      tx.version == 1 && FeeOk(tx) && NonceOk(w, tx) && PayloadOk(c, tx) && BalanceOk(w, tx)
  {
    hide Transfers, FeeSplit, Need;
    if tx.payload == [] || (tx.payload[0] == 1 && |tx.payload| == 53) {
      NeedIsSpent(tx);
    }
  }

  /** Otherwise the error names the first thing that is wrong, in this order. */
  lemma RefusedBecause(c: Config, w: World, tx: DewTx)
    ensures
      match ApplyDewTx(c, w, tx)
      case Applied(_, fee) => fee == if tx.fee == 0 then 2_100_000_000_000 else tx.fee
      case Rejected(e) =>
        || (e == BadVersion && tx.version != 1)
        || (e == LowFee && tx.version == 1 && !FeeOk(tx))
        || (e == BadNonce && tx.version == 1 && FeeOk(tx) && !NonceOk(w, tx))
        || (e == InsufficientBalance && PayloadOk(c, tx) && NonceOk(w, tx) && !BalanceOk(w, tx))
      case Failed(e) =>
        && NonceOk(w, tx) && tx.payload != [] && !PayloadOk(c, tx)
        && e == if tx.payload[0] != 1 then UnknownModule else if |tx.payload| != 53 then BadPayload else NotInAccessList
  {
    hide Transfers, FeeSplit, Need;
    if tx.payload == [] || (tx.payload[0] == 1 && |tx.payload| == 53) {
      NeedIsSpent(tx);
    }
  }

  /* ---------- the fee ---------- */

  /** Where the fee of an applied transaction went, and what the pool of the sink's delegators gained. */
  ghost predicate FeeShared(c: Config, w: World, fee: nat, s: Split, pool: Pool) {
    s.pool == pool &&
    if c.stakingEnabled then Shared(w.pool, fee, s) && Indexed(w.pool, s)
    else s.proposer == fee && s.escrowed == 0 && pool == w.pool
  }

  lemma FeeIsShared(c: Config, w: World, tx: DewTx)
    requires ApplyDewTx(c, w, tx).Applied? && w.pool.commission <= MaxBps
    requires SplitFits(w.pool, FeeOf(tx)) && AccrueFits(w.pool, FeeOf(tx))
    ensures FeeShared(c, w, FeeOf(tx), FeeSplit(c, w, FeeOf(tx)), ApplyDewTx(c, w, tx).world.pool)
  {
    IncomeEffect(w.pool, FeeOf(tx));
    hide Transfers, Need, DistributeIncome, Shared, Indexed;
  }

  /* ---------- whole runs ---------- */

  function After(c: Config, w: World, tx: DewTx): World {
    var r := ApplyDewTx(c, w, tx);
    if r.Applied? then r.world else w
  }

  ghost predicate IsRun(c: Config, ws: seq<World>, txs: seq<DewTx>) {
    && |ws| == |txs| + 1
    && (forall a: Address :: Nonce(ws[0].nonces, a) < TwoTo64)
    && (forall i | 0 <= i < |txs| :: Steps(c, ws[i], txs[i], ws[i + 1]))
  }

  ghost predicate Steps(c: Config, w: World, tx: DewTx, w': World) {
    w' == After(c, w, tx)
  }

  predicate AppliedBy(c: Config, w: World, tx: DewTx, a: Address) {
    tx.sender == a && ApplyDewTx(c, w, tx).Applied?
  }

  /** How many of the first `n` transactions were applied and are of the sender. */
  ghost function AppliedOf(c: Config, ws: seq<World>, txs: seq<DewTx>, a: Address, n: nat): nat
    requires n <= |txs| && n <= |ws|
  {
    if n == 0 then 0 else
    AppliedOf(c, ws, txs, a, n - 1) + if AppliedBy(c, ws[n - 1], txs[n - 1], a) then 1 else 0
  }

  lemma NonceAfter(c: Config, w: World, tx: DewTx, a: Address)
    ensures Nonce(After(c, w, tx).nonces, a) ==
      if AppliedBy(c, w, tx, a) then (Nonce(w.nonces, a) + 1) % TwoTo64 else Nonce(w.nonces, a)
  {
    hide Transfers, FeeSplit, Need;
  }

  lemma NextCount(start: nat, n: nat)
    ensures ((start + n) % TwoTo64 + 1) % TwoTo64 == (start + n + 1) % TwoTo64
  {
    var q := (start + n) / TwoTo64;
    var r := (start + n) % TwoTo64 + 1;
    DivModUnique(start + n + 1, TwoTo64, r / TwoTo64 + q, r % TwoTo64);
  }

  /** In every run an account's nonce counts its applied transactions, in 64 bits. */
  lemma {:induction false} NoncesCount(c: Config, ws: seq<World>, txs: seq<DewTx>, a: Address, n: nat)
    requires IsRun(c, ws, txs) && n <= |txs|
    ensures Nonce(ws[n].nonces, a) == (Nonce(ws[0].nonces, a) + AppliedOf(c, ws, txs, a, n)) % TwoTo64
  {
    if n == 0 {
      ModBasics(Nonce(ws[0].nonces, a), TwoTo64);
    } else {
      NoncesCount(c, ws, txs, a, n - 1);
      assert Steps(c, ws[n - 1], txs[n - 1], ws[n - 1 + 1]);
      NonceAfter(c, ws[n - 1], txs[n - 1], a);
      NextCount(Nonce(ws[0].nonces, a), AppliedOf(c, ws, txs, a, n - 1));
      hide After, AppliedBy, IsRun;
    }
  }

  lemma {:induction false} CountsGrow(c: Config, ws: seq<World>, txs: seq<DewTx>, a: Address, i: nat, j: nat)
    requires i <= j <= |txs| && |ws| == |txs| + 1
    ensures AppliedOf(c, ws, txs, a, i) <= AppliedOf(c, ws, txs, a, j) <= AppliedOf(c, ws, txs, a, i) + (j - i)
    decreases j
  {
    if i < j {
      CountsGrow(c, ws, txs, a, i, j - 1);
    }
  }

  /** Numbers count up modulo 2^64: two are the same exactly when their distance is a multiple of it. */
  lemma SameModulo(start: nat, m: nat, n: nat)
    requires m <= n
    ensures (start + m) % TwoTo64 == (start + n) % TwoTo64 <==> (n - m) % TwoTo64 == 0
  {
    var x, y := start + m, start + n;
    assert x == x / TwoTo64 * TwoTo64 + x % TwoTo64 && y == y / TwoTo64 * TwoTo64 + y % TwoTo64;
    if x % TwoTo64 == y % TwoTo64 {
      DivModUnique(n - m, TwoTo64, y / TwoTo64 - x / TwoTo64, 0);
    } else if (n - m) % TwoTo64 == 0 {
      var q := (n - m) / TwoTo64;
      assert n - m == q * TwoTo64;
      DivModUnique(y, TwoTo64, x / TwoTo64 + q, x % TwoTo64);
    }
  }

  ghost predicate AppliedAt(c: Config, ws: seq<World>, txs: seq<DewTx>, i: nat) {
    i < |txs| && |ws| == |txs| + 1 && ApplyDewTx(c, ws[i], txs[i]).Applied?
  }

  /**
   Two nonces of a sender differ by the number of its transactions applied from the one to the other. So they are the
   same exactly when that is a multiple of 2^64, and never in a run of fewer.
   */
  ghost predicate CountUp(c: Config, ws: seq<World>, txs: seq<DewTx>, i: nat, j: nat) {
    && i < j < |txs| && |ws| == |txs| + 1
    && var between := AppliedOf(c, ws, txs, txs[i].sender, j) - AppliedOf(c, ws, txs, txs[i].sender, i);
       && 0 < between <= j - i
       && txs[j].nonce == (txs[i].nonce + between) % TwoTo64
       && (txs[i].nonce == txs[j].nonce <==> between % TwoTo64 == 0)
       && (between < TwoTo64 ==> txs[i].nonce != txs[j].nonce)
  }

  /** No replay: what that says holds of any two applied transactions of one sender, in every run. */
  lemma NoReplay(c: Config, ws: seq<World>, txs: seq<DewTx>, i: nat, j: nat)
    requires IsRun(c, ws, txs) && i < j && AppliedAt(c, ws, txs, i) && AppliedAt(c, ws, txs, j)
    requires txs[i].sender == txs[j].sender
    ensures CountUp(c, ws, txs, i, j)
  {
    hide IsRun, ApplyDewTx, AppliedOf;
    var a := txs[i].sender;
    var m, n := AppliedOf(c, ws, txs, a, i), AppliedOf(c, ws, txs, a, j);
    NonceOfApplied(c, ws, txs, i);
    NonceOfApplied(c, ws, txs, j);
    CountsGrow(c, ws, txs, a, i + 1, j);
    CountsApart(Nonce(ws[0].nonces, a), m, n, txs[i].nonce, txs[j].nonce);
  }

  lemma CountsApart(start: nat, m: nat, n: nat, x: nat, y: nat)
    requires m < n && x == (start + m) % TwoTo64 && y == (start + n) % TwoTo64
    ensures y == (x + (n - m)) % TwoTo64 && (x == y <==> (n - m) % TwoTo64 == 0) && (n - m < TwoTo64 ==> x != y)
  {
    SameModulo(start, m, n);
    CountOn(start, m, n);
    SmallIsNoMultiple(n - m);
  }

  lemma SmallIsNoMultiple(x: nat)
    ensures 0 < x < TwoTo64 ==> x % TwoTo64 != 0
  {
    if x < TwoTo64 {
      ModBasics(x, TwoTo64);
    }
  }

  lemma NonceOfApplied(c: Config, ws: seq<World>, txs: seq<DewTx>, i: nat)
    requires IsRun(c, ws, txs) && AppliedAt(c, ws, txs, i)
    ensures
      var (a, n) := (txs[i].sender, AppliedOf(c, ws, txs, txs[i].sender, i));
      txs[i].nonce == (Nonce(ws[0].nonces, a) + n) % TwoTo64 && AppliedOf(c, ws, txs, a, i + 1) == n + 1
  {
    AppliedIff(c, ws[i], txs[i]);
    NoncesCount(c, ws, txs, txs[i].sender, i);
    hide ApplyDewTx, IsRun, PayloadOk, BalanceOk, FeeOk;
  }

  lemma CountOn(start: nat, m: nat, n: nat)
    requires m <= n
    ensures (start + n) % TwoTo64 == ((start + m) % TwoTo64 + (n - m)) % TwoTo64
  {
    var x := (start + m) % TwoTo64 + (n - m);
    DivModUnique(start + n, TwoTo64, x / TwoTo64 + (start + m) / TwoTo64, x % TwoTo64);
  }

  /** Runs of transactions whose amounts do not overflow keep the supply. */
  lemma {:induction false} RunsKeepSupply(c: Config, ws: seq<World>, txs: seq<DewTx>, n: nat)
    requires IsRun(c, ws, txs) && n <= |txs| && Supply(ws[0].balances) < TwoTo256
    requires forall tx <- txs :: tx.amount + Extra(tx).amount + FeeOf(tx) < TwoTo256
    ensures Supply(ws[n].balances) == Supply(ws[0].balances)
  {
    if n > 0 {
      RunsKeepSupply(c, ws, txs, n - 1);
      assert Steps(c, ws[n - 1], txs[n - 1], ws[n - 1 + 1]) && txs[n - 1] in txs;
      hide Supply, IsRun;
      if ApplyDewTx(c, ws[n - 1], txs[n - 1]).Applied? {
        SupplyIsKept(c, ws[n - 1], txs[n - 1]);
      }
    }
  }

  /* ---------- the credit payload ---------- */

  function CreditPayload(credit: Credit): Bytes {
    [1] + Encode(credit.to, 20) + Encode(credit.amount, 32)
  }

  /** A credit is read back from its payload. */
  lemma CreditIsReadBack(credit: Credit)
    requires credit.to < Pow256(20) && credit.amount < Pow256(32)
    ensures ParsePayload(CreditPayload(credit)) == CreditModule(credit)
  {
    hide Encode, Value, Pow256;
    ThreeParts(Encode(credit.to, 20), Encode(credit.amount, 32));
    DecodeEncode(credit.to, 20);
    DecodeEncode(credit.amount, 32);
  }

  lemma ThreeParts(x: Bytes, y: Bytes)
    requires |x| == 20 && |y| == 32
    ensures
      var p := [1] + x + y;
      |p| == 53 && p[0] == 1 && p[1..21] == x && p[21..53] == y
  {
  }
}
