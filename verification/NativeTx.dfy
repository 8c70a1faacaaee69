/**
 Native transactions: the checks, the debit of the sender, the credits, and the fee split with the staking pool of the
 fee sink. Balances are 256-bit words; the exact ledger beside them is in integers.
 */
module NativeTx {
  import opened Arithmetic
  import opened BigEndian
  import opened MapSums
  import opened Staking

  const TxVersion: nat := 1
  const DefaultFee: nat := 2_100_000_000_000
  const MinFee: nat := 2_100_000_000_000
  const CreditTag: Byte := 1

  datatype DewTx = DewTx(version: nat, sender: Address, receiver: Address, amount: nat, fee: nat, nonce: nat,
    accessList: seq<Address>, payload: Bytes)

  /** The fee sink, the staking module's account, and whether fees are shared with delegators. */
  datatype Config = Config(feeSink: Address, moduleAddress: Address, stakingEnabled: bool)

  datatype World = World(balances: map<Address, nat>, nonces: map<Address, nat>, pool: Pool)

  datatype Error = BadVersion | LowFee | BadNonce | BadPayload | UnknownModule | NotInAccessList | InsufficientBalance

  /** A rejected or failed transaction changes nothing. */
  datatype Outcome = Applied(world: World, feePaid: nat) | Failed(error: Error) | Rejected(error: Error)

  function Balance(b: map<Address, nat>, a: Address): nat {
    if a in b then b[a] else 0
  }

  function Nonce(n: map<Address, nat>, a: Address): nat {
    if a in n then n[a] else 0
  }

  /** The value of an integer in 256 bits. */
  function Wrap(x: int): (r: nat)
    ensures r < TwoTo256
  {
    x % TwoTo256
  }

  function Debit(b: map<Address, nat>, a: Address, amount: nat): map<Address, nat> {
    b[a := Wrap(Balance(b, a) - amount)]
  }

  function Pay(b: map<Address, nat>, a: Address, amount: nat): map<Address, nat> {
    if amount == 0 then b else b[a := Wrap(Balance(b, a) + amount)]
  }

  function FeeOf(tx: DewTx): nat {
    if tx.fee == 0 then DefaultFee else tx.fee
  }

  datatype Credit = Credit(to: Address, amount: nat)

  datatype Payload = NoModule | CreditModule(credit: Credit) | BadModule(error: Error)

  function ParsePayload(p: Bytes): Payload {
    if |p| == 0 then NoModule
    else if p[0] != CreditTag then BadModule(UnknownModule)
    else if |p| != 1 + 20 + 32 then BadModule(BadPayload)
    else CreditModule(Credit(Value(p[1..21]), Value(p[21..53])))
  }

  function Allowed(c: Config, tx: DewTx): set<Address> {
    {tx.sender, tx.receiver, c.feeSink} + set a | a in tx.accessList
  }

  /** The second credit of a transaction, nothing when there is none. */
  function Extra(tx: DewTx): Credit {
    match ParsePayload(tx.payload)
    case CreditModule(credit) => credit
    case _ => Credit(tx.sender, 0)
  }

  /** How the fee is shared: all to the sink, or split with its delegators. */
  function FeeSplit(c: Config, w: World, fee: nat): Split {
    if c.stakingEnabled then DistributeIncome(w.pool, fee) else Split(w.pool, fee, 0)
  }

  /** The debit as the 256-bit sums give it. */
  function Need(tx: DewTx): nat {
    Wrap(Wrap(tx.amount + Extra(tx).amount) + FeeOf(tx))
  }

  /** The balances after the debit and the credits. */
  function Transfers(c: Config, w: World, tx: DewTx): map<Address, nat> {
    var split := FeeSplit(c, w, FeeOf(tx));
    var paid := Pay(Debit(w.balances, tx.sender, Need(tx)), tx.receiver, tx.amount);
    var credited := Pay(paid, Extra(tx).to, Extra(tx).amount);
    Pay(Pay(credited, c.feeSink, split.proposer), c.moduleAddress, split.escrowed)
  }

  function ApplyDewTx(c: Config, w: World, tx: DewTx): Outcome {
    if tx.version != TxVersion then Rejected(BadVersion)
    else if FeeOf(tx) < MinFee then Rejected(LowFee)
    else if Nonce(w.nonces, tx.sender) != tx.nonce then Rejected(BadNonce)
    else if ParsePayload(tx.payload).BadModule? then Failed(ParsePayload(tx.payload).error)
    else if Extra(tx).to !in Allowed(c, tx) then Failed(NotInAccessList)
    else if Balance(w.balances, tx.sender) < Need(tx) then Rejected(InsufficientBalance)
    else
      Applied(World(Transfers(c, w, tx), w.nonces[tx.sender := (tx.nonce + 1) % TwoTo64],
                    FeeSplit(c, w, FeeOf(tx)).pool),
              FeeOf(tx))
  }

  /* ---------- the exact ledger ---------- */

  /** What a transaction moves, exactly, for one account. */
  ghost function Delta(c: Config, w: World, tx: DewTx, a: Address): int {
    var split := FeeSplit(c, w, FeeOf(tx));
    (if a == tx.receiver then tx.amount else 0)
    + (if a == Extra(tx).to then Extra(tx).amount else 0)
    + (if a == c.feeSink then split.proposer else 0)
    + (if a == c.moduleAddress then split.escrowed else 0)
    - (if a == tx.sender then tx.amount + Extra(tx).amount + FeeOf(tx) else 0)
  }

  ghost predicate WordsOnly(b: map<Address, nat>) {
    forall a <- b.Keys :: b[a] < TwoTo256
  }

  lemma WrapOf(x: int)
    requires 0 <= x < TwoTo256
    ensures Wrap(x) == x
  {
    DivModUnique(x, TwoTo256, 0, x);
  }

  /** Only the last wrap matters. */
  lemma WrapInside(x: int, y: int)
    ensures Wrap(Wrap(x) + y) == Wrap(x + y) && Wrap(y - Wrap(x)) == Wrap(y - x)
  {
    var q := x / TwoTo256;
    assert x == q * TwoTo256 + Wrap(x);
    var s, d := Wrap(x) + y, y - Wrap(x);
    DivModUnique(x + y, TwoTo256, s / TwoTo256 + q, Wrap(s));
    DivModUnique(y - x, TwoTo256, d / TwoTo256 - q, Wrap(d));
  }

  /** A payment after other changes: the balance is the wrapped sum of them all. */
  lemma PayAdds(b: map<Address, nat>, exact: int, a: Address, amount: nat, x: Address)
    requires Balance(b, x) == Wrap(exact)
    ensures Balance(Pay(b, a, amount), x) == Wrap(exact + if x == a then amount else 0)
  {
    WrapInside(exact, amount);
  }

  lemma NeedIsDebit(tx: DewTx, start: nat)
    ensures Wrap(start - Need(tx)) == Wrap(start - (tx.amount + Extra(tx).amount + FeeOf(tx)))
  {
    hide Wrap;
    WrapInside(tx.amount + Extra(tx).amount, FeeOf(tx));
    WrapInside(tx.amount + Extra(tx).amount + FeeOf(tx), start);
  }

  /** Every balance after a transaction is the exact one, modulo 2^256. */
  lemma BalancesModulo(c: Config, w: World, tx: DewTx, x: Address)
    requires WordsOnly(w.balances)
    ensures Balance(Transfers(c, w, tx), x) == Wrap(Balance(w.balances, x) + Delta(c, w, tx, x))
  {
    hide Wrap, Pay, Need, Extra, FeeSplit, FeeOf;
    var start, split, extra := Balance(w.balances, x), FeeSplit(c, w, FeeOf(tx)), Extra(tx);
    WrapOf(start);
    NeedIsDebit(tx, start);
    var b1 := Debit(w.balances, tx.sender, Need(tx));
    var s1 := start - if x == tx.sender then tx.amount + extra.amount + FeeOf(tx) else 0;
    PayAdds(b1, s1, tx.receiver, tx.amount, x);
    var b2 := Pay(b1, tx.receiver, tx.amount);
    var s2 := s1 + if x == tx.receiver then tx.amount else 0;
    PayAdds(b2, s2, extra.to, extra.amount, x);
    var b3 := Pay(b2, extra.to, extra.amount);
    var s3 := s2 + if x == extra.to then extra.amount else 0;
    PayAdds(b3, s3, c.feeSink, split.proposer, x);
    var b4 := Pay(b3, c.feeSink, split.proposer);
    var s4 := s3 + if x == c.feeSink then split.proposer else 0;
    PayAdds(b4, s4, c.moduleAddress, split.escrowed, x);
  }

  /* ---------- conservation ---------- */

  ghost function ToInts(b: map<Address, nat>): map<Address, int> {
    map a | a in b :: b[a]
  }

  ghost function Supply(b: map<Address, nat>): int {
    Sum(ToInts(b))
  }

  ghost function Entry(m: map<Address, int>, a: Address): int {
    if a in m then m[a] else 0
  }

  ghost function Post(m: map<Address, int>, a: Address, delta: int): map<Address, int> {
    m[a := Entry(m, a) + delta]
  }

  /** The exact ledger after a transaction. */
  ghost function Ledger(c: Config, w: World, tx: DewTx): map<Address, int> {
    var split := FeeSplit(c, w, FeeOf(tx));
    var m1 := Post(ToInts(w.balances), tx.sender, -(tx.amount + Extra(tx).amount + FeeOf(tx)));
    var m2 := Post(m1, tx.receiver, tx.amount);
    var m3 := Post(m2, Extra(tx).to, Extra(tx).amount);
    Post(Post(m3, c.feeSink, split.proposer), c.moduleAddress, split.escrowed)
  }

  lemma SplitIsWhole(c: Config, w: World, fee: nat)
    ensures FeeSplit(c, w, fee).proposer + FeeSplit(c, w, fee).escrowed == fee
  {
  }

  lemma PostSum(m: map<Address, int>, a: Address, delta: int)
    ensures Sum(Post(m, a, delta)) == Sum(m) + delta
  {
    SumUpdate(m, a, Entry(m, a) + delta);
  }

  lemma PaySupply(b: map<Address, nat>, a: Address, amount: nat)
    requires Supply(b) + amount < TwoTo256
    ensures Supply(Pay(b, a, amount)) == Supply(b) + amount
    ensures forall x: Address :: Balance(Pay(b, a, amount), x) == Balance(b, x) + if x == a then amount else 0
  {
    EntryWithinSum(ToInts(b), a);
    WrapOf(Balance(b, a) + amount);
    if amount != 0 {
      assert ToInts(Pay(b, a, amount)) == Post(ToInts(b), a, amount);
      PostSum(ToInts(b), a, amount);
    }
  }

  /** A fee reaches the sink and the module in full: the supply grows by exactly it. */
  ghost predicate FeeArrived(c: Config, w: World, after: map<Address, nat>, fee: nat) {
    var split := FeeSplit(c, w, fee);
    && split.proposer + split.escrowed == fee && Supply(after) == Supply(w.balances) + fee
    && forall x: Address :: Balance(after, x) == Balance(w.balances, x)
         + (if x == c.feeSink then split.proposer else 0) + (if x == c.moduleAddress then split.escrowed else 0)
  }

  lemma FeeArrives(c: Config, w: World, fee: nat)
    requires Supply(w.balances) + fee < TwoTo256
    ensures
      var split := FeeSplit(c, w, fee);
      FeeArrived(c, w, Pay(Pay(w.balances, c.feeSink, split.proposer), c.moduleAddress, split.escrowed), fee)
  {
    var split := FeeSplit(c, w, fee);
    SplitIsWhole(c, w, fee);
    hide FeeSplit, Pay, Supply;
    PaySupply(w.balances, c.feeSink, split.proposer);
    PaySupply(Pay(w.balances, c.feeSink, split.proposer), c.moduleAddress, split.escrowed);
  }

  /** The exact ledger keeps the supply, whatever the addresses have in common. */
  lemma LedgerKeepsSupply(c: Config, w: World, tx: DewTx)
    ensures Sum(Ledger(c, w, tx)) == Supply(w.balances)
  {
    hide DistributeIncome, Sum;
    var split := FeeSplit(c, w, FeeOf(tx));
    SplitIsWhole(c, w, FeeOf(tx));
    var m0 := ToInts(w.balances);
    var debit := tx.amount + Extra(tx).amount + FeeOf(tx);
    PostSum(m0, tx.sender, -debit);
    var m1 := Post(m0, tx.sender, -debit);
    PostSum(m1, tx.receiver, tx.amount);
    var m2 := Post(m1, tx.receiver, tx.amount);
    PostSum(m2, Extra(tx).to, Extra(tx).amount);
    var m3 := Post(m2, Extra(tx).to, Extra(tx).amount);
    PostSum(m3, c.feeSink, split.proposer);
    PostSum(Post(m3, c.feeSink, split.proposer), c.moduleAddress, split.escrowed);
  }

  lemma LedgerEntry(c: Config, w: World, tx: DewTx, a: Address)
    ensures Entry(Ledger(c, w, tx), a) == Balance(w.balances, a) + Delta(c, w, tx, a)
  {
    hide DistributeIncome;
  }

  lemma EntryWithinSum(m: map<Address, int>, a: Address)
    requires forall x <- m.Keys :: m[x] >= 0
    ensures Entry(m, a) <= Sum(m)
  {
    if a in m {
      SumRemove(m, a);
      SumNonNegative(m - {a});
    } else {
      SumNonNegative(m);
    }
  }

  /** Only the sender's exact balance can be negative, and then none is above the supply. */
  lemma LedgerInRange(c: Config, w: World, tx: DewTx, a: Address)
    requires Supply(w.balances) < TwoTo256
    requires Balance(w.balances, tx.sender) + Delta(c, w, tx, tx.sender) >= 0
    ensures 0 <= Balance(w.balances, a) + Delta(c, w, tx, a) < TwoTo256
  {
    var m := Ledger(c, w, tx);
    hide DistributeIncome, Sum, Ledger;
    forall x <- m.Keys ensures m[x] >= 0 {
      LedgerEntry(c, w, tx, x);
    }
    LedgerEntry(c, w, tx, a);
    EntryWithinSum(m, a);
    LedgerKeepsSupply(c, w, tx);
  }

  lemma BalancesAreWords(b: map<Address, nat>)
    requires Supply(b) < TwoTo256
    ensures WordsOnly(b)
  {
    forall a <- b.Keys ensures b[a] < TwoTo256 {
      EntryWithinSum(ToInts(b), a);
    }
  }

  /**
   With a supply below 2^256, an applied transaction leaves every account its exact balance if and only if the sender
   can afford it: its balance and what it is itself credited cover the amount, the second credit and the fee.
   */
  lemma AppliedExactly(c: Config, w: World, tx: DewTx)
    requires Supply(w.balances) < TwoTo256 && ApplyDewTx(c, w, tx).Applied?
    ensures
      var after := ApplyDewTx(c, w, tx).world.balances;
      (forall a: Address :: Balance(after, a) == Balance(w.balances, a) + Delta(c, w, tx, a))
      <==> Balance(w.balances, tx.sender) + Delta(c, w, tx, tx.sender) >= 0
  {
    hide Delta, Wrap, Transfers, Need, FeeSplit;
    var after := Transfers(c, w, tx);
    BalancesAreWords(w.balances);
    if Balance(w.balances, tx.sender) + Delta(c, w, tx, tx.sender) >= 0 {
      forall a: Address ensures Balance(after, a) == Balance(w.balances, a) + Delta(c, w, tx, a) {
        BalancesModulo(c, w, tx, a);
        LedgerInRange(c, w, tx, a);
        WrapOf(Balance(w.balances, a) + Delta(c, w, tx, a));
      }
    }
  }

  /** When the debit is not cut, the balance check is enough to afford the transaction. */
  lemma UncutIsAfforded(c: Config, w: World, tx: DewTx)
    requires ApplyDewTx(c, w, tx).Applied? && tx.amount + Extra(tx).amount + FeeOf(tx) < TwoTo256
    ensures Balance(w.balances, tx.sender) + Delta(c, w, tx, tx.sender) >= 0
  {
    WrapOf(tx.amount + Extra(tx).amount);
    WrapOf(tx.amount + Extra(tx).amount + FeeOf(tx));
  }

  lemma SameEntriesSameSum(m: map<Address, int>, n: map<Address, int>)
    requires m.Keys <= n.Keys && forall a: Address :: Entry(m, a) == Entry(n, a)
    ensures Sum(m) == Sum(n)
    decreases |n|
  {
    if m.Keys == n.Keys {
      forall a <- m.Keys ensures m[a] == n[a] { assert Entry(m, a) == Entry(n, a); }
      assert m == n;
    } else {
      var a :| a in n && a !in m;
      assert Entry(m, a) == Entry(n, a) == 0;
      SumRemove(n, a);
      assert (n - {a}).Keys == n.Keys - {a};
      forall x: Address ensures Entry(m, x) == Entry(n - {a}, x) { assert Entry(m, x) == Entry(n, x); }
      SameEntriesSameSum(m, n - {a});
    }
  }

  lemma TransferKeys(c: Config, w: World, tx: DewTx)
    ensures ToInts(Transfers(c, w, tx)).Keys <= Ledger(c, w, tx).Keys
  {
    hide DistributeIncome, Wrap;
  }

  /** A transaction whose amounts do not overflow keeps the supply, for every way the addresses coincide. */
  lemma SupplyIsKept(c: Config, w: World, tx: DewTx)
    requires Supply(w.balances) < TwoTo256 && ApplyDewTx(c, w, tx).Applied?
    requires tx.amount + Extra(tx).amount + FeeOf(tx) < TwoTo256
    ensures Supply(ApplyDewTx(c, w, tx).world.balances) == Supply(w.balances)
  {
    UncutIsAfforded(c, w, tx);
    AppliedExactly(c, w, tx);
    var after := ApplyDewTx(c, w, tx).world.balances;
    LedgerKeepsSupply(c, w, tx);
    TransferKeys(c, w, tx);
    assert after == Transfers(c, w, tx);
    hide Delta, Transfers, Ledger, Sum, ApplyDewTx;
    forall a: Address ensures Entry(ToInts(after), a) == Entry(Ledger(c, w, tx), a) {
      LedgerEntry(c, w, tx, a);
      assert Balance(after, a) == Balance(w.balances, a) + Delta(c, w, tx, a);
    }
    SameEntriesSameSum(ToInts(after), Ledger(c, w, tx));
  }

  /** Nothing moves outside the access list, the fee sink and the module; only the sender's nonce moves, by one. */
  lemma OnlyListedChange(c: Config, w: World, tx: DewTx, a: Address)
    requires WordsOnly(w.balances) && ApplyDewTx(c, w, tx).Applied?
    ensures
      var after := ApplyDewTx(c, w, tx).world;
      && (a !in Allowed(c, tx) && a != c.moduleAddress ==> Balance(after.balances, a) == Balance(w.balances, a))
      && Nonce(after.nonces, a) == if a == tx.sender then (tx.nonce + 1) % TwoTo64 else Nonce(w.nonces, a)
  {
    BalancesModulo(c, w, tx, a);
    WrapOf(Balance(w.balances, a));
  }

  /** When the sum of the amounts is cut, an applied transaction need not keep the supply. */
  lemma CutDebitBreaksConservation()
    ensures
      var w := World(map[1 := DefaultFee], map[], Pool(0, 0, false, 0, 0, 0, map[]));
      var tx := DewTx(TxVersion, 1, 2, TwoTo256 - 1, 0, 0, [], []);
      var r := ApplyDewTx(Config(3, 258, false), w, tx);
      r.Applied? && Balance(w.balances, 2) == 0 && Balance(r.world.balances, 2) == TwoTo256 - 1
  {
    var tx := DewTx(TxVersion, 1, 2, TwoTo256 - 1, 0, 0, [], []);
    WrapOf(TwoTo256 - 1);
    DivModUnique(TwoTo256 - 1 + DefaultFee, TwoTo256, 1, DefaultFee - 1);
    assert Need(tx) == DefaultFee - 1;
  }
}
