/**
 Runs of staking operations on one validator: total shares are the delegators' shares, rewards stay within the
 escrowed income plus rounding, a validator is slashed at most once and the slash takes no more than it should.
 */
module StakingRuns {
  import opened Arithmetic
  import opened MapSums
  import opened Staking

  ghost function Potentials(p: Pool): int {
    Sum(PotentialsOf(p.index, p.delegators))
  }

  /** Replacing one delegator and the total. */
  lemma ReplaceKeeps(p: Pool, d: Address, x: Delegator, total: nat)
    requires PoolOk(p) && InDebt(p.index, x) && total == p.total - Of(p, d).shares + x.shares
    ensures PoolOk(With(p, d, x).(total := total))
    ensures Potentials(With(p, d, x)) == Potentials(p) - Potential(p.index, Of(p, d)) + Potential(p.index, x)
  {
    WithShares(p.delegators, d, x);
    WithPotential(p.index, p.delegators, d, x);
    assert 0 * p.index == 0;
  }

  lemma OfIsInDebt(p: Pool, d: Address)
    requires PoolOk(p)
    ensures InDebt(p.index, Of(p, d)) && Of(p, d).shares <= p.total
  {
    SharesWithinSum(p.delegators, d);
    assert 0 * p.index == 0;
  }

  lemma SettleStep(p: Pool, d: Address)
    requires PoolOk(p) && SettleFits(p.index, Of(p, d))
    ensures PoolOk(SettleRewards(p, d)) && Potentials(SettleRewards(p, d)) == Potentials(p)
  {
    OfIsInDebt(p, d);
    SettleKeeps(p.index, Of(p, d));
    ReplaceKeeps(p, d, Settle(p.index, Of(p, d)), p.total);
    assert With(p, d, Settle(p.index, Of(p, d))).(total := p.total) == SettleRewards(p, d);
  }

  /** A claim pays exactly what is claimable, and takes it from the potentials. */
  lemma ClaimStep(p: Pool, d: Address)
    requires PoolOk(p) && SettleFits(p.index, Of(p, d))
    ensures
      var r := ClaimRewards(p, d);
      && (r.Done? <==> Claimable(p.index, Of(p, d)) != 0)
      && PoolOk(r.pool)
      && Potentials(r.pool) == Potentials(p) - Precision * (if r.Done? then r.wei else 0)
      && (r.Done? ==> r.wei == Claimable(p.index, Of(p, d)))
  {
    SettleStep(p, d);
    OfIsInDebt(p, d);
    SettleKeeps(p.index, Of(p, d));
    var settled := SettleRewards(p, d);
    var x := Of(settled, d);
    if x.pending != 0 {
      ReplaceKeeps(settled, d, x.(pending := 0), settled.total);
      assert With(settled, d, x.(pending := 0)).(total := settled.total) == ClaimRewards(p, d).pool;
    }
  }

  /** The exact amounts a delegation works with fit in 256 bits. */
  predicate DelegateFits(p: Pool, d: Address, amount: nat) {
    var next := Of(p, d).shares + amount * Precision / Rate(p);
    && SettleFits(p.index, Of(p, d))
    && amount * Precision < TwoTo256
    && p.total + amount * Precision / Rate(p) < TwoTo256
    && next * p.index < TwoTo256
  }

  /** A settled delegator with other shares, in the pool it came from. */
  lemma ResizeStep(p: Pool, d: Address, next: nat, total: nat)
    requires PoolOk(p) && SettleFits(p.index, Of(p, d)) && next * p.index < TwoTo256
    requires total == p.total - Of(p, d).shares + next
    ensures PoolOk(Resized(p, d, next, total))
      && Potentials(Resized(p, d, next, total)) <= Potentials(p) + Precision - 1
  {
    OfIsInDebt(p, d);
    SettleKeeps(p.index, Of(p, d));
    var y := Settle(p.index, Of(p, d));
    ResizeAddsLittle(p.index, y, next);
    var x := y.(shares := next, debt := DebtFor(p.index, next));
    ReplaceKeeps(p, d, x, total);
  }

  lemma DelegateShape(p: Pool, validator: Address, d: Address, amount: nat)
    requires DelegateFits(p, d, amount) && amount != 0 && validator != d && Of(p, d).shares <= p.total
    ensures
      var added := amount * Precision / Rate(p);
      Delegate(p, validator, d, amount) ==
      if added == 0 then Refused(SettleRewards(p, d), TooSmall)
      else Done(Resized(p, d, Of(p, d).shares + added, p.total + added), amount)
  {
  }

  lemma DelegateStep(p: Pool, validator: Address, d: Address, amount: nat)
    requires PoolOk(p) && DelegateFits(p, d, amount)
    ensures
      var r := Delegate(p, validator, d, amount);
      PoolOk(r.pool) && Potentials(r.pool) <= Potentials(p) + (if r.Done? then Precision - 1 else 0)
  {
    if amount == 0 || validator == d { return; }
    OfIsInDebt(p, d);
    DelegateShape(p, validator, d, amount);
    var added := amount * Precision / Rate(p);
    if added == 0 {
      SettleStep(p, d);
    } else {
      ResizeStep(p, d, Of(p, d).shares + added, p.total + added);
    }
  }

  predicate UndelegateFits(p: Pool, d: Address) {
    SettleFits(p.index, Of(p, d)) && Of(p, d).shares * Rate(p) < TwoTo256
  }

  lemma RateAtMostOne(p: Pool)
    requires PoolOk(p)
    ensures 0 < Rate(p) <= Precision
  {
  }

  /** The shares taken never exceed the delegator's or the total, so the clamp and the underflow error never happen. */
  lemma UndelegateShape(p: Pool, d: Address, amount: nat)
    requires UndelegateFits(p, d) && amount != 0 && Rate(p) <= Precision && Of(p, d).shares <= p.total
    ensures
      var x := Of(p, d);
      var taken := amount * Precision / Rate(p);
      if x.shares * Rate(p) / Precision < amount
      then Undelegate(p, d, amount) == Refused(SettleRewards(p, d), Insufficient)
      else if taken == 0 then Undelegate(p, d, amount) == Refused(SettleRewards(p, d), TooSmall)
      else
        && taken <= x.shares
        && Undelegate(p, d, amount) == Done(Resized(p, d, x.shares - taken, p.total - taken), amount)
  {
    var x := Of(p, d);
    if amount <= x.shares * Rate(p) / Precision {
      UndelegateRounding(Rate(p), x.shares, amount);
      assert amount * Precision <= x.shares * Rate(p);
    }
  }

  lemma TakeStep(p: Pool, d: Address, taken: nat)
    requires PoolOk(p) && SettleFits(p.index, Of(p, d)) && taken <= Of(p, d).shares <= p.total
    ensures
      var q := Resized(p, d, Of(p, d).shares - taken, p.total - taken);
      PoolOk(q) && Potentials(q) <= Potentials(p) + Precision - 1
  {
    MulMonotone(p.index, Of(p, d).shares - taken, Of(p, d).shares);
    ResizeStep(p, d, Of(p, d).shares - taken, p.total - taken);
  }

  lemma UndelegateStep(p: Pool, d: Address, amount: nat)
    requires PoolOk(p) && UndelegateFits(p, d)
    ensures
      var r := Undelegate(p, d, amount);
      && PoolOk(r.pool) && Potentials(r.pool) <= Potentials(p) + (if r.Done? then Precision - 1 else 0)
      && (r.Refused? ==> r.error != TotalUnderflow)
  {
    if amount == 0 { return; }
    RateAtMostOne(p);
    OfIsInDebt(p, d);
    UndelegateShape(p, d, amount);
    if Undelegate(p, d, amount).Done? {
      TakeStep(p, d, amount * Precision / Rate(p));
    } else {
      SettleStep(p, d);
    }
  }

  /** The wei queued plus the wei left exceed the wei before by at most one, and before a slash by none. */
  lemma UndelegateValue(p: Pool, d: Address, amount: nat)
    requires PoolOk(p) && UndelegateFits(p, d) && Undelegate(p, d, amount).Done?
    ensures
      var before := SharesToWei(Rate(p), Of(p, d).shares);
      var after := SharesToWei(Rate(p), Of(Undelegate(p, d, amount).pool, d).shares);
      && before <= after + amount <= before + 1
      && (p.rate == 0 ==> after + amount == before)
  {
    OfIsInDebt(p, d);
    var x := Of(p, d);
    RateAtMostOne(p);
    UndelegateShape(p, d, amount);
    UndelegateRounding(Rate(p), x.shares, amount);
    var taken := amount * Precision / Rate(p);
    MulMonotone(Rate(p), x.shares - taken, x.shares);
    assert Of(Undelegate(p, d, amount).pool, d).shares == x.shares - taken;
  }

  /* ---------- income ---------- */

  /** Splitting an amount in the ratio of two parts: one side rounded down, the other up. */
  lemma RatioSplit(amount: nat, part: nat, fee: nat, kept: nat)
    requires part + fee > 0 && kept == amount * part / (part + fee)
    ensures kept <= amount
    ensures kept * (part + fee) <= amount * part < (kept + 1) * (part + fee)
    ensures (amount - kept - 1) * (part + fee) < amount * fee <= (amount - kept) * (part + fee)
  {
    var whole := part + fee;
    var rest := amount * part % whole;
    assert amount * part == whole * kept + rest;
    Distribute(amount, part, fee);
    DistributeMinus(whole, amount, kept);
    DistributeMinus(whole, amount - kept, 1);
    Distribute(whole, kept, 1);
    if kept > amount {
      MulMonotone(whole, amount + 1, kept);
      Distribute(whole, amount, 1);
      assert false;
    }
  }

  /** Nothing is cut in the stakes, and what is not earning is the delegated stake less commission. */
  lemma StakesExact(self: nat, delegated: nat, commission: nat)
    requires commission <= MaxBps && (self + delegated) * MaxBps < TwoTo256
    ensures WholeStake(self, delegated) == (self + delegated) * MaxBps
    ensures EarningStake(self, delegated, commission) == self * MaxBps + delegated * commission
    ensures WholeStake(self, delegated) - EarningStake(self, delegated, commission) == delegated * (MaxBps - commission)
  {
    DistributeMinus(delegated, MaxBps, commission);
    MulMonotone(delegated, commission, MaxBps);
  }

  /**
   The proposer gets the earning part of an income, rounded down, and the delegators the rest, rounded up: the cap
   at the whole amount never applies.
   */
  lemma IncomeSplit(amount: nat, earning: nat, whole: nat)
    requires 0 < whole && earning <= whole && amount * earning < TwoTo256
    ensures
      var kept := ProposerPart(amount, earning, whole);
      && kept == amount * earning / whole
      && kept * whole <= amount * earning < (kept + 1) * whole
      && (amount - kept - 1) * whole < amount * (whole - earning) <= (amount - kept) * whole
  {
    RatioSplit(amount, earning, whole - earning, amount * earning / whole);
  }

  lemma DebtsGrowSlower(index: nat, more: nat, m: map<Address, Delegator>)
    requires forall d <- m.Keys :: InDebt(index, m[d])
    ensures forall d <- m.Keys :: InDebt(index + more, m[d])
  {
    forall d <- m.Keys ensures InDebt(index + more, m[d]) {
      DebtGrowsSlower(index, more, m[d]);
    }
  }

  lemma IndexRaised(p: Pool, more: nat, part: nat)
    requires PoolOk(p) && more * p.total <= Precision * part
    ensures PoolOk(p.(index := p.index + more))
    ensures Potentials(p.(index := p.index + more)) <= Potentials(p) + Precision * part
  {
    RaiseIndex(p.index, more, p.delegators);
    DebtsGrowSlower(p.index, more, p.delegators);
  }

  lemma PerShare(part: nat, total: nat)
    requires total > 0
    ensures part * Precision / total * total <= Precision * part
  {
    assert part * Precision == total * (part * Precision / total) + part * Precision % total;
  }

  predicate AccrueFits(p: Pool, amount: nat) {
    amount * Precision < TwoTo256 && (p.total != 0 ==> p.index + amount * Precision / p.total < TwoTo256)
  }

  /** The index rises by the reward per share, uncut. */
  lemma RaiseShape(p: Pool, amount: nat, rest: nat)
    requires AccrueFits(p, amount) && 0 < rest <= amount && p.total > 0
    ensures
      var more := rest * Precision / p.total;
      IncreaseRewardIndex(p, rest, p.total) == p.(index := p.index + more) && more * p.total <= Precision * rest
  {
    FractionFits(amount, rest, p.total);
    PerShare(rest, p.total);
  }

  /** The delegators are owed the part, short of less than one wei for each whole share, and never more. */
  lemma RaiseStep(p: Pool, part: nat)
    requires PoolOk(p) && AccrueFits(p, part) && p.total > 0
    ensures
      var q := IncreaseRewardIndex(p, part, p.total);
      && PoolOk(q) && Potentials(q) <= Potentials(p) + Precision * part
      && (q.index - p.index) * p.total <= Precision * part < (q.index - p.index + 1) * p.total
  {
    hide PoolOk, Potentials;
    RaiseExactly(p, part);
    PerShare(part, p.total);
    NextShare(part, p.total);
    hide AccrueFits, IncreaseRewardIndex;
    IndexRaised(p, part * Precision / p.total, part);
  }

  lemma RaiseExactly(p: Pool, part: nat)
    requires AccrueFits(p, part) && p.total > 0
    ensures IncreaseRewardIndex(p, part, p.total) == p.(index := p.index + part * Precision / p.total)
  {
    if part > 0 {
      RaiseShape(p, part, part);
    }
  }

  lemma NextShare(part: nat, total: nat)
    requires total > 0
    ensures Precision * part < (part * Precision / total + 1) * total
  {
    assert part * Precision == total * (part * Precision / total) + part * Precision % total;
    Distribute(total, part * Precision / total, 1);
  }

  lemma AccrueStep(p: Pool, amount: nat, kept: nat)
    requires PoolOk(p) && AccrueFits(p, amount) && kept <= amount
    ensures
      var r := Accrue(p, amount, kept);
      && r.proposer + r.escrowed == amount && PoolOk(r.pool)
      && Potentials(r.pool) <= Potentials(p) + Precision * r.escrowed
  {
    if kept != amount && p.total != 0 {
      RaiseShape(p, amount, amount - kept);
      IndexRaised(p, (amount - kept) * Precision / p.total, amount - kept);
    }
  }

  /** Income is split without loss, and raises the potentials by no more than what is escrowed. */
  lemma IncomeStep(p: Pool, amount: nat)
    requires PoolOk(p) && AccrueFits(p, amount)
    ensures
      var r := DistributeIncome(p, amount);
      && r.proposer + r.escrowed == amount && PoolOk(r.pool)
      && Potentials(r.pool) <= Potentials(p) + Precision * r.escrowed
  {
    var delegated := SharesToWei(Rate(p), p.total);
    if amount != 0 && Add256(p.self, delegated) != 0 {
      AccrueStep(p, amount,
                 ProposerPart(amount, EarningStake(p.self, delegated, p.commission), WholeStake(p.self, delegated)));
    }
  }

  lemma FractionFits(amount: nat, part: nat, total: nat)
    requires part <= amount && total > 0
    ensures part * Precision <= amount * Precision && part * Precision / total <= amount * Precision / total
  {
    var a, b := part * Precision, amount * Precision;
    assert a == total * (a / total) + a % total && b == total * (b / total) + b % total;
    if a / total > b / total {
      MulMonotone(total, b / total + 1, a / total);
      Distribute(total, b / total, 1);
      assert false;
    }
  }

  /* ---------- slashing ---------- */

  predicate SlashFits(p: Pool) {
    p.total * Rate(p) < TwoTo256 && p.self * SelfBurnBps < TwoTo256 && p.total * DelegatorBurnBps < TwoTo256
  }

  /**
   The one slash of a validator burns all self stake, and delegator burn and remaining delegation together stay
   within the delegation before; the minimum rate is never needed.
   */
  lemma SlashStep(p: Pool, balance: nat)
    requires PoolOk(p) && SlashFits(p) && !p.jailed
    ensures
      var (r, burn) := (SlashAndJail(p, balance), SlashAmounts(p));
      && PoolOk(r.pool) && r.pool.jailed && r.pool.self == 0 && r.pool.delegators == p.delegators
      && r.pool.index == p.index
      && burn.self == p.self
      && burn.delegated + SharesToWei(Rate(r.pool), p.total) <= SharesToWei(Rate(p), p.total) == p.total
      && SlashedRate(Rate(p)) == RateAfterSlash
      && (burn.self + burn.delegated <= balance < TwoTo256 ==> r.wei == burn.self + burn.delegated)
  {
    assert Rate(p) == Precision;
    assert p.total * Precision / Precision == p.total;
    assert p.self * SelfBurnBps / MaxBps == p.self;
    assert p.total * RateAfterSlash <= p.total * Precision;
  }

  /* ---------- whole runs ---------- */

  datatype Action =
    | ActDelegate(delegator: Address, amount: nat)
    | ActUndelegate(delegator: Address, amount: nat)
    | ActSettle(delegator: Address)
    | ActClaim(delegator: Address)
    | ActIncome(amount: nat)
    | ActSlash(balance: nat)
    | ActJail
    | ActCommission(bps: nat)
    | ActSelfStake(self: nat)

  /** Rewards claimed, income escrowed for delegators, completed delegations and undelegations, slashes. */
  datatype Trace = Trace(pool: Pool, claimed: nat, escrowed: nat, resizes: nat, slashes: nat)

  /** No 256-bit word of the call is cut. */
  predicate Fits(p: Pool, act: Action) {
    match act
    case ActDelegate(d, amount) => DelegateFits(p, d, amount)
    case ActUndelegate(d, _) => UndelegateFits(p, d)
    case ActSettle(d) => SettleFits(p.index, Of(p, d))
    case ActClaim(d) => SettleFits(p.index, Of(p, d))
    case ActIncome(amount) => AccrueFits(p, amount)
    case ActSlash(_) => SlashFits(p)
    case _ => true
  }

  function Next(validator: Address, t: Trace, act: Action): Trace {
    var p := t.pool;
    match act
    case ActDelegate(d, amount) =>
      var r := Delegate(p, validator, d, amount);
      t.(pool := r.pool, resizes := t.resizes + if r.Done? then 1 else 0)
    case ActUndelegate(d, amount) =>
      var r := Undelegate(p, d, amount);
      t.(pool := r.pool, resizes := t.resizes + if r.Done? then 1 else 0)
    case ActSettle(d) => t.(pool := SettleRewards(p, d))
    case ActClaim(d) =>
      var r := ClaimRewards(p, d);
      t.(pool := r.pool, claimed := t.claimed + if r.Done? then r.wei else 0)
    case ActIncome(amount) =>
      var r := DistributeIncome(p, amount);
      t.(pool := r.pool, escrowed := t.escrowed + r.escrowed)
    case ActSlash(balance) =>
      t.(pool := SlashAndJail(p, balance).pool, slashes := t.slashes + if p.jailed then 0 else 1)
    case ActJail => t.(pool := p.(jailed := true))
    case ActCommission(bps) => t.(pool := SetCommission(p, bps).pool)
    case ActSelfStake(self) => t.(pool := p.(self := self))
  }

  ghost predicate Within(potentials: int, t: Trace) {
    Precision * t.claimed + potentials <= Precision * t.escrowed + (Precision - 1) * t.resizes
  }

  ghost predicate TraceOk(t: Trace) {
    && PoolOk(t.pool)
    && Within(Potentials(t.pool), t)
    && t.slashes <= (if t.pool.jailed then 1 else 0)
  }

  /** Calls that raise no potential. */
  lemma QuietKeeps(validator: Address, t: Trace, act: Action)
    requires TraceOk(t) && Fits(t.pool, act) && !act.ActDelegate? && !act.ActUndelegate? && !act.ActIncome?
    ensures TraceOk(Next(validator, t, act))
  {
    match act
    case ActSettle(d) => SettleStep(t.pool, d);
    case ActClaim(d) => ClaimStep(t.pool, d);
    case ActSlash(balance) => if !t.pool.jailed { SlashStep(t.pool, balance); }
    case _ =>
  }

  lemma DelegateKeeps(validator: Address, t: Trace, d: Address, amount: nat)
    requires TraceOk(t) && DelegateFits(t.pool, d, amount)
    ensures TraceOk(Next(validator, t, ActDelegate(d, amount)))
  {
    hide PoolOk, Potentials, Delegate, DelegateFits;
    DelegateStep(t.pool, validator, d, amount);
    DelegateJails(t.pool, validator, d, amount);
  }

  lemma DelegateJails(p: Pool, validator: Address, d: Address, amount: nat)
    ensures Delegate(p, validator, d, amount).pool.jailed == p.jailed
    ensures Undelegate(p, d, amount).pool.jailed == p.jailed
  {
  }

  lemma UndelegateKeeps(validator: Address, t: Trace, d: Address, amount: nat)
    requires TraceOk(t) && UndelegateFits(t.pool, d)
    ensures TraceOk(Next(validator, t, ActUndelegate(d, amount)))
  {
    hide PoolOk, Potentials, Undelegate, UndelegateFits;
    UndelegateStep(t.pool, d, amount);
    DelegateJails(t.pool, validator, d, amount);
  }

  lemma NextKeeps(validator: Address, t: Trace, act: Action)
    requires TraceOk(t) && Fits(t.pool, act)
    ensures TraceOk(Next(validator, t, act))
  {
    match act
    case ActDelegate(d, amount) => DelegateKeeps(validator, t, d, amount);
    case ActUndelegate(d, amount) => UndelegateKeeps(validator, t, d, amount);
    case ActIncome(amount) => IncomeStep(t.pool, amount);
    case _ => QuietKeeps(validator, t, act);
  }

  const EmptyPool := Pool(0, 0, false, 0, 0, 0, map[])

  ghost predicate Run(validator: Address, ts: seq<Trace>, acts: seq<Action>) {
    && |ts| == |acts| + 1
    && ts[0] == Trace(EmptyPool, 0, 0, 0, 0)
    && (forall i | 0 <= i < |acts| :: Fits(ts[i].pool, acts[i]) && ts[i + 1] == Next(validator, ts[i], acts[i]))
  }

  lemma {:induction false} RunsKeep(validator: Address, ts: seq<Trace>, acts: seq<Action>, n: nat)
    requires Run(validator, ts, acts) && n < |ts|
    ensures TraceOk(ts[n])
  {
    if n == 0 {
      assert SharesOf(map[]) == map[] && PotentialsOf(0, map[]) == map[];
    } else {
      RunsKeep(validator, ts, acts, n - 1);
      NextKeeps(validator, ts[n - 1], acts[n - 1]);
      assert ts[n - 1 + 1] == Next(validator, ts[n - 1], acts[n - 1]);
    }
  }

  ghost function ClaimablesOf(index: nat, m: map<Address, Delegator>): map<Address, int> {
    map d | d in m :: Claimable(index, m[d])
  }

  lemma ClaimablesWithinPotentials(index: nat, m: map<Address, Delegator>)
    ensures Precision * Sum(ClaimablesOf(index, m)) <= Sum(PotentialsOf(index, m))
  {
    var c := ClaimablesOf(index, m);
    SumScaled(Precision, c);
    forall d <- m.Keys ensures Scaled(Precision, c)[d] <= PotentialsOf(index, m)[d] {
      ClaimableWithinPotential(index, m[d]);
    }
    SumMonotone(Scaled(Precision, c), PotentialsOf(index, m));
  }

  /**
   In every run whose words fit: rewards claimed and still claimable stay within the income escrowed plus one wei per
   delegation or undelegation, and the total is the sum of all shares.
   */
  lemma RewardsAreBounded(validator: Address, ts: seq<Trace>, acts: seq<Action>, n: nat)
    requires Run(validator, ts, acts) && n < |ts|
    ensures ts[n].claimed + Sum(ClaimablesOf(ts[n].pool.index, ts[n].pool.delegators)) <= ts[n].escrowed + ts[n].resizes
    ensures ts[n].pool.total == Sum(SharesOf(ts[n].pool.delegators))
    ensures ts[n].slashes <= 1
  {
    RunsKeep(validator, ts, acts, n);
    ClaimablesWithinPotentials(ts[n].pool.index, ts[n].pool.delegators);
  }

  /**
   In every run whose words fit, a validator not yet jailed has its initial rate, so its slash takes no more than it
   should; and delegators' effective stakes never sum to more than the delegated total.
   */
  lemma SlashesAreFair(validator: Address, ts: seq<Trace>, acts: seq<Action>, n: nat, balance: nat)
    requires Run(validator, ts, acts) && n < |ts| && SlashFits(ts[n].pool)
    ensures
      var (p, burn) := (ts[n].pool, SlashAmounts(ts[n].pool));
      && Sum(EffectiveOf(Rate(p), p.delegators)) <= SharesToWei(Rate(p), p.total)
      && (p.jailed ==> SlashAndJail(p, balance) == Done(p, 0))
      && (!p.jailed ==>
            burn.self == p.self &&
            burn.delegated + SharesToWei(Rate(SlashAndJail(p, balance).pool), p.total) <= SharesToWei(Rate(p), p.total))
  {
    RunsKeep(validator, ts, acts, n);
    EffectiveWithinTotal(ts[n].pool);
    if !ts[n].pool.jailed {
      SlashStep(ts[n].pool, balance);
    }
  }

  /* ---------- the rounding is real ---------- */

  const Half: nat := 500_000_000_000_000_000

  /**
   The bound without the rounding fails: two shares earn one wei, two more delegators join with one share each at a
   half-grown index, two wei more arrive, and four wei in all can be claimed out of three.
   */
  lemma ClaimsCanExceedIncome()
    ensures
      var one := DistributeIncome(Delegate(EmptyPool, 9, 1, 2).pool, 1);
      var two := Delegate(Delegate(one.pool, 9, 2, 1).pool, 9, 3, 1).pool;
      var three := DistributeIncome(two, 2);
      && one.escrowed == 1 && three.escrowed == 2
      && Claimable(three.pool.index, Of(three.pool, 1)) + Claimable(three.pool.index, Of(three.pool, 2))
         + Claimable(three.pool.index, Of(three.pool, 3)) == 4
  {
    var start := Delegate(EmptyPool, 9, 1, 2).pool;
    assert start == Pool(0, 0, false, 0, 2, 0, map[1 := Delegator(2, 0, 0)]);
    var one := DistributeIncome(start, 1);
    assert one == Split(start.(index := Half), 0, 1);
    var joined := Delegate(one.pool, 9, 2, 1).pool;
    assert joined == start.(index := Half, total := 3, delegators := start.delegators[2 := Delegator(1, 0, 0)]);
    var two := Delegate(joined, 9, 3, 1).pool;
    assert two == joined.(total := 4, delegators := joined.delegators[3 := Delegator(1, 0, 0)]);
    var three := DistributeIncome(two, 2);
    assert three == Split(two.(index := Precision), 0, 2);
  }
}
