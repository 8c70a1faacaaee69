/** What the calls of the staking module do to a pool in order, said from their arguments in exact numbers. */
module StakingEffects {
  import opened Arithmetic
  import opened Staking
  import opened StakingRuns

  /** Every other delegator, and everything that is not a delegator's or the total, stays. */
  ghost predicate OnlyDelegator(p: Pool, q: Pool, d: Address) {
    && q == p.(total := q.total, delegators := q.delegators)
    && forall x: Address :: x != d ==> Of(q, x) == Of(p, x)
  }

  /** The delegator holds the given shares, all its rewards so far are pending, and none are lost. */
  ghost predicate Holds(p: Pool, q: Pool, d: Address, shares: nat) {
    && OnlyDelegator(p, q, d)
    && Of(q, d) == Delegator(shares, shares * p.index / Precision, Of(q, d).pending)
    && Of(q, d).pending == Claimable(p.index, Of(p, d)) == Claimable(p.index, Of(q, d))
    && q.total == p.total - Of(p, d).shares + shares
  }

  lemma SettleEffect(p: Pool, d: Address)
    requires PoolOk(p) && SettleFits(p.index, Of(p, d))
    ensures Holds(p, SettleRewards(p, d), d, Of(p, d).shares)
  {
    OfIsInDebt(p, d);
    SettleKeeps(p.index, Of(p, d));
  }

  lemma ResizeEffect(p: Pool, d: Address, next: nat, total: nat)
    requires PoolOk(p) && SettleFits(p.index, Of(p, d)) && next * p.index < TwoTo256
    requires total == p.total - Of(p, d).shares + next
    ensures Holds(p, Resized(p, d, next, total), d, next)
  {
    OfIsInDebt(p, d);
    SettleKeeps(p.index, Of(p, d));
  }

  /** A delegation adds the shares its wei buys at the rate, rounded down; it is refused when that is none. */
  lemma DelegateEffect(p: Pool, validator: Address, d: Address, amount: nat)
    requires PoolOk(p) && DelegateFits(p, d, amount)
    ensures
      var added := amount * Precision / Rate(p);
      match Delegate(p, validator, d, amount)
      case Done(q, wei) =>
        amount != 0 && validator != d && added != 0 && wei == amount && Holds(p, q, d, Of(p, d).shares + added)
      case Refused(q, e) =>
        || (e == ZeroAmount && amount == 0 && q == p)
        || (e == SelfDelegation && amount != 0 && validator == d && q == p)
        || (e == TooSmall && amount != 0 && validator != d && added == 0 && Holds(p, q, d, Of(p, d).shares))
  {
    OfIsInDebt(p, d);
    if amount != 0 && validator != d {
      DelegateShape(p, validator, d, amount);
      var added := amount * Precision / Rate(p);
      if added == 0 {
        SettleEffect(p, d);
      } else {
        ResizeEffect(p, d, Of(p, d).shares + added, p.total + added);
      }
    }
  }

  lemma TakeEffect(p: Pool, d: Address, taken: nat)
    requires PoolOk(p) && SettleFits(p.index, Of(p, d)) && taken <= Of(p, d).shares <= p.total
    ensures Holds(p, Resized(p, d, Of(p, d).shares - taken, p.total - taken), d, Of(p, d).shares - taken)
  {
    MulMonotone(p.index, Of(p, d).shares - taken, Of(p, d).shares);
    ResizeEffect(p, d, Of(p, d).shares - taken, p.total - taken);
  }

  /** An undelegation takes the shares of its wei, rounded down; it is refused when the delegator has not got them. */
  ghost predicate Undelegated(p: Pool, d: Address, amount: nat, r: Outcome) {
    var (taken, worth) := (amount * Precision / Rate(p), Of(p, d).shares * Rate(p) / Precision);
    match r
    case Done(q, wei) =>
      && 0 < amount <= worth && 0 < taken <= Of(p, d).shares && wei == amount
      && Holds(p, q, d, Of(p, d).shares - taken)
    case Refused(q, e) =>
      || (e == ZeroAmount && amount == 0 && q == p)
      || (e == Insufficient && worth < amount && Holds(p, q, d, Of(p, d).shares))
      || (e == TooSmall && 0 < amount <= worth && taken == 0 && Holds(p, q, d, Of(p, d).shares))
  }

  lemma UndelegateEffect(p: Pool, d: Address, amount: nat)
    requires PoolOk(p) && UndelegateFits(p, d)
    ensures Undelegated(p, d, amount, Undelegate(p, d, amount))
  {
    if amount != 0 {
      RateAtMostOne(p);
      OfIsInDebt(p, d);
      UndelegateShape(p, d, amount);
      hide PoolOk, Undelegate, Holds, Resized, SettleRewards;
      if Undelegate(p, d, amount).Done? {
        TakeEffect(p, d, amount * Precision / Rate(p));
      } else {
        SettleEffect(p, d);
      }
    }
  }

  lemma UndelegatedWei(p: Pool, d: Address, amount: nat)
    ensures Undelegate(p, d, amount).Done? ==> Undelegate(p, d, amount).wei == amount
  {
  }

  lemma OkCommission(p: Pool)
    requires PoolOk(p)
    ensures p.commission <= MaxBps
  {
  }

  /** A claim pays all that is claimable and leaves the delegator its shares with nothing pending. */
  lemma ClaimEffect(p: Pool, d: Address)
    requires PoolOk(p) && SettleFits(p.index, Of(p, d))
    ensures
      var x := Of(p, d);
      match ClaimRewards(p, d)
      case Done(q, wei) =>
        && wei == Claimable(p.index, x) > 0 && OnlyDelegator(p, q, d) && q.total == p.total
        && Of(q, d) == Delegator(x.shares, x.shares * p.index / Precision, 0)
      case Refused(q, e) => e == NoRewards && Claimable(p.index, x) == 0 && Holds(p, q, d, x.shares)
  {
    OfIsInDebt(p, d);
    SettleKeeps(p.index, Of(p, d));
    SettleEffect(p, d);
  }

  /* ---------- income ---------- */

  /** The stakes the split is computed from fit in 256 bits. */
  predicate SplitFits(p: Pool, amount: nat) {
    var whole := (p.self + DelegatedWei(p)) * MaxBps;
    p.total * Rate(p) < TwoTo256 && whole < TwoTo256 && amount * whole < TwoTo256
  }

  function DelegatedWei(p: Pool): nat {
    p.total * Rate(p) / Precision
  }

  /**
   What the proposer keeps of an income: the part of its own stake, and the commission on the delegated part, rounded
   down. Without stake it keeps all.
   */
  function KeptPart(p: Pool, amount: nat): nat {
    var whole := (p.self + DelegatedWei(p)) * MaxBps;
    if whole == 0 then amount else amount * (p.self * MaxBps + DelegatedWei(p) * p.commission) / whole
  }

  /** The rest is escrowed for the delegators; without shares the proposer keeps that too. */
  ghost predicate Shared(p: Pool, amount: nat, s: Split) {
    s.proposer == (if p.total == 0 then amount else KeptPart(p, amount)) && s.escrowed == amount - s.proposer
  }

  lemma EarningIsPart(p: Pool, amount: nat)
    requires p.commission <= MaxBps && SplitFits(p, amount)
    ensures
      var earning := p.self * MaxBps + DelegatedWei(p) * p.commission;
      earning <= (p.self + DelegatedWei(p)) * MaxBps && amount * earning < TwoTo256
  {
    var earning := p.self * MaxBps + DelegatedWei(p) * p.commission;
    MulMonotone(DelegatedWei(p), p.commission, MaxBps);
    MulMonotone(amount, earning, (p.self + DelegatedWei(p)) * MaxBps);
  }

  lemma KeptExactly(p: Pool, amount: nat)
    requires p.commission <= MaxBps && SplitFits(p, amount)
    ensures
      var delegated := DelegatedWei(p);
      && SharesToWei(Rate(p), p.total) == delegated && Add256(p.self, delegated) == p.self + delegated
      && KeptPart(p, amount) <= amount
      && (p.self + delegated != 0 ==>
            ProposerPart(amount, EarningStake(p.self, delegated, p.commission), WholeStake(p.self, delegated)) ==
            KeptPart(p, amount))
  {
    var delegated := DelegatedWei(p);
    EarningIsPart(p, amount);
    StakesExact(p.self, delegated, p.commission);
    if p.self + delegated != 0 {
      IncomeSplit(amount, EarningStake(p.self, delegated, p.commission), WholeStake(p.self, delegated));
    }
  }

  /** The index rises by the escrowed part per share; nothing else in the pool changes. */
  ghost predicate Indexed(p: Pool, s: Split) {
    s.pool == p.(index := p.index + if p.total == 0 then 0 else s.escrowed * Precision / p.total)
  }

  lemma AccrueEffect(p: Pool, amount: nat, kept: nat)
    requires AccrueFits(p, amount) && kept <= amount
    ensures
      var s := Accrue(p, amount, kept);
      Indexed(p, s) && s.proposer == (if p.total == 0 then amount else kept) && s.escrowed == amount - s.proposer
  {
    if kept != amount && p.total != 0 {
      RaiseShape(p, amount, amount - kept);
    }
  }

  lemma IncomeEffect(p: Pool, amount: nat)
    requires p.commission <= MaxBps && SplitFits(p, amount) && AccrueFits(p, amount)
    ensures Shared(p, amount, DistributeIncome(p, amount)) && Indexed(p, DistributeIncome(p, amount))
  {
    KeptExactly(p, amount);
    AccrueEffect(p, amount, KeptPart(p, amount));
    if amount == 0 || p.self + DelegatedWei(p) == 0 {
      NothingToShare(p, amount);
    } else {
      hide Accrue, KeptPart, DelegatedWei, ProposerPart, EarningStake, WholeStake, SharesToWei, Add256, Indexed;
    }
  }

  lemma NothingToShare(p: Pool, amount: nat)
    requires amount == 0 || p.self + DelegatedWei(p) == 0
    ensures KeptPart(p, amount) == amount && Indexed(p, Split(p, amount, 0))
  {
    if amount == 0 {
      assert 0 * (p.self * MaxBps + DelegatedWei(p) * p.commission) == 0;
    }
  }

  /* ---------- commission ---------- */

  /** A commission of at most all is set, and nothing else; a higher one is refused. */
  lemma CommissionEffect(p: Pool, bps: nat)
    ensures
      match SetCommission(p, bps)
      case Done(q, _) => bps <= 10_000 && q.commission == bps && q == p.(commission := q.commission)
      case Refused(q, e) => bps > 10_000 && q == p && e == BadCommission
  {
  }

  /* ---------- slashing ---------- */

  /** A slash burns all self stake and a twentieth of the delegation, and jails; a second one does nothing. */
  ghost predicate Slashed(p: Pool, balance: nat, q: Pool, burnt: nat) {
    if p.jailed then q == p && burnt == 0 else
    var delegated := p.total / 20;
    && q == p.(self := 0, jailed := true, rate := if delegated == 0 then p.rate else RateAfterSlash)
    && (p.self + delegated < TwoTo256 ==> burnt == if balance < p.self + delegated then balance else p.self + delegated)
  }

  lemma SlashEffect(p: Pool, balance: nat)
    requires PoolOk(p) && SlashFits(p)
    ensures
      var r := SlashAndJail(p, balance);
      r.Done? && Slashed(p, balance, r.pool, r.wei)
  {
    if !p.jailed {
      SlashStep(p, balance);
      BurnIsTwentieth(p);
    }
  }

  lemma BurnIsTwentieth(p: Pool)
    requires SlashFits(p) && p.rate == 0
    ensures SlashAmounts(p) == Burn(p.self, p.total / 20)
  {
    assert p.total * Precision / Precision == p.total;
    assert p.self * SelfBurnBps / MaxBps == p.self;
    assert p.total * DelegatorBurnBps / MaxBps == p.total / 20;
  }
}
