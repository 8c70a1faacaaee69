/** The staking module over its storage, for one validator: calls that change the slots in place. */
module StakingModule {
  import opened Arithmetic
  import opened Options
  import opened Staking
  import opened StakingRuns
  import opened StakingEffects

  class Module {
    const validator: Address
    var self: nat
    var rate: nat
    var jailed: bool
    var commission: nat
    var total: nat
    var index: nat
    var delegators: map<Address, Delegator>

    constructor (validator: Address)
      ensures this.validator == validator && State() == Pool(0, 0, false, 0, 0, 0, map[])
    {
      this.validator := validator;
      self, rate, jailed, commission, total, index, delegators := 0, 0, false, 0, 0, 0, map[];
    }

    ghost function State(): Pool
      reads this
    {
      Pool(self, rate, jailed, commission, total, index, delegators)
    }

    function Get(d: Address): (x: Delegator)
      reads this
      ensures x == Of(State(), d)
    {
      if d in delegators then delegators[d] else Delegator(0, 0, 0)
    }

    function DelRate(): (r: nat)
      reads this
      ensures r == Rate(State()) > 0
    {
      if rate == 0 then Precision else rate
    }

    method SettleRewards(d: Address)
      modifies this`delegators
      ensures State() == Staking.SettleRewards(old(State()), d)
      ensures Of(State(), d) == Settle(index, Of(old(State()), d))
        && Of(State(), d).shares == Of(old(State()), d).shares
      ensures PoolOk(old(State())) && SettleFits(index, Of(old(State()), d)) ==>
        && PoolOk(State()) && Potentials(State()) == Potentials(old(State()))
        && Get(d).pending == Claimable(index, old(Get(d))) && Claimable(index, Get(d)) == Get(d).pending
    {
      hide PoolOk, SettleFits, Potentials;
      if PoolOk(State()) && SettleFits(index, Get(d)) {
        OfIsInDebt(State(), d);
        SettleKeeps(index, Get(d));
        assert Settle(index, Get(d)).pending == Claimable(index, Get(d)) == Claimable(index, Settle(index, Get(d)));
        SettleStep(State(), d);
      }
      var x := Get(d);
      var owed := DebtFor(index, x.shares);
      if owed > x.debt {
        x := x.(pending := Add256(x.pending, owed - x.debt));
      }
      delegators := delegators[d := x.(debt := owed)];
    }

    method ClaimRewards(d: Address) returns (error: Option<Error>, wei: nat)
      modifies this`delegators
      ensures
        match Staking.ClaimRewards(old(State()), d)
        case Refused(p, e) => error == Some(e) && State() == p
        case Done(p, w) => error == None && State() == p && wei == w
      ensures PoolOk(old(State())) && SettleFits(index, Of(old(State()), d)) ==>
        PoolOk(State()) && (if error == None then wei else 0) == Claimable(index, Of(old(State()), d))
    {
      hide PoolOk, SettleFits, Potentials;
      if PoolOk(State()) && SettleFits(index, Of(State(), d)) {
        ClaimStep(State(), d);
      }
      SettleRewards(d);
      wei := Get(d).pending;
      if wei == 0 { return Some(NoRewards), 0; }
      delegators := delegators[d := Get(d).(pending := 0)];
      error := None;
    }

    /** Writes a delegator's shares, the total, and the debt that goes with the shares. */
    method Resize(d: Address, next: nat, newTotal: nat)
      modifies this`delegators, this`total
      ensures total == newTotal
      ensures delegators == old(delegators)[d := Of(old(State()), d).(shares := next, debt := DebtFor(index, next))]
    {
      hide DebtFor;
      delegators := delegators[d := Get(d).(shares := next)];
      total := newTotal;
      delegators := delegators[d := Get(d).(debt := DebtFor(index, next))];
    }

    method Delegate(d: Address, amount: nat) returns (error: Option<Error>)
      modifies this`delegators, this`total
      ensures
        match Staking.Delegate(old(State()), validator, d, amount)
        case Refused(p, e) => error == Some(e) && State() == p
        case Done(p, _) => error == None && State() == p
      ensures PoolOk(old(State())) && DelegateFits(old(State()), d, amount) ==>
        && PoolOk(State())
        && (error.None? ==> Holds(old(State()), State(), d, old(Get(d)).shares + amount * Precision / old(DelRate())))
    {
      hide PoolOk, DelegateFits, WeiToShares, DebtFor, Add256, Settle, Potentials, Holds;
      if PoolOk(State()) && DelegateFits(State(), d, amount) {
        DelegateEffect(State(), validator, d, amount);
        DelegateStep(State(), validator, d, amount);
      }
      if amount == 0 { return Some(ZeroAmount); }
      if validator == d { return Some(SelfDelegation); }
      SettleRewards(d);
      var added := WeiToShares(DelRate(), amount);
      if added == 0 { return Some(TooSmall); }
      var next := Add256(Get(d).shares, added);
      Resize(d, next, Add256(total, added));
      assert State() == Resized(old(State()), d, next, total);
      return None;
    }

    method Undelegate(d: Address, amount: nat) returns (error: Option<Error>)
      modifies this`delegators, this`total
      ensures
        match Staking.Undelegate(old(State()), d, amount)
        case Refused(p, e) => error == Some(e) && State() == p
        case Done(p, _) => error == None && State() == p
      ensures PoolOk(old(State())) && UndelegateFits(old(State()), d) ==>
        && PoolOk(State()) && error != Some(TotalUnderflow)
        && Undelegated(old(State()), d, amount,
                       if error.None? then Done(State(), amount) else Refused(State(), error.value))
    {
      hide PoolOk, UndelegateFits, SharesToWei, WeiToShares, DebtFor, Settle, Potentials, Undelegated;
      if PoolOk(State()) && UndelegateFits(State(), d) {
        UndelegateEffect(State(), d, amount);
        UndelegatedWei(State(), d, amount);
        UndelegateStep(State(), d, amount);
      }
      if amount == 0 { return Some(ZeroAmount); }
      SettleRewards(d);
      var shares := Get(d).shares;
      if SharesToWei(DelRate(), shares) < amount { return Some(Insufficient); }
      var taken := WeiToShares(DelRate(), amount);
      if taken == 0 { return Some(TooSmall); }
      if shares < taken {
        taken := shares;
      }
      if total < taken {
        delegators := delegators[d := Get(d).(shares := shares - taken)];
        return Some(TotalUnderflow);
      }
      Resize(d, shares - taken, total - taken);
      assert State() == Resized(old(State()), d, shares - taken, total);
      return None;
    }

    method IncreaseRewardIndex(part: nat, shares: nat)
      modifies this`index
      ensures State() == Staking.IncreaseRewardIndex(old(State()), part, shares)
      ensures PoolOk(old(State())) && AccrueFits(old(State()), part) && shares == total > 0 ==>
        && PoolOk(State()) && Potentials(State()) <= Potentials(old(State())) + Precision * part
        && (index - old(index)) * total <= Precision * part < (index - old(index) + 1) * total
    {
      hide PoolOk, AccrueFits, Potentials;
      if PoolOk(State()) && AccrueFits(State(), part) && shares == total > 0 {
        RaiseStep(State(), part);
      }
      if part == 0 || shares == 0 { return; }
      var inc := Mul256(part, Precision) / shares;
      if inc == 0 { return; }
      index := Add256(index, inc);
    }

    /** What is credited to the proposer and what the module escrows. */
    method DistributeProposerIncome(amount: nat) returns (proposer: nat, escrowed: nat)
      modifies this`index
      ensures DistributeIncome(old(State()), amount) == Split(State(), proposer, escrowed)
      ensures proposer + escrowed == amount
      ensures PoolOk(old(State())) && AccrueFits(old(State()), amount) ==>
        && PoolOk(State())
        && (SplitFits(old(State()), amount) ==>
              && Shared(old(State()), amount, Split(State(), proposer, escrowed))
              && Indexed(old(State()), Split(State(), proposer, escrowed)))
    {
      hide PoolOk, AccrueFits, Potentials, SplitFits, Shared, Indexed;
      if PoolOk(State()) && AccrueFits(State(), amount) {
        OkCommission(State());
        if SplitFits(State(), amount) {
          IncomeEffect(State(), amount);
        }
        IncomeStep(State(), amount);
      }
      if amount == 0 { return 0, 0; }
      var delegated := SharesToWei(DelRate(), total);
      if Add256(self, delegated) == 0 { return amount, 0; }
      var kept := Div256(Mul256(amount, EarningStake(self, delegated, commission)), WholeStake(self, delegated));
      if kept > amount {
        kept := amount;
      }
      var rest := amount - kept;
      if rest == 0 { return kept, 0; }
      if total == 0 { return kept + rest, 0; }
      IncreaseRewardIndex(rest, total);
      return kept, rest;
    }

    /** Returns the wei taken from the module's balance. */
    method SlashAndJail(balance: nat) returns (burnt: nat)
      modifies this`self, this`rate, this`jailed
      ensures Staking.SlashAndJail(old(State()), balance) == Done(State(), burnt)
      ensures PoolOk(old(State())) && SlashFits(old(State())) && !old(jailed) ==>
        PoolOk(State()) && self == 0 && rate in {0, RateAfterSlash}
      ensures PoolOk(old(State())) && SlashFits(old(State())) ==> Slashed(old(State()), balance, State(), burnt)
    {
      hide PoolOk, SlashFits, Slashed;
      if PoolOk(State()) && SlashFits(State()) {
        SlashEffect(State(), balance);
      }
      if PoolOk(State()) && SlashFits(State()) && !jailed {
        SlashStep(State(), balance);
      }
      if jailed { return 0; }
      ghost var burn := SlashAmounts(State());
      var selfBurn := Mul256(self, SelfBurnBps) / MaxBps;
      if selfBurn != 0 {
        self := self - selfBurn;
      }
      var effective := SharesToWei(DelRate(), total);
      var delegatorBurn := Mul256(effective, DelegatorBurnBps) / MaxBps;
      if delegatorBurn != 0 && effective != 0 {
        var newRate := Mul256(DelRate(), MaxBps - DelegatorBurnBps) / MaxBps;
        if newRate == 0 {
          newRate := 1;
        }
        rate := newRate;
      }
      burnt := Add256(selfBurn, delegatorBurn);
      if balance < burnt {
        burnt := balance;
      }
      jailed := true;
    }

    method SetCommission(bps: nat) returns (error: Option<Error>)
      modifies this`commission
      ensures
        match Staking.SetCommission(old(State()), bps)
        case Refused(p, e) => error == Some(e) && State() == p
        case Done(p, _) => error == None && State() == p
      ensures error.None? <==> bps <= 10_000
      ensures commission == if error.None? then bps else old(commission)
      ensures PoolOk(old(State())) ==> PoolOk(State())
    {
      if bps > MaxBps { return Some(BadCommission); }
      commission := bps;
      return None;
    }
  }
}
