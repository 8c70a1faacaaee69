/**
 The staking slots of one validator as operations on values: delegation shares and their exchange rate, the
 cumulative reward index with each delegator's debt and pending rewards, the split of proposer income, slashing.

 Slots of different validators are distinct, so one validator is modelled. Wei paid in or out of the module is an
 argument or a result.
 */
module Staking {
  import opened Arithmetic
  import opened MapSums

  type Address = nat

  const Precision: nat := 1_000_000_000_000_000_000
  const MaxBps: nat := 10_000
  const SelfBurnBps: nat := 10_000
  const DelegatorBurnBps: nat := 500

  datatype Delegator = Delegator(shares: nat, debt: nat, pending: nat)

  /** A rate slot of zero stands for the initial rate. */
  datatype Pool = Pool(self: nat, rate: nat, jailed: bool, commission: nat, total: nat, index: nat,
    delegators: map<Address, Delegator>)

  datatype Error = ZeroAmount | SelfDelegation | TooSmall | Insufficient | TotalUnderflow | NoRewards | BadCommission

  /** Some refused calls have already settled rewards, so a refusal carries the pool too. */
  datatype Outcome = Done(pool: Pool, wei: nat) | Refused(pool: Pool, error: Error)

  function Of(p: Pool, d: Address): Delegator {
    if d in p.delegators then p.delegators[d] else Delegator(0, 0, 0)
  }

  function With(p: Pool, d: Address, x: Delegator): Pool {
    p.(delegators := p.delegators[d := x])
  }

  /* ---------- conversions ---------- */

  function Rate(p: Pool): (r: nat)
    ensures r > 0
  {
    if p.rate == 0 then Precision else p.rate
  }

  function SharesToWei(rate: nat, shares: nat): nat {
    Mul256(shares, rate) / Precision
  }

  function WeiToShares(rate: nat, wei: nat): nat
    requires rate > 0
  {
    Mul256(wei, Precision) / rate
  }

  function DebtFor(index: nat, shares: nat): nat {
    Mul256(shares, index) / Precision
  }

  /* ---------- rewards ---------- */

  /** Newly accrued rewards move to pending, and the debt is refreshed. */
  function Settle(index: nat, x: Delegator): Delegator {
    var owed := DebtFor(index, x.shares);
    if owed > x.debt then x.(pending := Add256(x.pending, owed - x.debt), debt := owed) else x.(debt := owed)
  }

  function SettleRewards(p: Pool, d: Address): Pool {
    With(p, d, Settle(p.index, Of(p, d)))
  }

  function ClaimRewards(p: Pool, d: Address): Outcome {
    var settled := SettleRewards(p, d);
    var x := Of(settled, d);
    if x.pending == 0 then Refused(settled, NoRewards)
    else Done(With(settled, d, x.(pending := 0)), x.pending)
  }

  function IncreaseRewardIndex(p: Pool, part: nat, shares: nat): Pool {
    if part == 0 || shares == 0 then p else
    var inc := Mul256(part, Precision) / shares;
    if inc == 0 then p else p.(index := Add256(p.index, inc))
  }

  /** The stake that earns for the proposer, in basis points: its own, and the commission on the delegated. */
  function EarningStake(self: nat, delegated: nat, commission: nat): nat {
    Add256(Mul256(self, MaxBps), Mul256(delegated, commission))
  }

  function WholeStake(self: nat, delegated: nat): nat {
    Mul256(Add256(self, delegated), MaxBps)
  }

  /** What the proposer keeps of an income. */
  function ProposerPart(amount: nat, earning: nat, whole: nat): (kept: nat)
    ensures kept <= amount
  {
    var part := Div256(Mul256(amount, earning), whole);
    if part > amount then amount else part
  }

  datatype Split = Split(pool: Pool, proposer: nat, escrowed: nat)

  /** The rest of an income goes to the delegators' index, or to the proposer when there are no shares. */
  function Accrue(p: Pool, amount: nat, kept: nat): Split
    requires kept <= amount
  {
    if kept == amount || p.total == 0 then Split(p, amount, 0)
    else Split(IncreaseRewardIndex(p, amount - kept, p.total), kept, amount - kept)
  }

  function DistributeIncome(p: Pool, amount: nat): Split {
    var delegated := SharesToWei(Rate(p), p.total);
    if amount == 0 || Add256(p.self, delegated) == 0 then Split(p, amount, 0)
    else Accrue(p, amount,
                ProposerPart(amount, EarningStake(p.self, delegated, p.commission), WholeStake(p.self, delegated)))
  }

  /* ---------- delegation ---------- */

  /** The pool with a settled delegator holding other shares. */
  function Resized(p: Pool, d: Address, next: nat, total: nat): Pool {
    With(p, d, Settle(p.index, Of(p, d)).(shares := next, debt := DebtFor(p.index, next))).(total := total)
  }

  function Delegate(p: Pool, validator: Address, d: Address, amount: nat): Outcome {
    if amount == 0 then Refused(p, ZeroAmount)
    else if validator == d then Refused(p, SelfDelegation)
    else
      var added := WeiToShares(Rate(p), amount);
      if added == 0 then Refused(SettleRewards(p, d), TooSmall)
      else Done(Resized(p, d, Add256(Of(p, d).shares, added), Add256(p.total, added)), amount)
  }

  /** The shares are taken before the total is checked. */
  function Undelegate(p: Pool, d: Address, amount: nat): Outcome {
    if amount == 0 then Refused(p, ZeroAmount) else
    var settled := SettleRewards(p, d);
    var shares := Of(p, d).shares;
    if SharesToWei(Rate(p), shares) < amount then Refused(settled, Insufficient) else
    var wanted := WeiToShares(Rate(p), amount);
    if wanted == 0 then Refused(settled, TooSmall) else
    var taken := if shares < wanted then shares else wanted;
    if p.total < taken then Refused(With(settled, d, Of(settled, d).(shares := shares - taken)), TotalUnderflow)
    else Done(Resized(p, d, shares - taken, p.total - taken), amount)
  }

  /* ---------- slashing ---------- */

  datatype Burn = Burn(self: nat, delegated: nat)

  function SlashAmounts(p: Pool): (burn: Burn)
    ensures burn.self <= p.self
  {
    CutIsLess(p.self * SelfBurnBps);
    Burn(Mul256(p.self, SelfBurnBps) / MaxBps, Mul256(SharesToWei(Rate(p), p.total), DelegatorBurnBps) / MaxBps)
  }

  function SlashedRate(rate: nat): nat {
    var r := Mul256(rate, MaxBps - DelegatorBurnBps) / MaxBps;
    if r == 0 then 1 else r
  }

  /** Burns at most what the module holds; a second slash does nothing. */
  function SlashAndJail(p: Pool, balance: nat): Outcome {
    if p.jailed then Done(p, 0) else
    var burn := SlashAmounts(p);
    var sum := Add256(burn.self, burn.delegated);
    Done(p.(self := p.self - burn.self,
            rate := if burn.delegated != 0 then SlashedRate(Rate(p)) else p.rate, jailed := true),
         if balance < sum then balance else sum)
  }

  function SetCommission(p: Pool, bps: nat): Outcome {
    if bps > MaxBps then Refused(p, BadCommission) else Done(p.(commission := bps), 0)
  }

  /* ---------- sums over delegators ---------- */

  ghost function SharesOf(m: map<Address, Delegator>): map<Address, int> {
    map d | d in m :: m[d].shares
  }

  /** What a delegator has coming, scaled, before any rounding: pending less debt plus shares times index. */
  ghost function Potential(index: nat, x: Delegator): int {
    Precision * (x.pending - x.debt) + x.shares * index
  }

  ghost function PotentialsOf(index: nat, m: map<Address, Delegator>): map<Address, int> {
    map d | d in m :: Potential(index, m[d])
  }

  lemma WithShares(m: map<Address, Delegator>, d: Address, x: Delegator)
    ensures Sum(SharesOf(m[d := x])) == Sum(SharesOf(m)) - (if d in m then m[d].shares else 0) + x.shares
  {
    assert SharesOf(m[d := x]) == SharesOf(m)[d := x.shares];
    SumUpdate(SharesOf(m), d, x.shares);
  }

  lemma WithPotential(index: nat, m: map<Address, Delegator>, d: Address, x: Delegator)
    ensures Sum(PotentialsOf(index, m[d := x])) ==
            Sum(PotentialsOf(index, m)) - (if d in m then Potential(index, m[d]) else 0) + Potential(index, x)
  {
    assert PotentialsOf(index, m[d := x]) == PotentialsOf(index, m)[d := Potential(index, x)];
    SumUpdate(PotentialsOf(index, m), d, Potential(index, x));
  }

  /** Raising the index raises the potentials by the increase times all shares. */
  lemma RaiseIndex(index: nat, more: nat, m: map<Address, Delegator>)
    ensures Sum(PotentialsOf(index + more, m)) == Sum(PotentialsOf(index, m)) + more * Sum(SharesOf(m))
  {
    var before, added := PotentialsOf(index, m), Scaled(more, SharesOf(m));
    forall d <- m.Keys ensures PotentialsOf(index + more, m)[d] == before[d] + added[d] {
      Distribute(m[d].shares, index, more);
    }
    assert PotentialsOf(index + more, m) == Plus(before, added);
    SumPlus(before, added);
    SumScaled(more, SharesOf(m));
  }

  /* ---------- what every pool keeps ---------- */

  /** A debt never exceeds what the index grants the shares. */
  predicate InDebt(index: nat, x: Delegator) {
    Precision * x.debt <= x.shares * index
  }

  const RateAfterSlash: nat := 950_000_000_000_000_000

  ghost predicate PoolOk(p: Pool) {
    && p.total == Sum(SharesOf(p.delegators))
    && (forall d <- p.delegators.Keys :: InDebt(p.index, p.delegators[d]))
    && (p.rate == 0 || (p.rate == RateAfterSlash && p.jailed))
    && p.commission <= MaxBps
  }

  lemma SharesWithinSum(m: map<Address, Delegator>, d: Address)
    ensures 0 <= Sum(SharesOf(m))
    ensures d in m ==> m[d].shares <= Sum(SharesOf(m))
  {
    SumNonNegative(SharesOf(m));
    if d in m {
      SumRemove(SharesOf(m), d);
      SumNonNegative(SharesOf(m) - {d});
    }
  }

  /* ---------- one delegator ---------- */

  /** What a claim would pay, exactly. */
  function Claimable(index: nat, x: Delegator): int {
    x.pending + x.shares * index / Precision - x.debt
  }

  predicate SettleFits(index: nat, x: Delegator) {
    x.shares * index < TwoTo256 && x.pending + x.shares * index / Precision < TwoTo256
  }

  /** Settling makes everything claimable pending, and changes no potential. */
  lemma SettleKeeps(index: nat, x: Delegator)
    requires InDebt(index, x) && SettleFits(index, x)
    ensures
      var y := Settle(index, x);
      && y.shares == x.shares && y.debt == x.shares * index / Precision && y.pending == Claimable(index, x)
      && InDebt(index, y) && Potential(index, y) == Potential(index, x)
  {
  }

  /** Changing the shares of a settled delegator adds less than one wei to its potential. */
  lemma ResizeAddsLittle(index: nat, x: Delegator, next: nat)
    requires x.debt == x.shares * index / Precision
    ensures
      var y := x.(shares := next, debt := next * index / Precision);
      InDebt(index, y) && Potential(index, y) <= Potential(index, x) + Precision - 1
  {
    var a, b := x.shares * index, next * index;
    assert a == Precision * (a / Precision) + a % Precision;
    assert b == Precision * (b / Precision) + b % Precision;
  }

  lemma ClaimableWithinPotential(index: nat, x: Delegator)
    ensures Precision * Claimable(index, x) <= Potential(index, x)
  {
    var a := x.shares * index;
    assert a == Precision * (a / Precision) + a % Precision;
  }

  lemma DebtGrowsSlower(index: nat, more: nat, x: Delegator)
    requires InDebt(index, x)
    ensures InDebt(index + more, x)
  {
    Distribute(x.shares, index, more);
  }

  /* ---------- conversions ---------- */

  /** At a rate of at most one, undelegating an amount burns shares worth that amount, give or take one wei. */
  lemma UndelegateRounding(rate: nat, shares: nat, amount: nat)
    requires 0 < rate <= Precision && amount <= shares * rate / Precision
    ensures
      var taken := amount * Precision / rate;
      && taken <= shares
      && (var left := shares * rate / Precision - amount; left <= (shares - taken) * rate / Precision <= left + 1)
      && (rate == Precision ==> (shares - taken) * rate / Precision == shares * rate / Precision - amount)
  {
    var taken := amount * Precision / rate;
    var worth, due := shares * rate, amount * Precision;
    assert worth == Precision * (worth / Precision) + worth % Precision;
    assert due <= worth;
    assert due == rate * taken + due % rate;
    if taken > shares {
      MulMonotone(rate, shares + 1, taken);
      assert false;
    }
    Distribute(rate, shares, -taken);
    assert (shares - taken) * rate == worth - rate * taken;
    if rate == Precision {
      DivModUnique(due, Precision, amount, 0);
    }
  }

  lemma MulMonotone(k: nat, a: nat, b: nat)
    requires a <= b
    ensures k * a <= k * b
  {
    Distribute(k, a, b - a);
  }

  lemma EffectiveWorth(rate: nat, shares: nat, total: nat)
    requires shares <= total && total * rate < TwoTo256
    ensures Precision * SharesToWei(rate, shares) <= rate * shares
  {
    MulMonotone(rate, shares, total);
  }

  lemma FloorAtMost(x: int, y: nat)
    requires Precision * x <= y
    ensures x <= y / Precision
  {
  }

  ghost function EffectiveOf(rate: nat, m: map<Address, Delegator>): map<Address, int> {
    map d | d in m :: SharesToWei(rate, m[d].shares)
  }

  lemma SumOfEffective(rate: nat, m: map<Address, Delegator>, total: nat)
    requires total == Sum(SharesOf(m)) && total * rate < TwoTo256
    ensures Precision * Sum(EffectiveOf(rate, m)) <= rate * total
  {
    var wei, shares := EffectiveOf(rate, m), SharesOf(m);
    forall d <- wei.Keys ensures Scaled(Precision, wei)[d] <= Scaled(rate, shares)[d] {
      SharesWithinSum(m, d);
      EffectiveWorth(rate, m[d].shares, total);
    }
    SumMonotone(Scaled(Precision, wei), Scaled(rate, shares));
    SumScaled(rate, shares);
    SumScaled(Precision, wei);
  }

  /** Delegators' effective stakes never add up to more than the validator's delegated total. */
  lemma EffectiveWithinTotal(p: Pool)
    requires PoolOk(p) && p.total * Rate(p) < TwoTo256
    ensures Sum(EffectiveOf(Rate(p), p.delegators)) <= SharesToWei(Rate(p), p.total)
  {
    SumOfEffective(Rate(p), p.delegators, p.total);
    FloorAtMost(Sum(EffectiveOf(Rate(p), p.delegators)), p.total * Rate(p));
  }
}
