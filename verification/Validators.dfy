/** The stake-weighted validator set: construction, quorum test and proposer schedule. */
module Validators {
  import opened Arithmetic
  import opened Permutations

  /** Addresses have a fixed width, so comparing their bytes is comparing numbers. */
  type Address = nat

  datatype Validator = Validator(address: Address, power: nat)

  datatype ValidatorSet = ValidatorSet(validators: seq<Validator>, totalPower: nat)

  datatype SetResult =
    | Built(vs: ValidatorSet)
    | EmptySet
    | ZeroPower(address: Address)
    | Duplicate(address: Address)
    | Overflow

  function PowerUpTo(vals: seq<Validator>, n: nat): nat
    requires n <= |vals|
  {
    if n == 0 then 0 else PowerUpTo(vals, n - 1) + vals[n - 1].power
  }

  function TotalOf(vals: seq<Validator>): nat {
    PowerUpTo(vals, |vals|)
  }

  ghost predicate Ordered(vals: seq<Validator>) {
    forall i, j :: 0 <= i < j < |vals| ==> vals[i].address <= vals[j].address
  }

  ghost predicate StrictlyOrdered(vals: seq<Validator>) {
    forall i, j :: 0 <= i < j < |vals| ==> vals[i].address < vals[j].address
  }

  ghost predicate Distinct(vals: seq<Validator>) {
    forall i, j :: 0 <= i < j < |vals| ==> vals[i].address != vals[j].address
  }

  /** A set NewValidatorSet can return. */
  ghost predicate WellFormed(vs: ValidatorSet) {
    && vs.validators != []
    && StrictlyOrdered(vs.validators)
    && (forall v <- vs.validators :: v.power > 0)
    && vs.totalPower == TotalOf(vs.validators) < TwoTo64
  }

  /* ---------- construction ---------- */

  method SortByAddress(vals: seq<Validator>) returns (sorted: seq<Validator>)
    ensures Ordered(sorted) && multiset(sorted) == multiset(vals)
  {
    sorted := [];
    for n := 0 to |vals|
      invariant Ordered(sorted) && multiset(sorted) == multiset(vals[..n])
    {
      var k := |sorted|;
      while k > 0 && vals[n].address < sorted[k - 1].address
        invariant 0 <= k <= |sorted|
        invariant forall j :: k <= j < |sorted| ==> vals[n].address < sorted[j].address
      {
        k := k - 1;
      }
      InsertKeeps(sorted, k, vals[n]);
      assert vals[..n + 1] == vals[..n] + [vals[n]];
      sorted := InsertAt(sorted, k, vals[n]);
    }
    assert vals[..|vals|] == vals;
  }

  lemma {:induction false} PowerOfPrefix(a: seq<Validator>, b: seq<Validator>, n: nat)
    requires n <= |a| && n <= |b| && a[..n] == b[..n]
    ensures PowerUpTo(a, n) == PowerUpTo(b, n)
  {
    if n > 0 {
      assert a[..n - 1] == a[..n][..n - 1] == b[..n][..n - 1] == b[..n - 1];
      assert a[n - 1] == a[..n][n - 1] == b[..n][n - 1] == b[n - 1];
      PowerOfPrefix(a, b, n - 1);
    }
  }

  lemma {:induction false} TotalWithout(b: seq<Validator>, k: nat)
    requires k < |b|
    ensures TotalOf(b) == TotalOf(RemoveAt(b, k)) + b[k].power
    decreases |b|
  {
    var n := |b| - 1;
    if k == n {
      PowerOfPrefix(b, RemoveAt(b, k), n);
    } else {
      TotalWithout(b[..n], k);
      PowerOfPrefix(b, b[..n], n);
      PowerOfPrefix(RemoveAt(b, k), RemoveAt(b[..n], k), n - 1);
    }
  }

  /** Reordering validators keeps their total power. */
  lemma {:induction false} TotalOfPermutation(a: seq<Validator>, b: seq<Validator>)
    requires multiset(a) == multiset(b)
    ensures TotalOf(a) == TotalOf(b)
    decreases |a|
  {
    SameLength(a, b);
    if a != [] {
      var k := Locate(a, b, 0);
      TotalWithout(a, 0);
      TotalWithout(b, k);
      TotalOfPermutation(RemoveAt(a, 0), RemoveAt(b, k));
    }
  }

  /** Two strictly ordered lists of the same validators are the same list. */
  lemma {:induction false} OrderedIsUnique(a: seq<Validator>, b: seq<Validator>)
    requires StrictlyOrdered(a) && StrictlyOrdered(b)
    requires multiset(a) == multiset(b)
    ensures a == b
    decreases |a|
  {
    SameLength(a, b);
    if a != [] {
      var k := Locate(a, b, 0);
      var l := Locate(b, a, 0);
      assert k == 0;
      OrderedIsUnique(RemoveAt(a, 0), RemoveAt(b, 0));
      assert a == [a[0]] + RemoveAt(a, 0) && b == [b[0]] + RemoveAt(b, 0);
    }
  }

  /** The conditions under which a list of validators makes a set. */
  ghost predicate Acceptable(vals: seq<Validator>) {
    && vals != []
    && Distinct(vals)
    && (forall v <- vals :: v.power > 0)
    && TotalOf(vals) < TwoTo64
  }

  lemma DistinctPermutation(a: seq<Validator>, b: seq<Validator>)
    requires multiset(a) == multiset(b)
    requires Distinct(a)
    ensures Distinct(b)
  {
    forall i, j | 0 <= i < j < |b| ensures b[i].address != b[j].address {
      var p := Locate(b, a, i);
      assert RemoveAt(b, i)[j - 1] == b[j];
      SameElements(RemoveAt(b, i), RemoveAt(a, p), b[j]);
    }
  }

  lemma AcceptablePermutation(a: seq<Validator>, b: seq<Validator>)
    requires multiset(a) == multiset(b)
    requires Acceptable(a)
    ensures Acceptable(b)
  {
    TotalOfPermutation(a, b);
    DistinctPermutation(a, b);
    SameLength(a, b);
    forall v | v in b ensures v.power > 0 {
      SameElements(a, b, v);
    }
  }

  /** The outcome of a set construction in terms of its input. */
  ghost predicate Outcome(vals: seq<Validator>, r: SetResult) {
    && (r.Built? <==> Acceptable(vals))
    && (r.Built? ==> WellFormed(r.vs) && multiset(r.vs.validators) == multiset(vals))
    && (r.EmptySet? <==> vals == [])
    && (r.ZeroPower? ==> Validator(r.address, 0) in vals)
    && (r.Duplicate? ==> !Distinct(vals))
    && (r.Overflow? ==> TotalOf(vals) >= TwoTo64)
  }

  /** What the checking loop establishes directly. */
  ghost predicate Checked(sorted: seq<Validator>, r: SetResult) {
    match r
    case Built(vs) =>
      && vs == ValidatorSet(sorted, TotalOf(sorted)) && vs.totalPower < TwoTo64
      && Distinct(sorted) && (forall v <- sorted :: v.power > 0)
    case EmptySet => false
    case ZeroPower(a) => Validator(a, 0) in sorted
    case Duplicate(a) => !Distinct(sorted)
    case Overflow => TotalOf(sorted) >= TwoTo64
  }

  lemma OverflowTest(total: nat, power: nat)
    requires total < TwoTo64 && power < TwoTo64
    ensures (total + power) % TwoTo64 < total <==> total + power >= TwoTo64
  {
  }

  /** The checking loop over the sorted list. */
  method CheckSorted(sorted: seq<Validator>) returns (r: SetResult)
    requires sorted != []
    requires forall v <- sorted :: v.power < TwoTo64
    ensures Checked(sorted, r)
  {
    var index: map<Address, nat> := map[];
    var total := 0;
    for i := 0 to |sorted|
      invariant total == PowerUpTo(sorted, i) < TwoTo64
      invariant forall k :: 0 <= k < i ==> sorted[k].power > 0
      invariant forall k :: 0 <= k < i ==> sorted[k].address in index && index[sorted[k].address] == k
      invariant forall a <- index.Keys :: index[a] < i && sorted[index[a]].address == a
    {
      var v := sorted[i];
      if v.power == 0 {
        return ZeroPower(v.address);
      }
      if v.address in index {
        return Duplicate(v.address);
      }
      index := index[v.address := i];
      OverflowTest(total, v.power);
      if (total + v.power) % TwoTo64 < total {
        PowerGrows(sorted, i + 1, |sorted|);
        return Overflow;
      }
      total := total + v.power;
    }
    assert Distinct(sorted);
    r := Built(ValidatorSet(sorted, total));
  }

  /**
   Rejects an empty list, zero powers, repeated addresses and a total that does not fit 64 bits;
   accepts everything else, sorted by address.
   */
  method NewValidatorSet(vals: seq<Validator>) returns (r: SetResult)
    requires forall v <- vals :: v.power < TwoTo64
    ensures Outcome(vals, r)
  {
    if |vals| == 0 {
      return EmptySet;
    }
    var sorted := SortByAddress(vals);
    SameLength(sorted, vals);
    forall v: Validator ensures v in sorted <==> v in vals {
      SameElements(sorted, vals, v);
    }
    r := CheckSorted(sorted);
    assert Outcome(sorted, r);
    TransportOutcome(sorted, vals, r);
  }

  lemma TransportOutcome(a: seq<Validator>, b: seq<Validator>, r: SetResult)
    requires multiset(a) == multiset(b) && Outcome(a, r)
    ensures Outcome(b, r)
  {
    SameLength(a, b);
    TotalOfPermutation(a, b);
    if Acceptable(a) { AcceptablePermutation(a, b); }
    if Acceptable(b) { AcceptablePermutation(b, a); }
    if Distinct(b) { DistinctPermutation(b, a); }
    if r.ZeroPower? { SameElements(a, b, Validator(r.address, 0)); }
  }

  lemma PowerGrows(vals: seq<Validator>, m: nat, n: nat)
    requires m <= n <= |vals|
    ensures PowerUpTo(vals, m) <= PowerUpTo(vals, n)
    decreases n
  {
    if m < n {
      PowerGrows(vals, m, n - 1);
    }
  }

  /** Any permutation of the input gives the same set, hence the same proposer schedule. */
  lemma SameSetForAnyOrder(a: seq<Validator>, b: seq<Validator>, x: ValidatorSet, y: ValidatorSet)
    requires multiset(a) == multiset(b)
    requires WellFormed(x) && multiset(x.validators) == multiset(a)
    requires WellFormed(y) && multiset(y.validators) == multiset(b)
    ensures x == y
  {
    OrderedIsUnique(x.validators, y.validators);
  }

  /* ---------- quorum ---------- */

  /** The quorum test as the program computes it, in 64-bit arithmetic. */
  predicate HasQuorum(votePower: nat, totalPower: nat) {
    totalPower != 0 && (votePower * 3) % TwoTo64 > (totalPower * 2) % TwoTo64
  }

  /** The 64-bit test is a strict two-thirds majority for every vote power exactly when three times the total fits. */
  lemma QuorumIsExact(total: nat)
    requires 0 < total < TwoTo64
    ensures (forall p: nat :: p <= total ==> (HasQuorum(p, total) <==> 3 * p > 2 * total)) <==> 3 * total < TwoTo64
  {
    if 3 * total >= TwoTo64 {
      if 2 * total < TwoTo64 {
        assert !HasQuorum(total, total);
      } else {
        var p := (TwoTo64 - 1) / 3;
        assert p <= total && HasQuorum(p, total) && 3 * p <= 2 * total;
      }
    }
  }

  /* ---------- proposer schedule ---------- */

  /** Validator `i` owns the slots from the power before it up to its own. */
  predicate Owns(vs: ValidatorSet, i: nat, slot: nat)
    requires i < |vs.validators|
  {
    PowerUpTo(vs.validators, i) <= slot < PowerUpTo(vs.validators, i + 1)
  }

  function SlotOf(vs: ValidatorSet, height: nat, round: nat): nat
    requires vs.totalPower > 0
  {
    ((height + round) % TwoTo64) % vs.totalPower
  }

  /** The first validator whose cumulative power exceeds the slot; the loop always finds one. */
  method ProposerIndex(vs: ValidatorSet, height: nat, round: nat) returns (i: nat)
    requires WellFormed(vs)
    requires height < TwoTo64 && round < TwoTo64
    ensures i < |vs.validators|
    ensures vs.totalPower > 0 && Owns(vs, i, SlotOf(vs, height, round))
  {
    assert vs.validators[0] in vs.validators;
    PowerGrows(vs.validators, 1, |vs.validators|);
    var slot := ((height + round) % TwoTo64) % vs.totalPower;
    var acc := 0;
    i := 0;
    for k := 0 to |vs.validators|
      invariant acc == PowerUpTo(vs.validators, k) <= slot
    {
      acc := acc + vs.validators[k].power;
      if slot < acc {
        return k;
      }
    }
    // the fallback to the last validator is never reached
    assert false;
  }

  /** Each slot has one owner, so the schedule is a function of the set, the height and the round. */
  lemma OneOwner(vs: ValidatorSet, i: nat, j: nat, slot: nat)
    requires i < |vs.validators| && j < |vs.validators|
    requires Owns(vs, i, slot) && Owns(vs, j, slot)
    ensures i == j
  {
    if i < j {
      PowerGrows(vs.validators, i + 1, j);
    } else if j < i {
      PowerGrows(vs.validators, j + 1, i);
    }
  }

  function InRange(lo: nat, hi: nat, x: nat): nat {
    if lo <= x < hi then 1 else 0
  }

  /** How many of the `n` numbers from `start` on fall into [lo, hi) modulo `total`. */
  function Hits(lo: nat, hi: nat, total: nat, start: nat, n: nat): nat
    requires total > 0
  {
    if n == 0 then 0 else Hits(lo, hi, total, start, n - 1) + InRange(lo, hi, (start + n - 1) % total)
  }

  lemma {:induction false} HitsShift(lo: nat, hi: nat, total: nat, start: nat, n: nat)
    requires total > 0
    ensures Hits(lo, hi, total, start + 1, n) + InRange(lo, hi, start % total)
         == Hits(lo, hi, total, start, n) + InRange(lo, hi, (start + n) % total)
  {
    if n > 0 {
      HitsShift(lo, hi, total, start, n - 1);
    }
  }

  lemma {:induction false} HitsFromZero(lo: nat, hi: nat, total: nat, n: nat)
    requires lo <= hi <= total && n <= total && total > 0
    ensures Hits(lo, hi, total, 0, n) == if n <= lo then 0 else if n <= hi then n - lo else hi - lo
  {
    if n > 0 {
      HitsFromZero(lo, hi, total, n - 1);
      ModBasics(n - 1, total);
    }
  }

  lemma {:induction false} HitsInWindow(lo: nat, hi: nat, total: nat, start: nat)
    requires lo <= hi <= total && total > 0
    ensures Hits(lo, hi, total, start, total) == hi - lo
  {
    if start == 0 {
      HitsFromZero(lo, hi, total, total);
    } else {
      HitsInWindow(lo, hi, total, start - 1);
      HitsShift(lo, hi, total, start - 1, total);
      ModBasics(start - 1, total);
    }
  }

  /** The number of heights in the window [height, height + n) at which validator `i` proposes. */
  function Proposals(vs: ValidatorSet, i: nat, height: nat, n: nat, round: nat): nat
    requires i < |vs.validators| && vs.totalPower > 0
  {
    if n == 0 then 0 else
    Proposals(vs, i, height, n - 1, round) + if Owns(vs, i, SlotOf(vs, height + n - 1, round)) then 1 else 0
  }

  lemma {:induction false} ProposalsAreHits(vs: ValidatorSet, i: nat, height: nat, n: nat, round: nat)
    requires i < |vs.validators| && vs.totalPower > 0
    requires height + n + round <= TwoTo64
    ensures Proposals(vs, i, height, n, round)
         == Hits(PowerUpTo(vs.validators, i), PowerUpTo(vs.validators, i + 1), vs.totalPower, height + round, n)
  {
    if n > 0 {
      ProposalsAreHits(vs, i, height, n - 1, round);
      ModBasics(height + n - 1 + round, TwoTo64);
      assert SlotOf(vs, height + n - 1, round) == (height + round + n - 1) % vs.totalPower;
    }
  }

  /** Over any totalPower consecutive heights at a fixed round, each validator proposes exactly Power times. */
  lemma ExactlyProportional(vs: ValidatorSet, i: nat, height: nat, round: nat)
    requires WellFormed(vs) && i < |vs.validators|
    requires height + vs.totalPower + round <= TwoTo64
    ensures vs.totalPower > 0 && Proposals(vs, i, height, vs.totalPower, round) == vs.validators[i].power
  {
    assert vs.validators[0] in vs.validators;
    PowerGrows(vs.validators, 1, |vs.validators|);
    PowerGrows(vs.validators, i + 1, |vs.validators|);
    ProposalsAreHits(vs, i, height, vs.totalPower, round);
    HitsInWindow(PowerUpTo(vs.validators, i), PowerUpTo(vs.validators, i + 1), vs.totalPower, height + round);
  }
}
