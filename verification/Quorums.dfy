/** Voting power of sets of validators, and why two quorums share an honest one. */
module Quorums {
  import opened Arithmetic
  import opened MapSums
  import opened Validators

  type Powers = map<Address, nat>

  ghost function Part(powers: Powers, s: set<Address>): map<Address, int> {
    map a | a in powers && a in s :: powers[a]
  }

  ghost function Power(powers: Powers, s: set<Address>): int {
    Sum(Part(powers, s))
  }

  ghost function Total(powers: Powers): int {
    Power(powers, powers.Keys)
  }

  lemma PowerSplit(powers: Powers, s: set<Address>, t: set<Address>)
    ensures Power(powers, s) == Power(powers, s * t) + Power(powers, s - t)
  {
    SumSplit(Part(powers, s), t);
    assert Restrict(Part(powers, s), t) == Part(powers, s * t);
    assert Part(powers, s) - t == Part(powers, s - t);
  }

  lemma PowerMonotone(powers: Powers, s: set<Address>, t: set<Address>)
    requires s <= t
    ensures 0 <= Power(powers, s) <= Power(powers, t)
  {
    PowerSplit(powers, t, s);
    assert t * s == s;
    SumNonNegative(Part(powers, t - s));
    SumNonNegative(Part(powers, s));
  }

  lemma PowerBounded(powers: Powers, s: set<Address>)
    ensures 0 <= Power(powers, s) <= Total(powers)
  {
    PowerMonotone(powers, s * powers.Keys, powers.Keys);
    assert Part(powers, s * powers.Keys) == Part(powers, s);
  }

  /** Two sets above two thirds overlap in more than a third. */
  lemma Overlap(powers: Powers, s: set<Address>, t: set<Address>)
    ensures Power(powers, s) + Power(powers, t) <= Total(powers) + Power(powers, s * t)
  {
    PowerSplit(powers, s, t);
    PowerSplit(powers, s + t, t);
    assert (s + t) * t == t && (s + t) - t == s - t;
    PowerBounded(powers, s + t);
  }

  /** What the quorum test means while three times the total fits 64 bits. */
  ghost predicate Fits(powers: Powers) {
    0 < Total(powers) && 3 * Total(powers) < TwoTo64
  }

  ghost predicate IsQuorum(powers: Powers, s: set<Address>) {
    3 * Power(powers, s) > 2 * Total(powers)
  }

  ghost predicate IsMinority(powers: Powers, s: set<Address>) {
    3 * Power(powers, s) < Total(powers)
  }

  lemma QuorumsMeet(powers: Powers, s: set<Address>, t: set<Address>, faulty: set<Address>) returns (a: Address)
    requires IsQuorum(powers, s) && IsQuorum(powers, t) && IsMinority(powers, faulty)
    ensures a in s && a in t && a in powers && a !in faulty
  {
    Overlap(powers, s, t);
    a := HonestMember(powers, s * t, faulty);
  }

  lemma HonestMember(powers: Powers, s: set<Address>, faulty: set<Address>) returns (a: Address)
    requires Power(powers, s) > Power(powers, faulty)
    ensures a in s && a in powers && a !in faulty
  {
    PowerSplit(powers, s, faulty);
    PowerMonotone(powers, s * faulty, faulty);
    assert s * powers.Keys <= faulty ==> Part(powers, s - faulty) == map[];
    a :| a in s && a in powers && a !in faulty;
  }

  /** The test in the program, on the power of a set, is the quorum it stands for. */
  lemma TestIsQuorum(powers: Powers, s: set<Address>)
    requires Fits(powers)
    ensures Power(powers, s) >= 0
    ensures HasQuorum(Power(powers, s), Total(powers)) <==> IsQuorum(powers, s)
  {
    PowerBounded(powers, s);
    QuorumIsExact(Total(powers));
  }

  /* ---------- the powers of a validator set ---------- */

  function PowersUpTo(vals: seq<Validator>, n: nat): Powers
    requires n <= |vals|
  {
    if n == 0 then map[] else PowersUpTo(vals, n - 1)[vals[n - 1].address := vals[n - 1].power]
  }

  lemma {:induction false} AddressesUpTo(vals: seq<Validator>, n: nat, a: Address)
    requires n <= |vals|
    ensures a in PowersUpTo(vals, n) <==> exists i :: 0 <= i < n && vals[i].address == a
  {
    if n > 0 {
      AddressesUpTo(vals, n - 1, a);
      assert vals[n - 1].address == a ==> exists i :: 0 <= i < n && vals[i].address == a;
    }
  }

  lemma {:induction false} SumUpTo(vals: seq<Validator>, n: nat)
    requires StrictlyOrdered(vals) && n <= |vals|
    ensures Total(PowersUpTo(vals, n)) == PowerUpTo(vals, n)
  {
    hide Sum;
    var all := PowersUpTo(vals, n);
    if n == 0 {
      SumEmpty<Address>();
      assert Part(all, all.Keys) == map[];
    } else {
      var v, before := vals[n - 1], PowersUpTo(vals, n - 1);
      SumUpTo(vals, n - 1);
      AddressesUpTo(vals, n - 1, v.address);
      assert Part(all, all.Keys) == Part(before, before.Keys)[v.address := v.power];
      SumUpdate(Part(before, before.Keys), v.address, v.power);
    }
  }

  /**
   The engine's powers are those of the constructed set: its total is the set's, and quorums are exact while it fits.
   */
  lemma PowersOfSet(vs: ValidatorSet)
    requires WellFormed(vs)
    ensures
      var powers := PowersUpTo(vs.validators, |vs.validators|);
      && Total(powers) == vs.totalPower
      && (Fits(powers) <==> 3 * vs.totalPower < TwoTo64)
      && (forall a: Address :: a in powers <==> exists i :: 0 <= i < |vs.validators| && vs.validators[i].address == a)
  {
    var n := |vs.validators|;
    SumUpTo(vs.validators, n);
    forall a: Address
      ensures a in PowersUpTo(vs.validators, n) <==> exists i :: 0 <= i < n && vs.validators[i].address == a
    {
      AddressesUpTo(vs.validators, n, a);
    }
    assert vs.validators[n - 1] in vs.validators;
  }
}
