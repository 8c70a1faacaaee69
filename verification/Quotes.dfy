/** Quote amounts of the limit orderbook: base times price over 1e18, rounded down or up. */
module Quotes {
  import opened Arithmetic

  const E18: nat := 1_000_000_000_000_000_000

  /** The exact amounts, before they are cut to 256 bits. */
  function Floor(base: nat, price: nat): nat {
    base * price / E18
  }

  function Ceil(base: nat, price: nat): nat {
    (base * price + E18 - 1) / E18
  }

  function QuoteFloor(base: nat, price: nat): (q: nat)
    ensures q < TwoTo256
    ensures Floor(base, price) < TwoTo256 ==> q * E18 <= base * price < (q + 1) * E18
  {
    if base == 0 || price == 0 then 0 else Floor(base, price) % TwoTo256
  }

  /** The least amount that covers the price, when it fits in 256 bits. */
  function QuoteLockCeil(base: nat, price: nat): (q: nat)
    ensures q < TwoTo256
    ensures Ceil(base, price) < TwoTo256 ==> (q - 1) * E18 < base * price <= q * E18
  {
    if base == 0 || price == 0 then 0 else Ceil(base, price) % TwoTo256
  }

  lemma FitsUncut(base: nat, price: nat)
    ensures Floor(base, price) < TwoTo256 ==> QuoteFloor(base, price) == Floor(base, price)
    ensures Ceil(base, price) < TwoTo256 ==> QuoteLockCeil(base, price) == Ceil(base, price)
  {
    if base == 0 || price == 0 {
      assert base * price == 0;
    } else {
      ModBasics(Floor(base, price), TwoTo256);
      ModBasics(Ceil(base, price), TwoTo256);
    }
  }

  /**
   Paying for part of an order with the floor and keeping the ceiling of the rest never takes more than the
   ceiling of the whole, and leaves at most one unit over.
   */
  lemma CeilSplit(open: nat, part: nat, price: nat)
    requires part <= open
    ensures Ceil(open - part, price) + Floor(part, price) <= Ceil(open, price)
    ensures Ceil(open, price) <= Ceil(open - part, price) + Floor(part, price) + 1
  {
    var a, b := (open - part) * price, part * price;
    assert open * price == a + b;
    SplitDivision(a, b);
  }

  lemma SplitDivision(a: nat, b: nat)
    ensures (a + E18 - 1) / E18 + b / E18 <= (a + b + E18 - 1) / E18 <= (a + E18 - 1) / E18 + b / E18 + 1
  {
  }

  lemma CeilOfNothing(price: nat)
    ensures Ceil(0, price) == 0
  {
    assert 0 * price == 0;
  }
}
