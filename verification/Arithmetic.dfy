/** Floor and ceiling division, proved once. */
module Arithmetic {

  const TwoTo64: nat := 0x1_0000_0000_0000_0000
  const TwoTo256: nat := 0x1_0000_0000_0000_0000_0000_0000_0000_0000_0000_0000_0000_0000_0000_0000_0000_0000

  /** A quotient and a remainder in range are the quotient and the remainder. */
  lemma DivModUnique(x: int, d: int, q: int, r: int)
    requires d > 0 && 0 <= r < d && x == q * d + r
    ensures x / d == q && x % d == r
  {
    var k := x / d - q;
    assert x == d * (x / d) + x % d;
    assert d * (x / d) == d * q + d * k;
    assert d * k == r - x % d;
    if k > 0 {
      MulAtLeast(d, k);
    } else if k < 0 {
      MulAtLeast(d, -k);
    }
  }

  lemma MulAtLeast(d: int, k: int)
    requires d > 0 && k > 0
    ensures d * k >= d
  {
  }

  lemma ModBasics(x: nat, d: nat)
    requires d > 0
    ensures x < d ==> x % d == x
    ensures (x + d) % d == x % d
  {
    if x < d {
      DivModUnique(x, d, 0, x);
    }
    DivModUnique(x + d, d, x / d + 1, x % d);
  }

  /** Addition of 256-bit words, which drops the carry. */
  function Add256(a: nat, b: nat): (sum: nat)
    ensures sum < TwoTo256
  {
    if a + b < TwoTo256 then a + b else (a + b) % TwoTo256
  }

  lemma Add256Wraps(a: nat, b: nat)
    requires a < TwoTo256 && b < TwoTo256 && a + b >= TwoTo256
    ensures Add256(a, b) == a + b - TwoTo256
  {
    DivModUnique(a + b, TwoTo256, 1, a + b - TwoTo256);
  }

  /** Multiplication of 256-bit words, which drops the high half. */
  function Mul256(a: nat, b: nat): (product: nat)
    ensures product < TwoTo256
  {
    if a * b < TwoTo256 then a * b else a * b % TwoTo256
  }

  /** Division of 256-bit words, which gives zero when the divisor is zero. */
  function Div256(a: nat, b: nat): nat {
    if b == 0 then 0 else a / b
  }

  lemma CutIsLess(x: nat)
    ensures x % TwoTo256 <= x
  {
    if x < TwoTo256 {
      ModBasics(x, TwoTo256);
    }
  }
}
