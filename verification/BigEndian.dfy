/** Byte strings, their lexicographic order, and big-endian numbers of a fixed width. */
module BigEndian {

  type Byte = x: nat | x < 256

  type Bytes = seq<Byte>

  /** The number the bytes spell, most significant first. */
  function Value(b: Bytes): nat {
    if b == [] then 0 else Value(b[..|b| - 1]) * 256 + b[|b| - 1]
  }

  /** PutUint of the given width; higher bytes are cut off. */
  function Encode(n: nat, width: nat): (b: Bytes)
    ensures |b| == width
  {
    if width == 0 then [] else Encode(n / 256, width - 1) + [n % 256]
  }

  function Pow256(n: nat): (p: nat)
    ensures p > 0
  {
    if n == 0 then 1 else 256 * Pow256(n - 1)
  }

  predicate HasPrefix(key: Bytes, prefix: Bytes) {
    |prefix| <= |key| && key[..|prefix|] == prefix
  }

  /** bytes.Compare(a, b) < 0, which is also how the key-value store orders its keys. */
  predicate LexLess(a: Bytes, b: Bytes) {
    if b == [] then false
    else if a == [] then true
    else if a[0] != b[0] then a[0] < b[0]
    else LexLess(a[1..], b[1..])
  }

  lemma {:induction false} ValueBound(b: Bytes)
    ensures Value(b) < Pow256(|b|)
  {
    if b != [] {
      ValueBound(b[..|b| - 1]);
    }
  }

  lemma {:induction false} DecodeEncode(n: nat, width: nat)
    requires n < Pow256(width)
    ensures Value(Encode(n, width)) == n
  {
    if width > 0 {
      DecodeEncode(n / 256, width - 1);
      assert Encode(n, width)[..width - 1] == Encode(n / 256, width - 1);
    }
  }

  lemma {:induction false} EncodeDecode(b: Bytes)
    ensures Encode(Value(b), |b|) == b
  {
    if b != [] {
      var front := b[..|b| - 1];
      EncodeDecode(front);
      assert Value(b) / 256 == Value(front) && Value(b) % 256 == b[|b| - 1];
      assert b == front + [b[|b| - 1]];
    }
  }

  /** Comparing from the front: the first byte, then the rest. */
  lemma {:induction false} ValueFromFront(b: Bytes)
    requires b != []
    ensures Value(b) == b[0] * Pow256(|b| - 1) + Value(b[1..])
  {
    if |b| > 1 {
      var n := |b| - 1;
      var front := b[..n];
      ValueFromFront(front);
      assert front[1..] == b[1..][..n - 1];
      assert Value(b[1..]) == Value(b[1..][..n - 1]) * 256 + b[n];
      assert Pow256(n) == 256 * Pow256(n - 1);
      assert b[0] * Pow256(n) == b[0] * Pow256(n - 1) * 256;
    }
  }

  lemma MulLess(x: nat, y: nat, p: nat)
    requires x < y
    ensures x * p + p <= y * p
  {
    assert (y - x) * p >= p by { if y - x > 1 { assert (y - x) * p == p + (y - x - 1) * p; } }
  }

  /** For byte strings of one length the order of the bytes is the order of the numbers. */
  lemma {:induction false} LexIsNumeric(a: Bytes, b: Bytes)
    requires |a| == |b|
    ensures LexLess(a, b) <==> Value(a) < Value(b)
  {
    if a != [] {
      ValueFromFront(a);
      ValueFromFront(b);
      ValueBound(a[1..]);
      ValueBound(b[1..]);
      var p := Pow256(|a| - 1);
      if a[0] < b[0] {
        MulLess(a[0], b[0], p);
      } else if b[0] < a[0] {
        MulLess(b[0], a[0], p);
      } else {
        LexIsNumeric(a[1..], b[1..]);
      }
    }
  }
}
