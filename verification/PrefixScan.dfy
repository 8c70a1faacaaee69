/** Scanning an ordered key-value store by prefix, through a lower and an upper key bound. */
module PrefixScan {
  import opened BigEndian
  import opened Options

  predicate AllOnes(b: Bytes) {
    forall x <- b :: x == 255
  }

  /** Keys from the lower bound up to, not including, the upper bound, if there is one. */
  predicate InBounds(key: Bytes, lower: Bytes, upper: Option<Bytes>) {
    !LexLess(key, lower) && (upper.None? || LexLess(key, upper.value))
  }

  /** Increments the last byte that is not 0xff and drops what follows; no bound when there is none. */
  method PrefixUpperBound(prefix: Bytes) returns (upper: Option<Bytes>)
    ensures forall key: Bytes :: InBounds(key, prefix, upper) <==> HasPrefix(key, prefix)
  {
    if |prefix| == 0 {
      return None;
    }
    var i := |prefix| - 1;
    while i >= 0 && prefix[i] == 255
      invariant -1 <= i < |prefix|
      invariant AllOnes(prefix[i + 1..])
    {
      assert prefix[i..] == [prefix[i]] + prefix[i + 1..];
      i := i - 1;
    }
    if i < 0 {
      assert prefix[0..] == prefix;
      forall key: Bytes ensures InBounds(key, prefix, None) <==> HasPrefix(key, prefix) {
        OnesBound(prefix, key);
      }
      return None;
    }
    var next: Byte := prefix[i] + 1;
    var up: Bytes := prefix[..i] + [next];
    forall key: Bytes ensures InBounds(key, prefix, Some(up)) <==> HasPrefix(key, prefix) {
      BumpedBound(prefix[..i], prefix[i], prefix[i + 1..], key);
      assert prefix == prefix[..i] + [prefix[i]] + prefix[i + 1..];
    }
    return Some(up);
  }

  /** Nothing but their own extensions comes after bytes that are all ones. */
  lemma {:induction false} OnesBound(ones: Bytes, key: Bytes)
    requires AllOnes(ones)
    ensures !LexLess(key, ones) <==> HasPrefix(key, ones)
    decreases |ones|
  {
    if ones != [] && key != [] {
      assert ones[0] in ones && forall x <- ones[1..] :: x in ones;
      OnesBound(ones[1..], key[1..]);
      PrefixFromFront(key, ones);
    }
  }

  lemma PrefixFromFront(key: Bytes, prefix: Bytes)
    requires key != [] && prefix != []
    ensures HasPrefix(key, prefix) <==> key[0] == prefix[0] && HasPrefix(key[1..], prefix[1..])
  {
    if |prefix| <= |key| {
      assert key[..|prefix|] == [key[0]] + key[1..][..|prefix| - 1];
      assert prefix == [prefix[0]] + prefix[1..];
    }
  }

  lemma {:induction false} BumpedBound(front: Bytes, x: Byte, ones: Bytes, key: Bytes)
    requires x < 255 && AllOnes(ones)
    ensures
      var prefix: Bytes := front + [x] + ones;
      !LexLess(key, prefix) && LexLess(key, front + [x + 1]) <==> HasPrefix(key, prefix)
    decreases |front|
  {
    var prefix: Bytes, up: Bytes := front + [x] + ones, front + [x + 1];
    if key != [] {
      PrefixFromFront(key, prefix);
      if front == [] {
        assert prefix[1..] == ones && up[1..] == [];
        OnesBound(ones, key[1..]);
      } else {
        assert prefix[1..] == front[1..] + [x] + ones && up[1..] == front[1..] + [x + 1];
        BumpedBound(front[1..], x, ones, key[1..]);
      }
    }
  }

  /* ---------- order ---------- */

  lemma {:induction false} LexTotal(a: Bytes, b: Bytes)
    ensures LexLess(a, b) || a == b || LexLess(b, a)
    ensures !(LexLess(a, b) && LexLess(b, a)) && !LexLess(a, a)
    decreases |a|
  {
    if a != [] {
      LexTotal(a[1..], if b == [] then [] else b[1..]);
      if b != [] && a[0] == b[0] {
        assert a == [a[0]] + a[1..] && b == [b[0]] + b[1..];
        LexTotal(a[1..], b[1..]);
      }
    }
  }

  lemma {:induction false} LexTransitive(a: Bytes, b: Bytes, c: Bytes)
    requires LexLess(a, b) && LexLess(b, c)
    ensures LexLess(a, c)
    decreases |a|
  {
    if a != [] && a[0] == b[0] == c[0] {
      LexTransitive(a[1..], b[1..], c[1..]);
    }
  }

  /** Strings that start with parts of one length compare by those parts first. */
  lemma {:induction false} LexParts(a: Bytes, b: Bytes, c: Bytes, d: Bytes)
    requires |a| == |b|
    ensures LexLess(a + c, b + d) <==> LexLess(a, b) || (a == b && LexLess(c, d))
    decreases |a|
  {
    if a == [] {
      assert a + c == c && b + d == d;
    } else {
      assert (a + c)[1..] == a[1..] + c && (b + d)[1..] == b[1..] + d;
      assert a == [a[0]] + a[1..] && b == [b[0]] + b[1..];
      LexParts(a[1..], b[1..], c, d);
    }
  }

  ghost predicate Ascending(keys: seq<Bytes>) {
    forall i, j | 0 <= i < j < |keys| :: LexLess(keys[i], keys[j])
  }

  /** The least of some keys. */
  method Least(keys: set<Bytes>) returns (least: Bytes)
    requires keys != {}
    ensures least in keys && forall k <- keys :: k == least || LexLess(least, k)
  {
    least :| least in keys;
    var rest := keys - {least};
    while rest != {}
      invariant rest <= keys && least in keys
      invariant forall k <- keys - rest :: k == least || LexLess(least, k)
    {
      var k :| k in rest;
      rest := rest - {k};
      LexTotal(k, least);
      if LexLess(k, least) {
        forall j <- keys - rest ensures j == k || LexLess(k, j) {
          if j != k && j != least {
            LexTransitive(k, least, j);
          }
        }
        least := k;
      }
    }
  }

  /** The keys the store's iterator visits, in its order: those within the bounds of the prefix. */
  method IteratePrefix<V>(store: map<Bytes, V>, prefix: Bytes) returns (keys: seq<Bytes>)
    ensures Ascending(keys)
    ensures forall k: Bytes :: k in keys <==> k in store && HasPrefix(k, prefix)
  {
    var upper := PrefixUpperBound(prefix);
    var rest := set k | k in store && InBounds(k, prefix, upper);
    ghost var all := rest;
    keys := [];
    while rest != {}
      invariant rest <= all
      invariant Ascending(keys)
      invariant forall k: Bytes :: k in keys <==> k in all && k !in rest
      invariant forall i, k | 0 <= i < |keys| && k in rest :: LexLess(keys[i], k)
    {
      var k := Least(rest);
      rest := rest - {k};
      keys := keys + [k];
    }
  }
}
