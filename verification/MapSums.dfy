/** Sums over the values of a finite map. */
module MapSums {

  ghost function Sum<T(!new)>(m: map<T, int>): int
    decreases |m|
  {
    if m == map[] then 0 else
    var k :| k in m;
    assert (m - {k}).Keys == m.Keys - {k};
    m[k] + Sum(m - {k})
  }

  /** Any key may be taken out first. */
  lemma {:induction false} SumRemove<T(!new)>(m: map<T, int>, k: T)
    requires k in m
    ensures Sum(m) == m[k] + Sum(m - {k})
    decreases |m|
  {
    var j :| j in m && Sum(m) == m[j] + Sum(m - {j});
    if j != k {
      assert (m - {j}).Keys == m.Keys - {j} && (m - {k}).Keys == m.Keys - {k};
      SumRemove(m - {j}, k);
      SumRemove(m - {k}, j);
      assert m - {j} - {k} == m - {k} - {j};
    }
  }

  lemma SumEmpty<T(!new)>()
    ensures Sum<T>(map[]) == 0
  {
  }

  lemma SumUpdate<T(!new)>(m: map<T, int>, k: T, v: int)
    ensures Sum(m[k := v]) == Sum(m) - (if k in m then m[k] else 0) + v
  {
    hide Sum;
    SumRemove(m[k := v], k);
    assert m[k := v] - {k} == m - {k};
    if k in m {
      SumRemove(m, k);
    } else {
      assert m - {k} == m;
    }
  }

  lemma {:induction false} SumMonotone<T(!new)>(m: map<T, int>, n: map<T, int>)
    requires m.Keys == n.Keys
    requires forall k <- m.Keys :: m[k] <= n[k]
    ensures Sum(m) <= Sum(n)
    decreases |m|
  {
    hide Sum;
    SumEmpty<T>();
    if m != map[] {
      var k :| k in m;
      SumRemove(m, k);
      SumRemove(n, k);
      assert (m - {k}).Keys == m.Keys - {k};
      SumMonotone(m - {k}, n - {k});
    } else {
      assert n == map[];
    }
  }

  lemma {:induction false} SumNonNegative<T(!new)>(m: map<T, int>)
    requires forall k <- m.Keys :: m[k] >= 0
    ensures Sum(m) >= 0
    decreases |m|
  {
    hide Sum;
    SumEmpty<T>();
    if m != map[] {
      var k :| k in m;
      SumRemove(m, k);
      assert (m - {k}).Keys == m.Keys - {k};
      SumNonNegative(m - {k});
    }
  }

  ghost function Restrict<T(!new)>(m: map<T, int>, s: set<T>): map<T, int> {
    map k | k in m && k in s :: m[k]
  }

  lemma NothingInside<T(!new)>(m: map<T, int>, s: set<T>)
    requires Restrict(m, s) == map[]
    ensures m - s == m
  {
    assert forall k <- m.Keys :: k in s ==> k in Restrict(m, s);
  }

  lemma RestrictWithout<T(!new)>(m: map<T, int>, s: set<T>, k: T)
    requires k in s
    ensures Restrict(m - {k}, s) == Restrict(m, s) - {k} && m - {k} - s == m - s
  {
  }

  /** The keys in `s` and the keys outside it. */
  lemma {:induction false} SumSplit<T(!new)>(m: map<T, int>, s: set<T>)
    ensures Sum(m) == Sum(Restrict(m, s)) + Sum(m - s)
    decreases |m|
  {
    hide Sum;
    SumEmpty<T>();
    var inside := Restrict(m, s);
    if inside == map[] {
      NothingInside(m, s);
    } else {
      var k :| k in inside;
      SumRemove(m, k);
      SumRemove(inside, k);
      assert (m - {k}).Keys == m.Keys - {k};
      SumSplit(m - {k}, s);
      RestrictWithout(m, s, k);
    }
  }

  lemma Distribute(k: int, a: int, b: int)
    ensures k * (a + b) == k * a + k * b
  {
  }

  lemma DistributeMinus(k: int, a: int, b: int)
    ensures k * (a - b) == k * a - k * b
  {
  }

  ghost function Plus<T(!new)>(a: map<T, int>, b: map<T, int>): map<T, int>
    requires a.Keys == b.Keys
  {
    map x | x in a :: a[x] + b[x]
  }

  lemma {:induction false} SumPlus<T(!new)>(a: map<T, int>, b: map<T, int>)
    requires a.Keys == b.Keys
    ensures Sum(Plus(a, b)) == Sum(a) + Sum(b)
    decreases |a|
  {
    hide Sum;
    SumEmpty<T>();
    if a == map[] {
      assert b == map[] && Plus(a, b) == map[];
    } else {
      var x :| x in a;
      SumRemove(a, x);
      SumRemove(b, x);
      SumRemove(Plus(a, b), x);
      assert (a - {x}).Keys == a.Keys - {x};
      assert Plus(a, b) - {x} == Plus(a - {x}, b - {x});
      SumPlus(a - {x}, b - {x});
    }
  }

  ghost function Scaled<T(!new)>(k: int, m: map<T, int>): map<T, int> {
    map x | x in m :: k * m[x]
  }

  lemma ScaledWithout<T(!new)>(k: int, m: map<T, int>, x: T)
    ensures Scaled(k, m) - {x} == Scaled(k, m - {x})
  {
  }

  lemma {:induction false} SumScaled<T(!new)>(k: int, m: map<T, int>)
    ensures Sum(Scaled(k, m)) == k * Sum(m)
    decreases |m|
  {
    hide Sum;
    SumEmpty<T>();
    var s := Scaled(k, m);
    if m == map[] {
      assert s == map[];
    } else {
      var x :| x in m;
      SumRemove(s, x);
      SumRemove(m, x);
      assert (m - {x}).Keys == m.Keys - {x};
      ScaledWithout(k, m, x);
      SumScaled(k, m - {x});
      Distribute(k, m[x], Sum(m - {x}));
    }
  }
}
