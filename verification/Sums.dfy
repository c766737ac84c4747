/** Sums over the values of a finite map, and extremes of a finite set: the
    meaning of SQL's SUM, MIN and MAX. */
module Sums {

  ghost function Sum<K>(m: map<K, int>): int
    decreases |m|
  {
    if m == map[] then 0
    else
      var k :| k in m;
      assert |m - {k}| < |m| by { Smaller(m, k); }
      m[k] + Sum(m - {k})
  }

  lemma Smaller<K, V>(m: map<K, V>, k: K)
    requires k in m
    ensures |m - {k}| == |m| - 1
  {
    assert (m - {k}).Keys == m.Keys - {k};
  }

  /** Any key may be taken out first: the order of summation is irrelevant. */
  lemma {:induction false} SumTake<K>(m: map<K, int>, k: K)
    requires k in m
    ensures Sum(m) == m[k] + Sum(m - {k})
    decreases |m|
  {
    var j :| j in m && Sum(m) == m[j] + Sum(m - {j});
    if j != k {
      Smaller(m, j);
      SumTake(m - {j}, k);
      Smaller(m, k);
      SumTake(m - {k}, j);
      assert m - {j} - {k} == m - {k} - {j};
    }
  }

  lemma SumPut<K>(m: map<K, int>, k: K, v: int)
    ensures Sum(m[k := v]) == Sum(m) - (if k in m then m[k] else 0) + v
  {
    SumTake(m[k := v], k);
    assert m[k := v] - {k} == m - {k};
    if k in m {
      SumTake(m, k);
    } else {
      assert m - {k} == m;
    }
  }

  lemma {:induction false} SumNonNegative<K>(m: map<K, int>)
    requires forall k :: k in m ==> m[k] >= 0
    ensures Sum(m) >= 0
    decreases |m|
  {
    if m != map[] {
      var k :| k in m;
      SumTake(m, k);
      Smaller(m, k);
      SumNonNegative(m - {k});
    }
  }

  /** Keywise domination carries over to the sums. */
  lemma {:induction false} SumMonotone<K>(m: map<K, int>, n: map<K, int>)
    requires forall k :: k in m ==> k in n && m[k] <= n[k]
    requires forall k :: k in n && k !in m ==> n[k] >= 0
    ensures Sum(m) <= Sum(n)
    decreases |m|
  {
    if m == map[] {
      SumNonNegative(n);
    } else {
      var k :| k in m;
      SumTake(m, k);
      SumTake(n, k);
      Smaller(m, k);
      SumMonotone(m - {k}, n - {k});
    }
  }

  /** A sum splits along any partition of the keys. */
  lemma {:induction false} SumSplit<K>(m: map<K, int>, s: set<K>)
    ensures Sum(m) == Sum(map k | k in m && k in s :: m[k]) + Sum(m - s)
    decreases |m|
  {
    var inside := map k | k in m && k in s :: m[k];
    if m != map[] {
      var k :| k in m;
      Smaller(m, k);
      SumSplit(m - {k}, s);
      SumTake(m, k);
      var inside' := map j | j in m - {k} && j in s :: (m - {k})[j];
      if k in s {
        SumTake(inside, k);
        assert inside - {k} == inside';
        assert m - {k} - s == m - s;
      } else {
        assert inside == inside';
        SumTake(m - s, k);
        assert m - {k} - s == m - s - {k};
      }
    }
  }

  /** Adding non-negative values leaves a sum alone exactly when they are all zero. */
  lemma SumExtended<K>(m: map<K, int>, n: map<K, int>)
    requires forall k :: k in m ==> k in n && n[k] == m[k]
    requires forall k :: k in n && k !in m ==> n[k] >= 0
    ensures Sum(n) == Sum(m) <==> forall k :: k in n && k !in m ==> n[k] == 0
  {
    var extra := n - m.Keys;
    SumSplit(n, m.Keys);
    assert (map k | k in n && k in m.Keys :: n[k]) == m;
    if k :| k in extra && extra[k] > 0 {
      SumTake(extra, k);
      SumNonNegative(extra - {k});
    } else {
      SumZero(extra);
    }
  }

  lemma {:induction false} SumZero<K>(m: map<K, int>)
    requires forall k :: k in m ==> m[k] == 0
    ensures Sum(m) == 0
    decreases |m|
  {
    if k :| k in m {
      SumTake(m, k);
      Smaller(m, k);
      SumZero(m - {k});
    }
  }

  lemma SubsetSize<K>(a: set<K>, b: set<K>)
    requires a <= b
    ensures |a| <= |b|
  {
    assert b == a + (b - a);
  }

  ghost predicate IsMin(x: int, s: set<int>) {
    x in s && forall y :: y in s ==> x <= y
  }

  ghost predicate IsMax(x: int, s: set<int>) {
    x in s && forall y :: y in s ==> y <= x
  }

  lemma Pick<T>(s: set<T>) returns (x: T)
    requires s != {}
    ensures x in s
  {
    x :| x in s;
  }

  lemma {:induction false} MinExists(s: set<int>) returns (x: int)
    requires s != {}
    ensures IsMin(x, s)
    decreases |s|
  {
    x := Pick(s);
    if s - {x} != {} {
      var y := MinExists(s - {x});
      assert s == s - {x} + {x};
      x := if y < x then y else x;
    } else {
      assert s == {x};
    }
  }

  lemma {:induction false} MaxExists(s: set<int>) returns (x: int)
    requires s != {}
    ensures IsMax(x, s)
    decreases |s|
  {
    x := Pick(s);
    if s - {x} != {} {
      var y := MaxExists(s - {x});
      assert s == s - {x} + {x};
      x := if y > x then y else x;
    } else {
      assert s == {x};
    }
  }

  ghost function Min(s: set<int>): (x: int)
    requires s != {}
    ensures IsMin(x, s)
  {
    assert exists x :: IsMin(x, s) by { var x := MinExists(s); }
    var x :| IsMin(x, s);
    x
  }

  ghost function Max(s: set<int>): (x: int)
    requires s != {}
    ensures IsMax(x, s)
  {
    assert exists x :: IsMax(x, s) by { var x := MaxExists(s); }
    var x :| IsMax(x, s);
    x
  }
}
