/** Go's int64: the machine range, wrap-around, and the checked operations built on it. */
module Int64 {
  import opened Wrappers

  const TWO_64: int := 0x1_0000_0000_0000_0000
  const MIN_INT64: int := -0x8000_0000_0000_0000
  const MAX_INT64: int := 0x7FFF_FFFF_FFFF_FFFF

  type int64 = x: int | MIN_INT64 <= x <= MAX_INT64

  predicate InRange(x: int) {
    MIN_INT64 <= x <= MAX_INT64
  }

  /** The int64 that a Go expression holds when its mathematical value is x. */
  function Wrap(x: int): (r: int64)
    ensures (x - r) % TWO_64 == 0
    ensures InRange(x) ==> r == x
  {
    (x - MIN_INT64) % TWO_64 + MIN_INT64
  }

  /** Wrapping is periodic, so it can be postponed to the end of a chain of additions. */
  lemma WrapPeriodic(x: int, k: int)
    ensures Wrap(x + k * TWO_64) == Wrap(x)
  {
    ModPeriodic(x - MIN_INT64, k);
    assert x + k * TWO_64 - MIN_INT64 == (x - MIN_INT64) + k * TWO_64;
  }

  lemma ModPeriodic(x: int, k: int)
    ensures (x + k * TWO_64) % TWO_64 == x % TWO_64
  {
  }

  lemma WrapAdd(x: int, y: int)
    ensures Wrap(Wrap(x) + y) == Wrap(x + y)
    ensures Wrap(x + Wrap(y)) == Wrap(x + y)
  {
    var kx := (x - Wrap(x)) / TWO_64;
    var ky := (y - Wrap(y)) / TWO_64;
    WrapPeriodic(Wrap(x) + y, kx);
    WrapPeriodic(x + Wrap(y), ky);
  }

  function AddChecked(a: int64, b: int64): (r: Option<int64>)
    ensures r == if InRange(a + b) then Some(a + b) else None
  {
    var sum := Wrap(a + b);
    if (b > 0 && sum < a) || (b < 0 && sum > a) then None else Some(sum)
  }

  function SubChecked(a: int64, b: int64): (r: Option<int64>)
    ensures r == if InRange(a - b) then Some(a - b) else None
  {
    var diff := Wrap(a - b);
    if (b < 0 && diff < a) || (b > 0 && diff > a) then None else Some(diff)
  }

  /** Go's integer division: truncated toward zero, then wrapped. */
  function QuoWrapped(a: int64, b: int64): int64
    requires b != 0
  {
    Wrap(Quo(a, b))
  }

  function Quo(a: int, b: int): int
    requires b != 0
  {
    if a >= 0 then a / b else -((-a) / b)
  }

  function MulChecked(a: int64, b: int64): (r: Option<int64>)
  {
    if a == 0 || b == 0 then Some(0)
    else
      var product := Wrap(a * b);
      if QuoWrapped(product, b) != a then None else Some(product)
  }

  /** MulChecked is exact on every pair of operands but one: MinInt64 * -1 is
      reported as the in-range product MinInt64. */
  lemma MulCheckedExact(a: int64, b: int64)
    ensures (MulChecked(a, b) == if InRange(a * b) then Some(a * b) else None)
            <==> !(a == MIN_INT64 && b == -1)
  {
    if a != 0 && b != 0 {
      var p := Wrap(a * b);
      if InRange(a * b) {
        QuoOfProduct(a, b);
      } else if b == -1 {
        assert a == MIN_INT64;
      } else {
        QuoInRange(p, b);
        if Quo(p, b) == a {
          QuoRemainder(p, b);
          WrapDistance(a * b);
          assert false;
        }
      }
    }
  }

  lemma QuoOfProduct(a: int, b: int)
    requires b != 0
    ensures Quo(a * b, b) == a
  {
    var p := a * b;
    if p >= 0 {
      DivUnique(p, b, a);
    } else {
      assert -p == (-a) * b;
      DivUnique(-p, b, -a);
    }
  }

  lemma DivUnique(p: int, b: int, q: int)
    requires b != 0 && p == q * b
    ensures p / b == q
  {
    assert p == (p / b) * b + p % b;
    var d := q - p / b;
    assert d * b == p % b;
    if d != 0 { MulMagnitude(d, b); }
  }

  lemma MulMagnitude(d: int, b: int)
    requires d != 0 && b != 0
    ensures d * b >= b || d * b <= -b
    ensures d * b >= -b || d * b <= b
    ensures d * b != 0
    ensures d * b >= (if b > 0 then b else -b) || d * b < 0
  {
    if d > 0 {
      if b > 0 { assert (d - 1) * b >= 0; } else { assert (d - 1) * -b >= 0; }
    } else {
      if b > 0 { assert (-d - 1) * b >= 0; } else { assert (-d - 1) * -b >= 0; }
    }
  }

  lemma QuoInRange(p: int, b: int)
    requires InRange(p) && InRange(b) && b != 0 && b != -1
    ensures InRange(Quo(p, b))
  {
    var m: int := if p < 0 then -p else p;
    if b > 0 {
      DivBound(m, b, 1);
    } else {
      var c: int := -b;
      DivBound(m, c, 2);
      DivNegative(m, c);
    }
  }

  lemma DivBound(m: int, b: int, c: int)
    requires m >= 0 && b >= c >= 1
    ensures 0 <= c * (m / b) <= m
  {
    assert m == (m / b) * b + m % b;
    assert (m / b) * (b - c) >= 0;
  }

  lemma DivNegative(m: int, c: int)
    requires c > 0
    ensures m / -c == -(m / c)
  {
  }

  lemma QuoRemainder(p: int, b: int)
    requires b != 0
    ensures -(if b > 0 then b else -b) < p - Quo(p, b) * b < (if b > 0 then b else -b)
  {
    if p < 0 {
      assert -p == ((-p) / b) * b + (-p) % b;
      assert Quo(p, b) * b == -(((-p) / b) * b);
    } else {
      assert p == (p / b) * b + p % b;
    }
  }

  lemma WrapDistance(x: int)
    requires !InRange(x)
    ensures x - Wrap(x) >= TWO_64 || x - Wrap(x) <= -TWO_64
  {
  }
}
