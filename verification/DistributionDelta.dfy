/** distributionDelta: the per-bucket changes accumulated over every touched address
    of one mutation (internal/store/distribution.go). */
module DistributionDelta {
  import opened Wrappers
  import opened Int64
  import opened Chain
  import opened Tables
  import opened Distribution

  /** A Go map read: a missing key is zero. */
  function At(m: map<nat, int64>, i: nat): int64 {
    if i in m then m[i] else 0
  }

  lemma WrapThrice(x: int, a: int, b: int)
    ensures Wrap(Wrap(Wrap(x) + a) + b) == Wrap(x + a + b)
  {
    WrapAdd(x, a);
    WrapAdd(x + a, b);
  }

  class Delta {
    var count: map<nat, int64>
    var balance: map<nat, int64>

    constructor ()
      ensures count == map[] && balance == map[]
    {
      count, balance := map[], map[];
    }

    /** Exactly the difference between two histograms. */
    ghost predicate Describes(m: map<Address, AddressRow>, n: map<Address, AddressRow>)
      reads this
    {
      forall i: nat :: i < 8 ==> At(count, i) == CountDelta(m, n, i) && At(balance, i) == BalanceDelta(m, n, i)
    }

    /** One address's balance goes from `before` to `now`. */
    method Observe(before: int64, now: int64)
      modifies this
      ensures forall i: nat :: i < 8 ==>
                && At(count, i) == Wrap(At(old(count), i) - CountShare(before, i) + CountShare(now, i))
                && At(balance, i) == Wrap(At(old(balance), i) - BalanceShare(before, i) + BalanceShare(now, i))
    {
      hide Wrap, CountShare, BalanceShare, At;
      Left(before);
      Entered(now);
      forall i: nat | i < 8
        ensures At(count, i) == Wrap(At(old(count), i) - CountShare(before, i) + CountShare(now, i))
        ensures At(balance, i) == Wrap(At(old(balance), i) - BalanceShare(before, i) + BalanceShare(now, i))
      {
        WrapThrice(At(old(count), i), -CountShare(before, i), CountShare(now, i));
        WrapThrice(At(old(balance), i), -BalanceShare(before, i), BalanceShare(now, i));
      }
    }

    /** The address leaves the bucket of its old balance, if that was positive. */
    method Left(before: int64)
      modifies this
      ensures forall i: nat :: i < 8 ==>
                && At(count, i) == Wrap(At(old(count), i) - CountShare(before, i))
                && At(balance, i) == Wrap(At(old(balance), i) - BalanceShare(before, i))
    {
      var bucket := BucketForBalance(before);
      if bucket.Some? {
        var held: int := before;
        count := count[bucket.value := Wrap(At(count, bucket.value) - 1)];
        balance := balance[bucket.value := Wrap(At(balance, bucket.value) - held)];
      }
    }

    /** It enters the bucket of its new balance, if that is positive. */
    method Entered(now: int64)
      modifies this
      ensures forall i: nat :: i < 8 ==>
                && At(count, i) == Wrap(At(old(count), i) + CountShare(now, i))
                && At(balance, i) == Wrap(At(old(balance), i) + BalanceShare(now, i))
    {
      var bucket := BucketForBalance(now);
      if bucket.Some? {
        var held: int := now;
        count := count[bucket.value := Wrap(At(count, bucket.value) + 1)];
        balance := balance[bucket.value := Wrap(At(balance, bucket.value) + held)];
      }
    }
  }

  lemma EmptyDescribes(m: map<Address, AddressRow>, i: nat)
    ensures CountDelta(m, m, i) == 0 && BalanceDelta(m, m, i) == 0
  {
  }

  /** Observing one address's transition carries the description forward. */
  lemma TransitionDelta(m0: map<Address, AddressRow>, m: map<Address, AddressRow>, n: map<Address, AddressRow>, a: Address, i: nat)
    requires DifferOnlyAt(m, n, a)
    ensures CountDelta(m0, n, i) == Wrap(CountDelta(m0, m, i) - CountShare(BalanceIn(m, a), i) + CountShare(BalanceIn(n, a), i))
    ensures BalanceDelta(m0, n, i) == Wrap(BalanceDelta(m0, m, i) - BalanceShare(BalanceIn(m, a), i) + BalanceShare(BalanceIn(n, a), i))
  {
    hide Wrap, HistCount, HistBalance, CountShare, BalanceShare;
    HistTransition(m, n, a, i);
    WrapAdd(HistCount(m, i) - HistCount(m0, i), CountShare(BalanceIn(n, a), i) - CountShare(BalanceIn(m, a), i));
    WrapAdd(HistBalance(m, i) - HistBalance(m0, i), BalanceShare(BalanceIn(n, a), i) - BalanceShare(BalanceIn(m, a), i));
  }
}
