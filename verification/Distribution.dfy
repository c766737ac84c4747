/** internal/store/distribution.go: eight fixed balance buckets, maintained only by
    accumulated differences. */
module Distribution {
  import opened Wrappers
  import opened Errors
  import opened Int64
  import opened Chain
  import opened Tables
  import opened Sums

  const SATOSHIS_PER_QOGE: int64 := 100_000_000

  datatype Bounds = Bounds(min: int64, max: Option<int64>)

  const BUCKETS: seq<Bounds> := [
    Bounds(1, Some(SATOSHIS_PER_QOGE - 1)),
    Bounds(SATOSHIS_PER_QOGE, Some(10 * SATOSHIS_PER_QOGE - 1)),
    Bounds(10 * SATOSHIS_PER_QOGE, Some(100 * SATOSHIS_PER_QOGE - 1)),
    Bounds(100 * SATOSHIS_PER_QOGE, Some(1_000 * SATOSHIS_PER_QOGE - 1)),
    Bounds(1_000 * SATOSHIS_PER_QOGE, Some(10_000 * SATOSHIS_PER_QOGE - 1)),
    Bounds(10_000 * SATOSHIS_PER_QOGE, Some(100_000 * SATOSHIS_PER_QOGE - 1)),
    Bounds(100_000 * SATOSHIS_PER_QOGE, Some(1_000_000 * SATOSHIS_PER_QOGE - 1)),
    Bounds(1_000_000 * SATOSHIS_PER_QOGE, None)
  ]

  predicate Within(i: nat, balance: int)
    requires i < 8
  {
    BUCKETS[i].min <= balance && (BUCKETS[i].max.Some? ==> balance <= BUCKETS[i].max.value)
  }

  /** The eight ranges partition the positive balances. */
  function BucketOf(balance: int): (r: Option<nat>)
    ensures r.None? <==> balance <= 0
    ensures r.Some? ==> r.value < 8 && Within(r.value, balance)
    ensures forall i: nat :: i < 8 && Within(i, balance) ==> r == Some(i)
    ensures r == Some(0) <==> 1 <= balance < 100_000_000
    ensures r == Some(1) <==> 100_000_000 <= balance < 1_000_000_000
    ensures r == Some(2) <==> 1_000_000_000 <= balance < 10_000_000_000
    ensures r == Some(3) <==> 10_000_000_000 <= balance < 100_000_000_000
    ensures r == Some(4) <==> 100_000_000_000 <= balance < 1_000_000_000_000
    ensures r == Some(5) <==> 1_000_000_000_000 <= balance < 10_000_000_000_000
    ensures r == Some(6) <==> 10_000_000_000_000 <= balance < 100_000_000_000_000
    ensures r == Some(7) <==> 100_000_000_000_000 <= balance
  {
    if balance <= 0 then None
    else if balance < SATOSHIS_PER_QOGE then Some(0)
    else if balance < 10 * SATOSHIS_PER_QOGE then Some(1)
    else if balance < 100 * SATOSHIS_PER_QOGE then Some(2)
    else if balance < 1_000 * SATOSHIS_PER_QOGE then Some(3)
    else if balance < 10_000 * SATOSHIS_PER_QOGE then Some(4)
    else if balance < 100_000 * SATOSHIS_PER_QOGE then Some(5)
    else if balance < 1_000_000 * SATOSHIS_PER_QOGE then Some(6)
    else Some(7)
  }

  /** The table scan finds that bucket. */
  method BucketForBalance(balance: int64) returns (r: Option<nat>)
    ensures r == BucketOf(balance)
  {
    if balance <= 0 {
      return None;
    }
    var i := 0;
    ghost var k := BucketOf(balance).value;
    while i < 8
      invariant 0 <= i <= 8
      invariant i <= k
    {
      if balance < BUCKETS[i].min {
        Ascending(i, k);
        break;
      }
      if BUCKETS[i].max.None? || balance <= BUCKETS[i].max.value {
        return Some(i);
      }
      i := i + 1;
    }
    assert false;
  }

  lemma Ascending(i: nat, j: nat)
    requires i <= j < 8
    ensures BUCKETS[i].min <= BUCKETS[j].min
  {
  }

  // --- the histogram the buckets stand for ---

  function Members(m: map<Address, AddressRow>, i: nat): set<Address> {
    set a | a in m && BucketOf(m[a].balance) == Some(i)
  }

  function Balances(m: map<Address, AddressRow>, s: set<Address>): map<Address, int> {
    map a | a in m && a in s :: m[a].balance
  }

  function HistCount(m: map<Address, AddressRow>, i: nat): nat {
    |Members(m, i)|
  }

  ghost function HistBalance(m: map<Address, AddressRow>, i: nat): int {
    Sum(Balances(m, Members(m, i)))
  }

  function BalanceIn(m: map<Address, AddressRow>, a: Address): int {
    if a in m then m[a].balance else 0
  }

  function CountShare(balance: int, i: nat): int {
    if BucketOf(balance) == Some(i) then 1 else 0
  }

  function BalanceShare(balance: int, i: nat): int {
    if BucketOf(balance) == Some(i) then balance else 0
  }

  ghost predicate DifferOnlyAt(m: map<Address, AddressRow>, n: map<Address, AddressRow>, a: Address) {
    m - {a} == n - {a}
  }

  lemma MembersWithout(m: map<Address, AddressRow>, a: Address, i: nat)
    ensures Members(m - {a}, i) == Members(m, i) - {a}
    ensures a in Members(m, i) <==> a in m && CountShare(BalanceIn(m, a), i) == 1
    ensures a !in Members(m, i) <==> CountShare(BalanceIn(m, a), i) == 0
  {
  }

  lemma HistWithout(m: map<Address, AddressRow>, a: Address, i: nat)
    ensures HistCount(m, i) == HistCount(m - {a}, i) + CountShare(BalanceIn(m, a), i)
    ensures HistBalance(m, i) == HistBalance(m - {a}, i) + BalanceShare(BalanceIn(m, a), i)
  {
    MembersWithout(m, a, i);
    var all, rest := Balances(m, Members(m, i)), Balances(m - {a}, Members(m - {a}, i));
    if a in Members(m, i) {
      SumTake(all, a);
      assert all - {a} == rest;
    } else {
      assert all == rest;
    }
  }

  /** One address's transition moves exactly its own share of the histogram. */
  lemma HistTransition(m: map<Address, AddressRow>, n: map<Address, AddressRow>, a: Address, i: nat)
    requires DifferOnlyAt(m, n, a)
    ensures HistCount(n, i) - HistCount(m, i) == CountShare(BalanceIn(n, a), i) - CountShare(BalanceIn(m, a), i)
    ensures HistBalance(n, i) - HistBalance(m, i) == BalanceShare(BalanceIn(n, a), i) - BalanceShare(BalanceIn(m, a), i)
  {
    HistWithout(m, a, i);
    HistWithout(n, a, i);
  }

  // --- publishing the accumulated differences ---

  ghost function CountDelta(m: map<Address, AddressRow>, n: map<Address, AddressRow>, i: nat): int64 {
    Wrap(HistCount(n, i) - HistCount(m, i))
  }

  ghost function BalanceDelta(m: map<Address, AddressRow>, n: map<Address, AddressRow>, i: nat): int64 {
    Wrap(HistBalance(n, i) - HistBalance(m, i))
  }

  function ShiftRow(row: BucketRow, count: int64, balance: int64): BucketRow {
    BucketRow(Wrap(row.count + count), Wrap(row.balance + balance))
  }

  predicate NonNegativeRow(row: BucketRow) {
    row.count >= 0 && row.balance >= 0
  }

  /** The delta of one bucket is published unless it would make the bucket negative;
      a bucket whose delta is zero is not touched at all. */
  predicate RowAccepts(row: BucketRow, count: int64, balance: int64) {
    (count != 0 || balance != 0) ==> NonNegativeRow(ShiftRow(row, count, balance))
  }

  ghost function BucketsAfter(b: seq<BucketRow>, m: map<Address, AddressRow>, n: map<Address, AddressRow>): (r: Result<seq<BucketRow>, Error>)
    requires |b| == 8
    ensures r.Ok? ==> |r.value| == 8
  {
    if forall i :: 0 <= i < 8 ==> RowAccepts(b[i], CountDelta(m, n, i), BalanceDelta(m, n, i)) then
      Ok(seq(8, i requires 0 <= i < 8 => ShiftRow(b[i], CountDelta(m, n, i), BalanceDelta(m, n, i))))
    else Err(DistributionInvariant)
  }

  /** The bucket a rescan of all addresses would give, as Go's int64 would hold it. */
  ghost function Rescanned(m: map<Address, AddressRow>, i: nat): BucketRow {
    BucketRow(Wrap(HistCount(m, i)), Wrap(HistBalance(m, i)))
  }

  ghost predicate BucketsCoherent(b: seq<BucketRow>, m: map<Address, AddressRow>) {
    |b| == 8 && forall i :: 0 <= i < 8 ==> b[i] == Rescanned(m, i) && NonNegativeRow(b[i])
  }

  lemma WrapShift(x: int, y: int)
    ensures Wrap(Wrap(x) + Wrap(y - x)) == Wrap(y)
  {
    WrapAdd(x, Wrap(y - x));
    WrapAdd(x, y - x);
  }

  lemma ShiftRescanned(m: map<Address, AddressRow>, n: map<Address, AddressRow>, i: nat)
    ensures ShiftRow(Rescanned(m, i), CountDelta(m, n, i), BalanceDelta(m, n, i)) == Rescanned(n, i)
  {
    hide HistCount, HistBalance, Wrap;
    WrapShift(HistCount(m, i), HistCount(n, i));
    WrapShift(HistBalance(m, i), HistBalance(n, i));
  }

  /** Publishing deltas is refused exactly when a full rescan would not give eight
      non-negative buckets, and otherwise gives exactly that rescan. */
  lemma BucketsAfterIff(b: seq<BucketRow>, m: map<Address, AddressRow>, n: map<Address, AddressRow>)
    requires BucketsCoherent(b, m)
    ensures BucketsAfter(b, m, n).Ok? <==> forall i :: 0 <= i < 8 ==> NonNegativeRow(Rescanned(n, i))
    ensures BucketsAfter(b, m, n).Ok? ==> BucketsCoherent(BucketsAfter(b, m, n).value, n)
  {
    forall i | 0 <= i < 8
      ensures ShiftRow(b[i], CountDelta(m, n, i), BalanceDelta(m, n, i)) == Rescanned(n, i)
      ensures RowAccepts(b[i], CountDelta(m, n, i), BalanceDelta(m, n, i)) <==> NonNegativeRow(Rescanned(n, i))
    {
      ShiftRescanned(m, n, i);
    }
  }

  lemma BucketsUnique(b: seq<BucketRow>, b': seq<BucketRow>, m: map<Address, AddressRow>)
    requires BucketsCoherent(b, m) && BucketsCoherent(b', m)
    ensures b == b'
  {
  }

  const ZERO := BucketRow(0, 0)
  const EMPTY_BUCKETS: seq<BucketRow> := [ZERO, ZERO, ZERO, ZERO, ZERO, ZERO, ZERO, ZERO]

  lemma EmptyBucketsCoherent()
    ensures BucketsCoherent(EMPTY_BUCKETS, map[])
  {
    forall i | 0 <= i < 8
      ensures EMPTY_BUCKETS[i] == Rescanned(map[], i)
    {
      assert Members(map[], i) == {};
      assert Balances(map[], {}) == map[];
    }
  }

  /** Every member of a bucket holds at least one satoshi, so the count never exceeds
      the balance. */
  lemma {:induction false} CountBelowBalance(m: map<Address, AddressRow>, s: set<Address>)
    requires forall a :: a in s ==> a in m && m[a].balance >= 1
    ensures |s| <= Sum(Balances(m, s))
    decreases |s|
  {
    if s == {} {
      assert Balances(m, s) == map[];
    } else {
      var a := Pick(s);
      CountBelowBalance(m, s - {a});
      SumTake(Balances(m, s), a);
      assert Balances(m, s) - {a} == Balances(m, s - {a});
    }
  }

  /** When the histogram fits int64 the stored bucket is exact, not merely congruent. */
  lemma BucketExact(b: seq<BucketRow>, m: map<Address, AddressRow>, i: nat)
    requires BucketsCoherent(b, m) && i < 8 && HistBalance(m, i) <= MAX_INT64
    ensures b[i].count == HistCount(m, i) && b[i].balance == HistBalance(m, i)
  {
    CountBelowBalance(m, Members(m, i));
  }

  lemma RescannedNonNegative(m: map<Address, AddressRow>, i: nat)
    requires i < 8 && HistBalance(m, i) <= MAX_INT64
    ensures NonNegativeRow(Rescanned(m, i))
  {
    CountBelowBalance(m, Members(m, i));
  }
}
