/** Every prefix of the canonical chain was once a committed state, and under today's
    destinations it still could be: its address rows fit their columns and none of its
    buckets is negative. */
module Prefixes {
  import opened Wrappers
  import opened Chain
  import opened Tables
  import opened Coins
  import opened Cache
  import opened Distribution
  import opened Integrity
  import opened Determined

  ghost predicate NonNegativeBuckets(m: map<Address, AddressRow>) {
    forall i :: 0 <= i < 8 ==> NonNegativeRow(Rescanned(m, i))
  }

  /** m is the address cache of these coins, and publishing its buckets is not refused. */
  ghost predicate Publishable(m: map<Address, AddressRow>, ar: Archive, c: CoinSet) {
    CacheCoherent(m, ar, c) && NonNegativeBuckets(m)
  }

  ghost predicate CoinsFit(ar: Archive, c: CoinSet) {
    exists m :: Publishable(m, ar, c)
  }

  ghost predicate PrefixesFit(ar: Archive, chain: seq<Hash>) {
    forall n: nat :: n <= |chain| ==> CoinsFit(ar, CoinsOf(ar, chain[..n]))
  }

  lemma NothingFits(ar: Archive)
    ensures PrefixesFit(ar, [])
  {
    var none: seq<Hash> := [];
    EmptyCoherent(ar);
    EmptyBucketsCoherent();
    assert Publishable(map[], ar, map[]);
    forall n: nat | n <= |none|
      ensures CoinsFit(ar, CoinsOf(ar, none[..n]))
    {
      assert CoinsFit(ar, map[]);
    }
  }

  lemma ShorterFits(ar: Archive, chain: seq<Hash>, k: nat)
    requires k <= |chain| && PrefixesFit(ar, chain)
    ensures PrefixesFit(ar, chain[..k])
  {
    forall n: nat | n <= k
      ensures CoinsFit(ar, CoinsOf(ar, chain[..k][..n]))
    {
      assert chain[..k][..n] == chain[..n];
    }
  }

  /** A bucket update towards a prefix's coins is accepted. */
  lemma UpdateAccepted(b: seq<BucketRow>, m: map<Address, AddressRow>, n: map<Address, AddressRow>, ar: Archive, c: CoinSet)
    requires BucketsCoherent(b, m) && CacheCoherent(n, ar, c) && CoinsFit(ar, c)
    ensures BucketsAfter(b, m, n).Ok?
  {
    hide BucketsAfter, BucketsCoherent, CacheCoherent, Rescanned;
    var p :| Publishable(p, ar, c);
    CacheUnique(p, n, ar, c);
    BucketsAfterIff(b, m, n);
  }

  lemma AcceptedFits(b: seq<BucketRow>, m: map<Address, AddressRow>, ar: Archive, c: CoinSet)
    requires BucketsCoherent(b, m) && CacheCoherent(m, ar, c)
    ensures CoinsFit(ar, c)
  {
    assert Publishable(m, ar, c);
  }

  /** The same coins with the same destinations fit elsewhere too. */
  lemma FitsElsewhere(ar: Archive, ar': Archive, chain: seq<Hash>)
    requires SameChainRows(ar, ar', chain) && CoinsOk(ar, CoinsOf(ar, chain))
    requires SameDestinations(ar, ar', CoinsOf(ar, chain)) && CoinsFit(ar, CoinsOf(ar, chain))
    ensures CoinsFit(ar', CoinsOf(ar', chain))
  {
    hide CoinsOf, SameChainRows, SameDestinations, CoinsOk, NonNegativeBuckets;
    var c := CoinsOf(ar, chain);
    var m :| Publishable(m, ar, c);
    SameChainFold(ar, ar', chain);
    forall a
      ensures RowCoherent(m, ar', c, a)
    {
      SameSlices(ar, ar', chain, a);
      assert RowCoherent(m, ar, c, a);
    }
    assert Publishable(m, ar', c);
  }

  lemma SameChainFold(ar: Archive, ar': Archive, chain: seq<Hash>)
    requires SameChainRows(ar, ar', chain)
    ensures CoinsOf(ar, chain) == CoinsOf(ar', chain)
  {
    CoinsOfSame(ar, ar', chain);
  }
}
