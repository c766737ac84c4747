/** The canonical chain and its blocks' own rows determine every derived table, so the
    way a store got there cannot matter. */
module Determined {
  import opened Wrappers
  import opened Chain
  import opened Tables
  import opened Accounting
  import opened Coins
  import opened Cache
  import opened Distribution
  import opened StoreSpec
  import opened Integrity
  import opened Coherence
  import opened ApplyCoherence
  import opened Conservation

  /** Both stores hold the same rows for every block of the chain. */
  ghost predicate SameChainRows(ar: Archive, ar': Archive, chain: seq<Hash>) {
    forall h :: h in chain ==> SameBlock(ar, ar', h)
  }

  /** Both stores name the same destination, or none, for this output. */
  ghost predicate SameDestination(ar: Archive, ar': Archive, op: OutPoint) {
    && (op in ar.outAddrs <==> op in ar'.outAddrs)
    && (op in ar.outAddrs ==> ar.outAddrs[op] == ar'.outAddrs[op])
  }

  ghost predicate SameDestinations(ar: Archive, ar': Archive, c: CoinSet) {
    forall op :: op in c ==> SameDestination(ar, ar', op)
  }

  lemma SpenderMentioned(c: CoinSet, op: OutPoint)
    requires op in c
    ensures Mentions(c, c[op].creation)
    ensures c[op].spend.Some? ==> Mentions(c, c[op].spend.value.block)
  {
  }

  lemma SameActivity(ar: Archive, ar': Archive, chain: seq<Hash>, op: OutPoint)
    requires SameChainRows(ar, ar', chain) && CoinsOk(ar, CoinsOf(ar, chain)) && op in CoinsOf(ar, chain)
    ensures ActivityOf(ar, op, CoinsOf(ar, chain)[op]) == ActivityOf(ar', op, CoinsOf(ar, chain)[op])
    ensures op.txid in ar.txs && op.txid in ar'.txs && ar.txs[op.txid] == ar'.txs[op.txid]
  {
    var c := CoinsOf(ar, chain);
    assert CoinOk(ar, op, c[op]);
    SpenderMentioned(c, op);
    CoinsMentionChain(ar, chain, c[op].creation);
    assert SameBlock(ar, ar', c[op].creation);
    if c[op].spend.Some? {
      CoinsMentionChain(ar, chain, c[op].spend.value.block);
      assert SameBlock(ar, ar', c[op].spend.value.block);
    }
  }

  lemma SameSlices(ar: Archive, ar': Archive, chain: seq<Hash>, a: Address)
    requires SameChainRows(ar, ar', chain) && CoinsOk(ar, CoinsOf(ar, chain))
    requires SameDestinations(ar, ar', CoinsOf(ar, chain))
    ensures SliceOf(ar', CoinsOf(ar, chain), a) == SliceOf(ar, CoinsOf(ar, chain), a)
  {
    hide ActivityOf, CoinsOf, CoinsOk;
    var c := CoinsOf(ar, chain);
    forall op
      ensures OwnsAlike(ar, c, ar', c, a, op)
    {
      if op in c {
        SameActivity(ar, ar', chain, op);
        assert SameDestination(ar, ar', op);
      }
    }
    SliceEqual(ar, c, ar', c, a);
  }

  lemma SameCache(s: Database, t: Database, chain: seq<Hash>)
    requires SameChainRows(s.ar, t.ar, chain) && CoinsOk(s.ar, s.coins) && SameDestinations(s.ar, t.ar, s.coins)
    requires s.coins == CoinsOf(s.ar, chain) == t.coins
    requires CacheCoherent(s.addresses, s.ar, s.coins) && CacheCoherent(t.addresses, t.ar, t.coins)
    ensures s.addresses == t.addresses
  {
    forall a
      ensures RowCoherent(t.addresses, s.ar, s.coins, a)
    {
      SameSlices(s.ar, t.ar, chain, a);
      assert RowCoherent(t.addresses, t.ar, t.coins, a);
    }
    CacheUnique(s.addresses, t.addresses, s.ar, s.coins);
  }

  /** Everything a rollback repairs. */
  ghost predicate SameDerived(s: Database, t: Database) {
    && s.canonical == t.canonical
    && s.coins == t.coins
    && s.addresses == t.addresses
    && s.buckets == t.buckets
    && s.anchor == t.anchor
    && s.checkpoint == t.checkpoint
  }

  lemma DerivedDetermined(sch: SubsidySchedule, s: Database, t: Database, chain: seq<Hash>)
    requires Sound(sch) && Coherent(sch, s, chain) && Coherent(sch, t, chain)
    requires SameChainRows(s.ar, t.ar, chain) && SameDestinations(s.ar, t.ar, s.coins)
    ensures SameDerived(s, t)
  {
    hide ArchiveOk, ChainOk, CoinsOk, AccountingOk, RollupOk, CacheCoherent, BucketsCoherent, SameDestinations, CoinsOf;
    CoinsOfSame(s.ar, t.ar, chain);
    SameCache(s, t, chain);
    BucketsUnique(s.buckets, t.buckets, s.addresses);
    if chain != [] {
      assert chain[|chain| - 1] in chain;
      assert SameBlock(s.ar, t.ar, chain[|chain| - 1]);
    }
  }

  lemma FactsDetermined(sch: SubsidySchedule, ar: Archive, h: Hash, facts: BlockFacts, facts': BlockFacts)
    requires Sound(sch) && FactsMatch(sch, ar, h, facts) && FactsMatch(sch, ar, h, facts')
    ensures facts == facts'
  {
  }

  lemma RowDetermined(parent: RollupRow, excluded: int, facts: BlockFacts, row: RollupRow, row': RollupRow)
    requires Extended(parent, excluded, facts, row) && Extended(parent, excluded, facts, row')
    ensures row == row'
  {
  }

  /** The accounting and rollup rows of the canonical blocks are determined too. */
  lemma {:induction false} LedgerDetermined(sch: SubsidySchedule, s: Database, t: Database, chain: seq<Hash>, n: nat)
    requires Sound(sch) && Ledgered(sch, s, chain) && Ledgered(sch, t, chain) && n < |chain|
    requires SameChainRows(s.ar, t.ar, chain)
    ensures chain[n] in s.accounting && chain[n] in t.accounting && s.accounting[chain[n]] == t.accounting[chain[n]]
    ensures chain[n] in s.rollup && chain[n] in t.rollup && s.rollup[chain[n]] == t.rollup[chain[n]]
  {
    hide ArchiveOk, ChainOk, AccountingOk, RollupOk, FactsMatch, Extended;
    var h := chain[n];
    assert SameBlock(s.ar, t.ar, h);
    RollupAt(sch, s, chain, n);
    RollupAt(sch, t, chain, n);
    FactsSame(sch, t.ar, s.ar, h, t.accounting[h]);
    FactsDetermined(sch, s.ar, h, s.accounting[h], t.accounting[h]);
    BlockExcludedSame(s.ar, t.ar, h);
    if n > 0 {
      LedgerDetermined(sch, s, t, chain, n - 1);
    }
    RowDetermined(if n == 0 then ZERO_ROLLUP else s.rollup[chain[n - 1]], BlockExcluded(s.ar, h), s.accounting[h], s.rollup[h], t.rollup[h]);
  }
}
