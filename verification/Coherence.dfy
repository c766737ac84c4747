/** The store invariant: one canonical chain, and derived tables that are functions of
    that chain and of the immutable tables. */
module Coherence {
  import opened Int64
  import opened Chain
  import opened Tables
  import opened Accounting
  import opened Coins
  import opened TxFacts
  import opened Cache
  import opened Distribution
  import opened StoreSpec
  import opened Integrity
  import opened BlockLoop

  ghost predicate BlockRowOk(ar: Archive, h: Hash)
    requires h in ar.blocks
  {
    var row, ids := ar.blocks[h], TxIdsOf(ar, h);
    && WellFormedHash(h)
    && row.height >= 0
    && (row.prev == "" || row.prev in ar.blocks)
    && |ids| == row.txCount && |ids| > 0 && Distinct(ids)
    && forall i :: 0 <= i < |ids| ==> ids[i] in ar.txs && (ar.txs[ids[i]].isCoinbase <==> i == 0)
  }

  ghost predicate ArchiveOk(ar: Archive) {
    && RowsOk(ar)
    && ar.blockTxs.Keys == ar.blocks.Keys
    && forall h :: h in ar.blocks ==> BlockRowOk(ar, h)
  }

  /** Contiguous heights, each block naming its predecessor. The first block names none,
      or itself: the foreign key of prev_hash allows a row to reference itself. */
  ghost predicate Linked(ar: Archive, chain: seq<Hash>) {
    && (forall i :: 0 <= i < |chain| ==> chain[i] in ar.blocks && ar.blocks[chain[i]].height == HeightOf(ar, chain[0]) + i)
    && (forall i :: 0 < i < |chain| ==> ar.blocks[chain[i]].prev == chain[i - 1])
    && (chain != [] ==> ar.blocks[chain[0]].prev == "" || ar.blocks[chain[0]].prev == chain[0])
  }

  /** Every transaction of h is acceptable to the coins it meets. */
  ghost predicate BlockValid(ar: Archive, c: CoinSet, h: Hash) {
    ValidUpTo(ar.txs, c, h, HeightOf(ar, h) == 0, TxIdsOf(ar, h), |TxIdsOf(ar, h)|)
  }

  ghost predicate ChainValid(ar: Archive, chain: seq<Hash>) {
    forall k :: 0 <= k < |chain| ==> BlockValid(ar, CoinsOf(ar, chain[..k]), chain[k])
  }

  function TipOf(ar: Archive, chain: seq<Hash>): Checkpoint {
    if chain == [] then BOOTSTRAP else Checkpoint(HeightOf(ar, chain[|chain| - 1]), chain[|chain| - 1])
  }

  // --- accounting ---

  function CoinbaseOutputs(ar: Archive, h: Hash): seq<OutBody> {
    var ids := TxIdsOf(ar, h);
    if |ids| > 0 && ids[0] in ar.txs then ar.txs[ids[0]].outputs else []
  }

  ghost function CoinbaseTotal(ar: Archive, h: Hash): int {
    OutputTotal(CoinbaseOutputs(ar, h), |CoinbaseOutputs(ar, h)|)
  }

  ghost function BlockFees(ar: Archive, h: Hash): int {
    FeeTotal(ar.txs, TxIdsOf(ar, h), |TxIdsOf(ar, h)|)
  }

  /** A block's accounting row is a function of its own stored occurrences. */
  ghost predicate FactsMatch(sch: SubsidySchedule, ar: Archive, h: Hash, facts: BlockFacts)
    requires Sound(sch)
  {
    && HeightOf(ar, h) >= 0
    && facts.subsidy == SubsidyAt(sch, HeightOf(ar, h))
    && facts.fee == BlockFees(ar, h)
    && facts.coinbase == CoinbaseTotal(ar, h)
    && facts.fee >= 0 && facts.coinbase >= 0 && facts.unclaimed >= 0
    && facts.coinbase + facts.unclaimed == facts.subsidy + facts.fee
    && facts.subsidy + facts.fee <= MAX_INT64
  }

  ghost predicate AccountingOk(sch: SubsidySchedule, ar: Archive, accounting: map<Hash, BlockFacts>)
    requires Sound(sch)
  {
    && accounting.Keys == ar.blocks.Keys
    && forall h :: h in accounting ==> FactsMatch(sch, ar, h, accounting[h])
  }

  // --- supply rollup ---

  ghost function ExcludedOf(outs: seq<OutBody>, genesis: bool, k: nat): int
    requires k <= |outs|
  {
    if k == 0 then 0
    else ExcludedOf(outs, genesis, k - 1) + if Excluded(outs[k - 1], genesis) then outs[k - 1].value else 0
  }

  function OutputsOf(txs: map<TxId, TxRow>, x: TxId): seq<OutBody> {
    if x in txs then txs[x].outputs else []
  }

  ghost function ExcludedTotal(txs: map<TxId, TxRow>, genesis: bool, ids: seq<TxId>, k: nat): int
    requires k <= |ids|
  {
    if k == 0 then 0
    else ExcludedTotal(txs, genesis, ids, k - 1)
         + ExcludedOf(OutputsOf(txs, ids[k - 1]), genesis, |OutputsOf(txs, ids[k - 1])|)
  }

  ghost function BlockExcluded(ar: Archive, h: Hash): int {
    ExcludedTotal(ar.txs, HeightOf(ar, h) == 0, TxIdsOf(ar, h), |TxIdsOf(ar, h)|)
  }

  /** One block added to its parent's running totals. */
  ghost predicate Extended(parent: RollupRow, excluded: int, facts: BlockFacts, row: RollupRow) {
    && row.excluded == excluded
    && row.subsidy == parent.subsidy + facts.subsidy
    && row.fee == parent.fee + facts.fee
    && row.coinbase == parent.coinbase + facts.coinbase
    && row.unclaimed == parent.unclaimed + facts.unclaimed
    && row.cumExcluded == parent.cumExcluded + excluded
    && row.utxoValue == row.coinbase - row.fee - row.cumExcluded
    && RollupChecks(row)
  }

  ghost predicate RollupRowOk(ar: Archive, accounting: map<Hash, BlockFacts>, rollup: map<Hash, RollupRow>, h: Hash)
    requires h in rollup
  {
    && h in ar.blocks && h in accounting
    && (HeightOf(ar, h) > 0 ==>
          var prev := ar.blocks[h].prev;
          prev in rollup && HeightOf(ar, prev) == HeightOf(ar, h) - 1
          && Extended(rollup[prev], BlockExcluded(ar, h), accounting[h], rollup[h]))
    && (HeightOf(ar, h) == 0 ==> Extended(ZERO_ROLLUP, BlockExcluded(ar, h), accounting[h], rollup[h]))
  }

  /** All or nothing: a chain that starts at height 0 has a row for every block ever
      stored, orphans included; any other chain has no row at all. */
  ghost predicate RollupOk(ar: Archive, accounting: map<Hash, BlockFacts>, rollup: map<Hash, RollupRow>, chain: seq<Hash>) {
    if GenesisRooted(ar, chain) then
      rollup.Keys == ar.blocks.Keys && forall h :: h in rollup ==> RollupRowOk(ar, accounting, rollup, h)
    else rollup == map[]
  }

  ghost predicate GenesisRooted(ar: Archive, chain: seq<Hash>) {
    chain != [] && HeightOf(ar, chain[0]) == 0
  }

  // --- the invariant ---

  ghost predicate ChainOk(ar: Archive, chain: seq<Hash>) {
    Linked(ar, chain) && ChainValid(ar, chain)
  }

  ghost predicate DerivedOk(db: Database, chain: seq<Hash>) {
    && db.canonical == Elems(chain)
    && db.coins == CoinsOf(db.ar, chain)
    && CacheCoherent(db.addresses, db.ar, db.coins)
    && BucketsCoherent(db.buckets, db.addresses)
    && db.checkpoint == TipOf(db.ar, chain)
    && db.anchor == db.checkpoint
  }

  ghost predicate Coherent(sch: SubsidySchedule, db: Database, chain: seq<Hash>)
    requires Sound(sch)
  {
    && ArchiveOk(db.ar)
    && ChainOk(db.ar, chain)
    && CoinsOk(db.ar, db.coins)
    && DerivedOk(db, chain)
    && AccountingOk(sch, db.ar, db.accounting)
    && RollupOk(db.ar, db.accounting, db.rollup, chain)
    && (chain == [] ==> db == EMPTY)
  }

  lemma EmptyIsCoherent(sch: SubsidySchedule)
    requires Sound(sch)
    ensures Coherent(sch, EMPTY, [])
  {
    EmptyCoherent(EMPTY.ar);
    EmptyBucketsCoherent();
    assert Elems<Hash>([]) == {};
  }

  lemma LinkedDistinct(ar: Archive, chain: seq<Hash>)
    requires Linked(ar, chain)
    ensures Distinct(chain)
  {
  }

  lemma PositionInOther(ar: Archive, chain: seq<Hash>, other: seq<Hash>, i: nat) returns (j: nat)
    requires Linked(ar, chain) && Linked(ar, other) && i < |chain| && Elems(chain) <= Elems(other)
    ensures j < |other| && other[j] == chain[i]
    ensures HeightOf(ar, chain[0]) + i == HeightOf(ar, other[0]) + j
  {
    assert chain[i] in Elems(chain);
    assert chain[i] in other;
    j :| j < |other| && other[j] == chain[i];
  }

  /** The canonical chain is determined by the tables. */
  lemma ChainUnique(ar: Archive, chain: seq<Hash>, other: seq<Hash>)
    requires Linked(ar, chain) && Linked(ar, other) && Elems(chain) == Elems(other)
    ensures chain == other
  {
    if chain == [] {
      if other != [] {
        var j := PositionInOther(ar, other, chain, 0);
      }
    } else {
      var start := PositionInOther(ar, chain, other, 0);
      var start' := PositionInOther(ar, other, chain, 0);
      var end := PositionInOther(ar, chain, other, |chain| - 1);
      var end' := PositionInOther(ar, other, chain, |other| - 1);
      forall i | 0 <= i < |chain|
        ensures chain[i] == other[i]
      {
        var j := PositionInOther(ar, chain, other, i);
      }
    }
  }

  // --- prefixes and growth ---

  lemma CompleteSame(ar: Archive, ar': Archive, h: Hash)
    requires h in ar.blocks && BlockRowOk(ar, h)
    requires h in ar'.blocks && ar'.blocks[h].height == ar.blocks[h].height
    requires TxIdsOf(ar', h) == TxIdsOf(ar, h) && SubMap(ar.txs, ar'.txs)
    ensures SameBlock(ar, ar', h)
  {
  }

  lemma ChainOkPrefix(ar: Archive, chain: seq<Hash>, n: nat)
    requires ChainOk(ar, chain) && n <= |chain|
    ensures ChainOk(ar, chain[..n])
  {
    forall k | 0 <= k < n
      ensures BlockValid(ar, CoinsOf(ar, chain[..n][..k]), chain[..n][k])
    {
      assert chain[..n][..k] == chain[..k];
    }
  }

  lemma ChainValidSame(ar: Archive, ar': Archive, chain: seq<Hash>)
    requires ChainValid(ar, chain) && forall h :: h in chain ==> SameBlock(ar, ar', h)
    ensures ChainValid(ar', chain)
  {
    forall k | 0 <= k < |chain|
      ensures BlockValid(ar', CoinsOf(ar', chain[..k]), chain[k])
    {
      assert chain[k] in chain;
      forall h | h in chain[..k]
        ensures SameBlock(ar, ar', h)
      {
        assert h in chain;
      }
      CoinsOfSame(ar, ar', chain[..k]);
      assert BlockValid(ar, CoinsOf(ar, chain[..k]), chain[k]);
      var ids := TxIdsOf(ar, chain[k]);
      ValidUpToSame(ar.txs, ar'.txs, CoinsOf(ar, chain[..k]), chain[k], HeightOf(ar, chain[k]) == 0, ids, |ids|);
    }
  }
}
