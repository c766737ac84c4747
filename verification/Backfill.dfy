/** The two offline backfills as functions of the stored tables, and why they compute
    exactly the rows that ApplyBlock wrote live. */
module Backfill {
  import opened Wrappers
  import opened Errors
  import opened Int64
  import opened Sums
  import opened Chain
  import opened Tables
  import opened Accounting
  import opened Coins
  import opened TxFacts
  import opened StoreSpec
  import opened Integrity
  import opened BlockLoop
  import Cache
  import Distribution
  import opened Coherence

  // --- block_accounting ---

  function RowAt(ar: Archive, h: Hash, i: nat): Option<TxRow> {
    if i < |TxIdsOf(ar, h)| && TxIdsOf(ar, h)[i] in ar.txs then Some(ar.txs[TxIdsOf(ar, h)[i]]) else None
  }

  /** A stored non-coinbase occurrence among the first k whose fee is unknown. */
  predicate FeeUnknown(ar: Archive, h: Hash, k: nat)
    requires k <= |TxIdsOf(ar, h)|
  {
    exists i :: 0 <= i < k && MissingFee(RowAt(ar, h, i))
  }

  predicate MissingFee(row: Option<TxRow>) {
    row.Some? && !row.value.isCoinbase && row.value.fee.None?
  }

  function NonCoinbaseFee(row: Option<TxRow>): int {
    if row.Some? && !row.value.isCoinbase && row.value.fee.Some? then row.value.fee.value else 0
  }

  ghost function FeeSum(ar: Archive, h: Hash, k: nat): int
    requires k <= |TxIdsOf(ar, h)|
  {
    if k == 0 then 0 else FeeSum(ar, h, k - 1) + NonCoinbaseFee(RowAt(ar, h, k - 1))
  }

  /** The block's facts, reconstructed strictly from its own stored occurrences. */
  ghost function StoredFacts(sch: SubsidySchedule, ar: Archive, h: Hash): Result<BlockFacts, Error>
    requires Sound(sch)
  {
    if h !in ar.blocks then Err(NoSuchBlock)
    else if RowAt(ar, h, 0).None? || !RowAt(ar, h, 0).value.isCoinbase then Err(MalformedOccurrence)
    else
      var outs := RowAt(ar, h, 0).value.outputs;
      var coinbase, fees := OutputTotal(outs, |outs|), FeeSum(ar, h, |TxIdsOf(ar, h)|);
      if |outs| == 0 then Err(IncompleteAccountingSource)
      else if !InRange(coinbase) then Err(AmountOverflow)
      else if FeeUnknown(ar, h, |TxIdsOf(ar, h)|) then Err(IncompleteAccountingSource)
      else if !InRange(fees) then Err(AmountOverflow)
      else ComputeBlockFacts(sch, ar.blocks[h].height, fees, coinbase)
  }

  lemma StoredRowAt(ar: Archive, h: Hash, i: nat)
    requires ArchiveOk(ar) && h in ar.blocks && i < |TxIdsOf(ar, h)|
    ensures var x, row := TxIdsOf(ar, h)[i], RowAt(ar, h, i);
            && x in ar.txs && row == Some(ar.txs[x]) && !MissingFee(row) && NonCoinbaseFee(row) == FeeOf(ar.txs, x)
            && |row.value.outputs| > 0 && (row.value.isCoinbase <==> i == 0)
  {
    assert BlockRowOk(ar, h);
    assert TxRowOk(ar, TxIdsOf(ar, h)[i]);
  }

  lemma {:induction false} FeeSumIsTotal(ar: Archive, h: Hash, k: nat)
    requires ArchiveOk(ar) && h in ar.blocks && k <= |TxIdsOf(ar, h)|
    ensures FeeSum(ar, h, k) == FeeTotal(ar.txs, TxIdsOf(ar, h), k)
  {
    hide ArchiveOk, RowAt, NonCoinbaseFee;
    if k > 0 {
      FeeSumIsTotal(ar, h, k - 1);
      StoredRowAt(ar, h, k - 1);
    }
  }

  lemma FeesKnown(ar: Archive, h: Hash, k: nat)
    requires ArchiveOk(ar) && h in ar.blocks && k <= |TxIdsOf(ar, h)|
    ensures !FeeUnknown(ar, h, k)
  {
    hide ArchiveOk, RowAt, MissingFee;
    forall i | 0 <= i < k
      ensures !MissingFee(RowAt(ar, h, i))
    {
      StoredRowAt(ar, h, i);
    }
  }

  lemma HasCoinbase(ar: Archive, h: Hash)
    requires ArchiveOk(ar) && h in ar.blocks
    ensures |TxIdsOf(ar, h)| > 0
    ensures RowAt(ar, h, 0).Some? && RowAt(ar, h, 0).value.isCoinbase && |RowAt(ar, h, 0).value.outputs| > 0
    ensures RowAt(ar, h, 0).value.outputs == CoinbaseOutputs(ar, h)
  {
    assert BlockRowOk(ar, h);
    StoredRowAt(ar, h, 0);
  }

  /** In a coherent store the reconstruction gives the row that is already there. */
  lemma AccountingBatchIsLive(sch: SubsidySchedule, ar: Archive, h: Hash, facts: BlockFacts)
    requires Sound(sch) && ArchiveOk(ar) && h in ar.blocks && FactsMatch(sch, ar, h, facts)
    ensures StoredFacts(sch, ar, h) == Ok(facts)
  {
    hide ArchiveOk, RowAt, FeeUnknown, OutputTotal;
    HasCoinbase(ar, h);
    FeeSumIsTotal(ar, h, |TxIdsOf(ar, h)|);
    FeesKnown(ar, h, |TxIdsOf(ar, h)|);
  }

  // --- the canonical rows in height order ---

  /** The partial unique index on canonical heights. */
  ghost predicate HeightsUnique(ar: Archive, canonical: set<Hash>) {
    forall g, h :: g in canonical && h in canonical && HeightOf(ar, g) == HeightOf(ar, h) ==> g == h
  }

  /** ORDER BY height. */
  ghost predicate Ordered(ar: Archive, canonical: set<Hash>, chain: seq<Hash>) {
    && Elems(chain) == canonical
    && forall i, j :: 0 <= i < j < |chain| ==> HeightOf(ar, chain[i]) < HeightOf(ar, chain[j])
  }

  lemma {:induction false} AtLeastIndex(ar: Archive, chain: seq<Hash>, i: nat, j: nat)
    requires forall a, b :: 0 <= a < b < |chain| ==> HeightOf(ar, chain[a]) < HeightOf(ar, chain[b])
    requires i <= j < |chain|
    ensures HeightOf(ar, chain[j]) - HeightOf(ar, chain[i]) >= j - i
  {
    if i < j {
      AtLeastIndex(ar, chain, i, j - 1);
    }
  }

  /** count == max + 1 and min == 0 leave no gap. */
  lemma Contiguous(ar: Archive, chain: seq<Hash>, i: nat)
    requires forall a, b :: 0 <= a < b < |chain| ==> HeightOf(ar, chain[a]) < HeightOf(ar, chain[b])
    requires i < |chain| && HeightOf(ar, chain[0]) == 0 && HeightOf(ar, chain[|chain| - 1]) == |chain| - 1
    ensures HeightOf(ar, chain[i]) == i
  {
    AtLeastIndex(ar, chain, 0, i);
    AtLeastIndex(ar, chain, i, |chain| - 1);
  }

  lemma LowestBlock(ar: Archive, s: set<Hash>) returns (h: Hash)
    requires s != {}
    ensures h in s && forall g :: g in s ==> HeightOf(ar, h) <= HeightOf(ar, g)
  {
    var heights: set<int> := set g | g in s :: HeightOf(ar, g) as int;
    var some := Pick(s);
    assert (HeightOf(ar, some) as int) in heights;
    var low := MinExists(heights);
    h :| h in s && HeightOf(ar, h) as int == low;
    forall g | g in s
      ensures HeightOf(ar, h) <= HeightOf(ar, g)
    {
      assert (HeightOf(ar, g) as int) in heights;
    }
  }

  lemma {:induction false} OrderedExists(ar: Archive, s: set<Hash>) returns (chain: seq<Hash>)
    requires HeightsUnique(ar, s)
    ensures Ordered(ar, s, chain) && |chain| == |s|
    decreases |s|
  {
    if s == {} {
      chain := [];
    } else {
      var h := LowestBlock(ar, s);
      var rest := OrderedExists(ar, s - {h});
      chain := [h] + rest;
      OrderedCons(ar, s, h, rest);
    }
  }

  lemma OrderedCons(ar: Archive, s: set<Hash>, h: Hash, rest: seq<Hash>)
    requires h in s && HeightsUnique(ar, s) && Ordered(ar, s - {h}, rest)
    requires forall g :: g in s ==> HeightOf(ar, h) <= HeightOf(ar, g)
    ensures Ordered(ar, s, [h] + rest)
  {
    var chain := [h] + rest;
    forall i | 0 <= i < |rest|
      ensures HeightOf(ar, h) < HeightOf(ar, rest[i])
    {
      assert rest[i] in Elems(rest);
    }
    forall g
      ensures g in Elems(chain) <==> g in s
    {
      assert g in Elems(rest) <==> g in s - {h};
    }
  }

  /** Height order leaves no choice. */
  lemma {:induction false} OrderedUnique(ar: Archive, s: set<Hash>, chain: seq<Hash>, other: seq<Hash>)
    requires Ordered(ar, s, chain) && Ordered(ar, s, other)
    ensures chain == other
    decreases |chain|
  {
    if chain == [] {
      NothingOrdered(ar, other);
    } else {
      SameFirst(ar, s, chain, other);
      RestOrdered(ar, s, chain);
      RestOrdered(ar, s, other);
      OrderedUnique(ar, s - {chain[0]}, chain[1..], other[1..]);
      assert chain == [chain[0]] + chain[1..] && other == [other[0]] + other[1..];
    }
  }

  lemma FirstIn<T>(s: seq<T>)
    ensures s != [] ==> s[0] in Elems(s)
  {
  }

  lemma NothingOrdered(ar: Archive, chain: seq<Hash>)
    requires Ordered(ar, {}, chain)
    ensures chain == []
  {
    FirstIn(chain);
  }

  lemma SameFirst(ar: Archive, s: set<Hash>, chain: seq<Hash>, other: seq<Hash>)
    requires Ordered(ar, s, chain) && Ordered(ar, s, other) && chain != []
    ensures other != [] && chain[0] == other[0]
  {
    assert chain[0] in Elems(chain);
    var j :| 0 <= j < |other| && other[j] == chain[0];
    assert other[0] in Elems(other);
    var i :| 0 <= i < |chain| && chain[i] == other[0];
  }

  lemma RestOrdered(ar: Archive, s: set<Hash>, chain: seq<Hash>)
    requires Ordered(ar, s, chain) && chain != []
    ensures Ordered(ar, s - {chain[0]}, chain[1..])
  {
    forall h
      ensures h in Elems(chain[1..]) <==> h in s - {chain[0]}
    {
      if h in s - {chain[0]} {
        var i :| 0 <= i < |chain| && chain[i] == h;
        assert chain[1..][i - 1] == h;
      }
      if h in Elems(chain[1..]) {
        var i :| 0 <= i < |chain| - 1 && chain[1..][i] == h;
        assert chain[i + 1] == h && h in Elems(chain);
      }
    }
  }

  /** A coherent store's chain is its canonical rows in height order. */
  lemma CoherentIsOrdered(sch: SubsidySchedule, db: Database, chain: seq<Hash>)
    requires Sound(sch) && Coherent(sch, db, chain)
    ensures Ordered(db.ar, db.canonical, chain) && db.canonical <= db.ar.blocks.Keys
  {
    hide ArchiveOk, ChainValid, CoinsOk, AccountingOk, RollupOk, Cache.CacheCoherent, Distribution.BucketsCoherent;
  }

  // --- preflight ---

  /** findCanonicalAncestryBreach, on canonical rows already known to be contiguous. */
  predicate Breach(ar: Archive, chain: seq<Hash>, i: nat)
    requires i < |chain|
  {
    && chain[i] in ar.blocks
    && if ar.blocks[chain[i]].height == 0 then ar.blocks[chain[i]].prev != ""
       else ar.blocks[chain[i]].prev != (if i == 0 then "" else chain[i - 1])
  }

  /** One parent-linked chain with one block at each height from 0. */
  ghost predicate OneChain(ar: Archive, canonical: set<Hash>, chain: seq<Hash>) {
    && Elems(chain) == canonical && chain != []
    && (forall i :: 0 <= i < |chain| ==> chain[i] in ar.blocks && ar.blocks[chain[i]].height == i)
    && (forall i :: 0 < i < |chain| ==> ar.blocks[chain[i]].prev == chain[i - 1])
    && ar.blocks[chain[0]].prev == ""
  }

  /** h names the canonical block one height below it; at height 0 it names none. */
  ghost predicate ParentOk(ar: Archive, canonical: set<Hash>, h: Hash)
    requires h in ar.blocks
  {
    && (ar.blocks[h].height == 0 ==> ar.blocks[h].prev == "")
    && (ar.blocks[h].height != 0 ==>
          forall g :: g in canonical && HeightOf(ar, g) == ar.blocks[h].height - 1 ==> ar.blocks[h].prev == g)
  }

  /** No breach at the level of sets. */
  ghost predicate NoBreach(ar: Archive, canonical: set<Hash>) {
    forall h :: h in canonical ==> h in ar.blocks && ParentOk(ar, canonical, h)
  }

  /** Preflight soundness: with at most one canonical block per height, the right count,
      the right minimum and maximum, and no breach, the canonical set is exactly one chain. */
  lemma PreflightSound(ar: Archive, canonical: set<Hash>, n: nat, lowest: Hash, highest: Hash) returns (chain: seq<Hash>)
    requires HeightsUnique(ar, canonical) && |canonical| == n + 1
    requires lowest in canonical && HeightOf(ar, lowest) == 0
    requires highest in canonical && HeightOf(ar, highest) == n
    requires forall h :: h in canonical ==> 0 <= HeightOf(ar, h) <= n
    requires NoBreach(ar, canonical)
    ensures OneChain(ar, canonical, chain) && |chain| == n + 1
  {
    chain := OrderedExists(ar, canonical);
    AtLeastIndex(ar, chain, 0, n);
    assert chain[0] in Elems(chain) && chain[n] in Elems(chain);
    forall i | 0 <= i < |chain|
      ensures chain[i] in ar.blocks && ar.blocks[chain[i]].height == i
    {
      Contiguous(ar, chain, i);
      assert chain[i] in Elems(chain);
    }
    forall i | 0 < i < |chain|
      ensures ar.blocks[chain[i]].prev == chain[i - 1]
    {
      assert chain[i] in Elems(chain) && chain[i - 1] in Elems(chain);
    }
  }

  predicate HasBreach(ar: Archive, chain: seq<Hash>) {
    exists i :: 0 <= i < |chain| && Breach(ar, chain, i)
  }

  /** count, min and max of the canonical heights against the checkpoint. */
  predicate ShapeOk(ar: Archive, chain: seq<Hash>, indexedHeight: int64) {
    && |chain| == Wrap(indexedHeight + 1) && |chain| > 0
    && HeightOf(ar, chain[0]) == 0 && HeightOf(ar, chain[|chain| - 1]) == indexedHeight
  }

  lemma BreachAtIff(ar: Archive, canonical: set<Hash>, chain: seq<Hash>, i: nat)
    requires Elems(chain) == canonical && canonical <= ar.blocks.Keys && i < |chain|
    requires forall j :: 0 <= j < |chain| ==> HeightOf(ar, chain[j]) == j
    ensures chain[i] in ar.blocks && (Breach(ar, chain, i) <==> !ParentOk(ar, canonical, chain[i]))
  {
    assert chain[i] in Elems(chain);
    if i > 0 {
      var h := chain[i];
      forall g | g in canonical && HeightOf(ar, g) == ar.blocks[h].height - 1
        ensures g == chain[i - 1]
      {
        var k :| 0 <= k < |chain| && chain[k] == g;
      }
      assert chain[i - 1] in Elems(chain);
    }
  }

  /** On contiguous rows the scan row by row and the statement about the whole set agree. */
  lemma BreachIff(ar: Archive, canonical: set<Hash>, chain: seq<Hash>)
    requires Elems(chain) == canonical && canonical <= ar.blocks.Keys
    requires forall i :: 0 <= i < |chain| ==> HeightOf(ar, chain[i]) == i
    ensures HasBreach(ar, chain) <==> !NoBreach(ar, canonical)
  {
    hide Breach, ParentOk;
    forall i | 0 <= i < |chain|
      ensures chain[i] in canonical && chain[i] in ar.blocks && (Breach(ar, chain, i) <==> !ParentOk(ar, canonical, chain[i]))
    {
      BreachAtIff(ar, canonical, chain, i);
      assert chain[i] in Elems(chain);
    }
    if h :| h in canonical && !ParentOk(ar, canonical, h) {
      var i :| 0 <= i < |chain| && chain[i] == h;
      assert Breach(ar, chain, i);
    }
  }

  /** The shape and ancestry checks pass exactly on one parent-linked chain with one block
      at each height up to the checkpoint. */
  lemma PreflightExact(ar: Archive, canonical: set<Hash>, chain: seq<Hash>, indexedHeight: int64)
    requires Ordered(ar, canonical, chain) && canonical <= ar.blocks.Keys
    ensures ShapeOk(ar, chain, indexedHeight) && !HasBreach(ar, chain)
            <==> OneChain(ar, canonical, chain) && |chain| - 1 == indexedHeight && |chain| <= MAX_INT64
  {
    hide HasBreach, NoBreach;
    if OneChain(ar, canonical, chain) {
      BreachIff(ar, canonical, chain);
      OneChainUnbroken(ar, canonical, chain);
    }
    if ShapeOk(ar, chain, indexedHeight) && !HasBreach(ar, chain) {
      forall i | 0 <= i < |chain|
        ensures HeightOf(ar, chain[i]) == i
      {
        Contiguous(ar, chain, i);
      }
      BreachIff(ar, canonical, chain);
      ChainOfSet(ar, canonical, chain);
    }
  }

  lemma OneChainUnbroken(ar: Archive, canonical: set<Hash>, chain: seq<Hash>)
    requires OneChain(ar, canonical, chain)
    ensures NoBreach(ar, canonical)
  {
    forall h | h in canonical
      ensures h in ar.blocks && ParentOk(ar, canonical, h)
    {
      var i :| 0 <= i < |chain| && chain[i] == h;
      forall g | g in canonical && HeightOf(ar, g) == ar.blocks[h].height - 1
        ensures ar.blocks[h].prev == g
      {
        var k :| 0 <= k < |chain| && chain[k] == g;
      }
    }
  }

  /** What the preflight concludes about the set holds of the rows it was given. */
  lemma ChainOfSet(ar: Archive, canonical: set<Hash>, chain: seq<Hash>)
    requires Ordered(ar, canonical, chain) && chain != [] && NoBreach(ar, canonical)
    requires forall i :: 0 <= i < |chain| ==> HeightOf(ar, chain[i]) == i
    ensures OneChain(ar, canonical, chain)
  {
    hide NoBreach;
    assert chain[0] in Elems(chain) && chain[|chain| - 1] in Elems(chain);
    var sorted := OrderedExists(ar, canonical);
    OrderedUnique(ar, canonical, chain, sorted);
    var found := PreflightSound(ar, canonical, |chain| - 1, chain[0], chain[|chain| - 1]);
    OneChainOrdered(ar, canonical, found);
    OrderedUnique(ar, canonical, chain, found);
  }

  lemma OneChainOrdered(ar: Archive, canonical: set<Hash>, chain: seq<Hash>)
    requires OneChain(ar, canonical, chain)
    ensures Ordered(ar, canonical, chain)
  {
  }
}
