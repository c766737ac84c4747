/** Everything ApplyBlock checks after the transaction loop also passes when a coherent
    store's chain is applied again from the start. */
module Republication {
  import opened Wrappers
  import opened Int64
  import opened Chain
  import opened Tables
  import opened Accounting
  import opened Coins
  import opened TxSpec
  import opened TxFacts
  import opened Cache
  import opened Distribution
  import opened StoreSpec
  import opened Integrity
  import opened BlockLoop
  import opened Coherence
  import opened RollbackProof
  import opened ApplyProof
  import opened ApplyCoherence
  import opened Conservation
  import opened Supply
  import opened Determined
  import opened Prefixes
  import opened Recovery
  import opened Rebuild
  import opened Reapply
  import opened Readmission

  // --- the tables after the loop agree with the reference ---

  lemma SameBlockTrans(a: Archive, b: Archive, c: Archive, h: Hash)
    requires SameBlock(a, b, h) && SameBlock(a, c, h)
    ensures SameBlock(b, c, h)
  {
  }

  lemma NewBlockAgrees(sch: SubsidySchedule, ref: Database, chain: seq<Hash>, k: nat, s: Database, hd: Header, lp: Loop)
    requires Sound(sch) && Looped(sch, ref, chain, k, s, hd, lp)
    ensures SameBlock(lp.ar, ref.ar, chain[k])
  {
    hide ArchiveOk, ChainOk, CoinsOk, AccountingOk, RollupOk, DerivedOk, PrefixesFit, SameChainRows, LoopCoins, SlicesAgreeOff, Grown, RowsOk;
    var b := RebuiltBlock(ref.ar, chain[k]);
    OccurrencesComplete(hd.ar, b, lp.ar);
    RebuiltIds(ref.ar, chain[k]);
    BlockKeys(s.ar, chain[..k], b, hd, lp.ar);
    forall i | 0 <= i < |b.txs|
      ensures TxIdsOf(ref.ar, chain[k])[i] in lp.ar.txs
    {
      assert Stored(lp.ar, b.txs[i]);
    }
  }

  lemma RowsAgree(sch: SubsidySchedule, ref: Database, chain: seq<Hash>, k: nat, s: Database, hd: Header, lp: Loop)
    requires Sound(sch) && Looped(sch, ref, chain, k, s, hd, lp)
    ensures SameChainRows(lp.ar, ref.ar, chain[..k + 1])
  {
    hide ChainValid, CoinsOk, AccountingOk, RollupOk, DerivedOk, PrefixesFit, LoopCoins, SlicesAgreeOff, SameBlock;
    hide Grown, RowsOk, Copy, HeaderFacts, LoopTables;
    var b := RebuiltBlock(ref.ar, chain[k]);
    forall h | h in chain[..k + 1]
      ensures SameBlock(lp.ar, ref.ar, h)
    {
      if h == chain[k] {
        NewBlockAgrees(sch, ref, chain, k, s, hd, lp);
      } else {
        var i :| 0 <= i < k + 1 && chain[..k + 1][i] == h;
        assert h == chain[..k][i];
        assert h in chain[..k];
        StoredBlockSame(s.ar, chain[..k], b, hd, lp.ar, h);
        SameBlockTrans(s.ar, lp.ar, ref.ar, h);
      }
    }
  }

  /** What the loop left, in terms of the reference store. */
  ghost predicate Agrees(sch: SubsidySchedule, ref: Database, chain: seq<Hash>, k: nat, lp: Loop)
    requires Sound(sch) && k < |chain|
  {
    var next := chain[..k + 1];
    && Coherent(sch, ref, chain) && PrefixesFit(ref.ar, chain)
    && SameChainRows(lp.ar, ref.ar, next)
    && ArchiveOk(lp.ar) && CoinsOk(lp.ar, lp.coins)
    && lp.coins == CoinsOf(ref.ar, next)
    && SameDestinations(ref.ar, lp.ar, lp.coins)
  }

  lemma CopyAgrees(ar: Archive, c: CoinSet, ref: Archive)
    requires Copy(ar, ref) && CoinsOk(ar, c)
    ensures SameDestinations(ref, ar, c)
  {
    forall op | op in c
      ensures SameDestination(ref, ar, op)
    {
      assert CoinOk(ar, op, c[op]);
      assert SameDestination(ar, ref, op);
    }
  }

  lemma LoopAgrees(sch: SubsidySchedule, ref: Database, chain: seq<Hash>, k: nat, s: Database, hd: Header, lp: Loop)
    requires Sound(sch) && Looped(sch, ref, chain, k, s, hd, lp)
    ensures Agrees(sch, ref, chain, k, lp)
  {
    hide ArchiveOk, ChainOk, CoinsOk, AccountingOk, RollupOk, DerivedOk, PrefixesFit, LoopTables, SlicesAgreeOff;
    hide SameChainRows, Copy, HeaderFacts, SameDestinations;
    var b := RebuiltBlock(ref.ar, chain[k]);
    RowsAgree(sch, ref, chain, k, s, hd, lp);
    ArchiveStaysOk(s.ar, chain[..k], b, hd, lp.ar);
    CoinsHold(sch, s, chain[..k], b, hd, lp);
    SameChainCoins(lp.ar, ref.ar, chain[..k + 1]);
    CopyAgrees(lp.ar, lp.coins, ref.ar);
  }

  lemma SameChainCoins(ar: Archive, ar': Archive, chain: seq<Hash>)
    requires SameChainRows(ar, ar', chain)
    ensures CoinsOf(ar, chain) == CoinsOf(ar', chain) && SameChainRows(ar', ar, chain)
  {
    CoinsOfSame(ar, ar', chain);
  }

  // --- address cache and buckets ---

  lemma PrefixByUndo(sch: SubsidySchedule, ref: Database, chain: seq<Hash>, k: nat)
    requires Sound(sch) && Coherent(sch, ref, chain) && k < |chain|
    ensures CoinsOf(ref.ar, chain[..k + 1]) == Undo(ref.coins, Elems(chain[k + 1..]))
    ensures CoinsOk(ref.ar, CoinsOf(ref.ar, chain[..k + 1])) && Backed(ref.ar, ref.coins)
  {
    hide ChainValid, AccountingOk, RollupOk, CacheCoherent, BucketsCoherent, BlockRowOk, Undo;
    LinkedDistinct(ref.ar, chain);
    UndoIsPrefix(ref.ar, chain, k + 1);
    UndoCoinsOk(ref.ar, ref.coins, Elems(chain[k + 1..]));
    CoinsBacked(ref.ar, ref.coins);
  }

  lemma SliceFitsAgain(sch: SubsidySchedule, ref: Database, chain: seq<Hash>, k: nat, lp: Loop, a: Address)
    requires Sound(sch) && k < |chain| && Agrees(sch, ref, chain, k, lp)
    ensures SliceFits(SliceOf(lp.ar, lp.coins, a))
  {
    hide ArchiveOk, ChainOk, CoinsOk, AccountingOk, RollupOk, BucketsCoherent, SameDestinations, CacheCoherent, CoinsOf, SliceOf, Backed;
    PrefixByUndo(sch, ref, chain, k);
    SameChainCoins(lp.ar, ref.ar, chain[..k + 1]);
    SameSlices(ref.ar, lp.ar, chain[..k + 1], a);
    RolledBackSliceFits(ref.addresses, ref.ar, ref.coins, Elems(chain[k + 1..]), a);
  }

  lemma UnspentAgrees(ar: Archive, ar': Archive, chain: seq<Hash>)
    requires SameChainRows(ar, ar', chain) && CoinsOk(ar, CoinsOf(ar, chain))
    ensures Unspent(ar', CoinsOf(ar, chain)) == Unspent(ar, CoinsOf(ar, chain))
  {
    hide CoinsOf, CoinsOk;
    var c := CoinsOf(ar, chain);
    forall op | op in c
      ensures Value(ar, op) == Value(ar', op)
    {
      SameActivity(ar, ar', chain, op);
    }
    assert UnspentValues(ar', c) == UnspentValues(ar, c);
  }

  lemma FitsAgain(sch: SubsidySchedule, ref: Database, chain: seq<Hash>, k: nat, lp: Loop)
    requires Sound(sch) && k < |chain| && Agrees(sch, ref, chain, k, lp)
    ensures CoinsFit(lp.ar, lp.coins)
  {
    hide ChainOk, AccountingOk, RollupOk, DerivedOk, SameDestinations, CoinsOf, BlockRowOk, CoinsFit, SameBlock;
    PrefixByUndo(sch, ref, chain, k);
    SameChainCoins(lp.ar, ref.ar, chain[..k + 1]);
    FitsElsewhere(ref.ar, lp.ar, chain[..k + 1]);
  }

  lemma CacheRepublished(sch: SubsidySchedule, ref: Database, chain: seq<Hash>, k: nat, s: Database, hd: Header, lp: Loop)
    requires Sound(sch) && Looped(sch, ref, chain, k, s, hd, lp) && Agrees(sch, ref, chain, k, lp)
    ensures |s.buckets| == 8
    ensures var r := RefreshChecked(s.addresses, lp.ar, lp.coins, lp.touched);
            r.Ok? && BucketsAfter(s.buckets, s.addresses, r.value).Ok?
  {
    hide ArchiveOk, ChainOk, CoinsOk, AccountingOk, RollupOk, CacheCoherent, BucketsCoherent, LoopTables, LoopCoins, HeaderFacts, SliceFits, Refresh;
    hide BucketsAfter, Copy, SameChainRows, SliceOf, Agrees, CoinsFit, PrefixesFit;
    BucketCount(sch, s, chain[..k]);
    forall a | a in lp.touched
      ensures SliceFits(SliceOf(lp.ar, lp.coins, a))
    {
      SliceFitsAgain(sch, ref, chain, k, lp, a);
    }
    LoopSlices(sch, s, chain[..k], RebuiltBlock(ref.ar, chain[k]), hd, lp);
    RefreshCoherent(s.addresses, s.ar, s.coins, lp.ar, lp.coins, lp.touched);
    FitsAgain(sch, ref, chain, k, lp);
    UpdateAccepted(s.buckets, s.addresses, Refresh(s.addresses, lp.ar, lp.coins, lp.touched), lp.ar, lp.coins);
  }

  lemma LoopSlices(sch: SubsidySchedule, db: Database, chain: seq<Hash>, b: Block, hd: Header, lp: Loop)
    requires Sound(sch) && LoopDone(sch, db, chain, b, hd, lp)
    ensures SlicesAgreeOff(db.ar, db.coins, lp.ar, lp.coins, lp.touched)
  {
    hide Coherent, HeaderFacts, LoopTables, LoopCoins, SliceOf;
  }

  // --- accounting ---

  lemma FactsAgain(sch: SubsidySchedule, ar: Archive, h: Hash, facts: BlockFacts)
    requires Sound(sch) && ArchiveOk(ar) && h in ar.blocks && FactsMatch(sch, ar, h, facts)
    ensures |RebuiltBlock(ar, h).txs| > 0
    ensures FactsOfBlock(sch, RebuiltBlock(ar, h), facts.fee) == Ok(facts)
  {
    hide ArchiveOk, CoinbaseTotal, BlockFees;
    RebuiltCoinbase(ar, h);
  }

  lemma StoredFacts(sch: SubsidySchedule, ref: Database, chain: seq<Hash>, k: nat)
    requires Sound(sch) && Coherent(sch, ref, chain) && k < |chain|
    ensures chain[k] in ref.ar.blocks && chain[k] in ref.accounting
    ensures FactsMatch(sch, ref.ar, chain[k], ref.accounting[chain[k]])
  {
    hide ArchiveOk, ChainValid, CoinsOk, DerivedOk, RollupOk, FactsMatch;
    assert chain[k] in ref.ar.blocks;
  }

  lemma FactsRepublished(sch: SubsidySchedule, ref: Database, chain: seq<Hash>, k: nat, s: Database, hd: Header, lp: Loop)
    requires Sound(sch) && Looped(sch, ref, chain, k, s, hd, lp)
    ensures chain[k] in ref.accounting && |RebuiltBlock(ref.ar, chain[k]).txs| > 0
    ensures FactsOfBlock(sch, RebuiltBlock(ref.ar, chain[k]), lp.fee) == Ok(ref.accounting[chain[k]])
    ensures chain[k] !in s.accounting && chain[k] !in s.rollup
  {
    hide ArchiveOk, ChainOk, CoinsOk, AccountingOk, RollupOk, DerivedOk, PrefixesFit, LoopDone, SameChainRows, Copy;
    hide BlockFees, CoinbaseTotal, FactsOfBlock;
    StoredFacts(sch, ref, chain, k);
    RebuiltFees(sch, ref, chain, k, s, hd, lp);
    FreshHash(sch, ref, chain, k, s);
    FactsAgain(sch, ref.ar, chain[k], ref.accounting[chain[k]]);
  }

  lemma FreshHash(sch: SubsidySchedule, ref: Database, chain: seq<Hash>, k: nat, s: Database)
    requires Sound(sch) && Following(sch, ref, chain, k, s) && k < |chain|
    ensures chain[k] !in s.accounting && chain[k] !in s.rollup
  {
    hide ArchiveOk, ChainValid, CoinsOk, DerivedOk, SameChainRows, Copy;
    LinkedDistinct(ref.ar, chain);
    NotAmongPrefix(chain, k);
    assert chain[k] !in s.ar.blocks;
  }

  lemma RebuiltCoinbase(ar: Archive, h: Hash)
    requires ArchiveOk(ar) && h in ar.blocks && CoinbaseTotal(ar, h) <= MAX_INT64
    ensures var b := RebuiltBlock(ar, h);
            && |b.txs| > 0
            && OutputSum(Bodies(b.txs[0].outputs), |b.txs[0].outputs|) == Ok(CoinbaseTotal(ar, h))
  {
    assert BlockRowOk(ar, h);
    var x := TxIdsOf(ar, h)[0];
    assert TxRowOk(ar, x);
    OutputSumIsTotal(ar.txs[x].outputs, |ar.txs[x].outputs|);
  }

  lemma RebuiltFees(sch: SubsidySchedule, ref: Database, chain: seq<Hash>, k: nat, s: Database, hd: Header, lp: Loop)
    requires Sound(sch) && Looped(sch, ref, chain, k, s, hd, lp)
    ensures lp.fee == BlockFees(ref.ar, chain[k])
  {
    hide ArchiveOk, ChainOk, CoinsOk, AccountingOk, RollupOk, DerivedOk, PrefixesFit, SameChainRows, SlicesAgreeOff, HeaderFacts;
    var b := RebuiltBlock(ref.ar, chain[k]);
    RebuiltIds(ref.ar, chain[k]);
    PrefixRowsSame(hd.ar, b, |b.txs|, lp.ar, ref.ar.txs);
    FeeTotalSame(lp.ar.txs, ref.ar.txs, Ids(b.txs), |b.txs|);
  }

  // --- supply rollup ---

  lemma {:induction false} ExcludedSumFits(total: int64, outs: seq<OutBody>, genesis: bool, k: nat)
    requires k <= |outs| && NonNegativeOutputs(outs) && total + ExcludedOf(outs, genesis, k) <= MAX_INT64 && total >= 0
    ensures ExcludedSum(total, outs, genesis, k) == Ok(total + ExcludedOf(outs, genesis, k))
  {
    if k > 0 {
      ExcludedOfNonNegative(outs, genesis, k - 1);
      ExcludedSumFits(total, outs, genesis, k - 1);
    }
  }

  lemma RebuiltOutputsOk(ar: Archive, h: Hash, i: nat)
    requires ArchiveOk(ar) && h in ar.blocks && i < |TxIdsOf(ar, h)|
    ensures var outs := OutputsOf(ar.txs, TxIdsOf(ar, h)[i]);
            NonNegativeOutputs(outs) && outs == Bodies(RebuiltBlock(ar, h).txs[i].outputs)
  {
    assert BlockRowOk(ar, h);
    assert TxRowOk(ar, TxIdsOf(ar, h)[i]);
  }

  lemma {:induction false} ExcludedSumsFit(ar: Archive, h: Hash, k: nat)
    requires ArchiveOk(ar) && h in ar.blocks && k <= |TxIdsOf(ar, h)|
    requires ExcludedTotal(ar.txs, HeightOf(ar, h) == 0, TxIdsOf(ar, h), k) <= MAX_INT64
    ensures var total := ExcludedTotal(ar.txs, HeightOf(ar, h) == 0, TxIdsOf(ar, h), k);
            total >= 0 && ExcludedSums(RebuiltBlock(ar, h).txs, HeightOf(ar, h) == 0, k) == Ok(total)
  {
    hide ArchiveOk;
    if k > 0 {
      var genesis, ids := HeightOf(ar, h) == 0, TxIdsOf(ar, h);
      var outs := OutputsOf(ar.txs, ids[k - 1]);
      RebuiltOutputsOk(ar, h, k - 1);
      ExcludedOfNonNegative(outs, genesis, |outs|);
      ExcludedSumsFit(ar, h, k - 1);
      ExcludedSumFits(ExcludedTotal(ar.txs, genesis, ids, k - 1), outs, genesis, |outs|);
    }
  }

  lemma ExtendAgain(parent: RollupRow, excluded: int64, facts: BlockFacts, row: RollupRow)
    requires Extended(parent, excluded, facts, row)
    ensures ExtendRollup(parent, excluded, facts) == Ok(row) && RollupChecks(row)
  {
  }

  lemma PrefixLedgered(sch: SubsidySchedule, ref: Database, chain: seq<Hash>, k: nat, s: Database)
    requires Sound(sch) && Following(sch, ref, chain, k, s) && 0 < k < |chain| && GenesisRooted(ref.ar, chain)
    ensures Ledgered(sch, s, chain[..k]) && chain[k - 1] in s.rollup && chain[k - 1] in ref.rollup
    ensures s.rollup[chain[k - 1]] == ref.rollup[chain[k - 1]]
  {
    hide ArchiveOk, ChainOk, CoinsOk, AccountingOk, RollupOk, DerivedOk, PrefixesFit, Copy;
    var prefix := chain[..k];
    assert prefix[0] == chain[0] && prefix[k - 1] == chain[k - 1];
    assert prefix[0] in prefix;
    assert SameBlock(s.ar, ref.ar, prefix[0]);
    CoherentIsLedgered(sch, s, prefix);
    CoherentIsLedgered(sch, ref, chain);
    PrefixOfLedger(sch, ref, chain, k);
    LedgerDetermined(sch, s, ref, prefix, k - 1);
  }

  lemma PrefixOfLedger(sch: SubsidySchedule, ref: Database, chain: seq<Hash>, k: nat)
    requires Sound(sch) && Ledgered(sch, ref, chain) && 0 < k <= |chain|
    ensures Ledgered(sch, ref, chain[..k])
  {
    hide ArchiveOk, ChainOk, AccountingOk, GenesisRooted;
    ChainOkPrefix(ref.ar, chain, k);
    RootKept(ref.ar, chain, k - 1);
  }

  lemma RollupRepublished(sch: SubsidySchedule, ref: Database, chain: seq<Hash>, k: nat, s: Database, canonical: set<Hash>, ar: Archive)
    requires Sound(sch) && Following(sch, ref, chain, k, s) && k < |chain|
    requires chain[k] in ref.ar.blocks && chain[k] in ref.accounting && chain[k] !in s.rollup && GenesisRooted(ref.ar, chain)
    ensures chain[k] in ref.rollup
    ensures ApplyRollup(ar, canonical, s.rollup, RebuiltBlock(ref.ar, chain[k]), s.checkpoint, ref.accounting[chain[k]])
            == Ok(s.rollup[chain[k] := ref.rollup[chain[k]]])
  {
    hide ArchiveOk, ChainValid, CoinsOk, AccountingOk, RollupOk, DerivedOk, PrefixesFit, Copy, Extended, FactsMatch;
    hide ExtendRollup, RollupChecks, BlockExcluded;
    var h := chain[k];
    CoherentIsLedgered(sch, ref, chain);
    RollupAt(sch, ref, chain, k);
    HeightAt(ref.ar, chain, k);
    ExcludedFits(ref.ar, h, if k == 0 then ZERO_ROLLUP else ref.rollup[chain[k - 1]], ref.accounting[h], ref.rollup[h]);
    if k > 0 {
      PrefixLedgered(sch, ref, chain, k, s);
    }
  }

  /** A chain that starts above height 0 keeps no rollup, and its rebuilt copy neither. */
  lemma NoRollupAgain(sch: SubsidySchedule, ref: Database, chain: seq<Hash>, k: nat, s: Database, canonical: set<Hash>, ar: Archive)
    requires Sound(sch) && Following(sch, ref, chain, k, s) && k < |chain|
    requires chain[k] in ref.ar.blocks && chain[k] in ref.accounting && !GenesisRooted(ref.ar, chain)
    ensures ApplyRollup(ar, canonical, s.rollup, RebuiltBlock(ref.ar, chain[k]), s.checkpoint, ref.accounting[chain[k]]) == Ok(s.rollup)
  {
    hide ArchiveOk, ChainValid, CoinsOk, AccountingOk, DerivedOk, PrefixesFit, Copy, Extended, ExtendRollup, RollupChecks, BlockExcluded, RollupRowOk;
    HeightAt(ref.ar, chain, k);
    HeightAboveRoot(ref.ar, chain);
    if k > 0 {
      var prefix := chain[..k];
      assert prefix[0] == chain[0] && prefix[0] in prefix;
      assert SameBlock(s.ar, ref.ar, prefix[0]);
    }
  }

  lemma HeightAboveRoot(ar: Archive, chain: seq<Hash>)
    requires ArchiveOk(ar) && Linked(ar, chain) && chain != [] && !GenesisRooted(ar, chain)
    ensures HeightOf(ar, chain[0]) > 0
  {
    hide RowsOk;
    assert BlockRowOk(ar, chain[0]);
  }

  lemma ExcludedFits(ar: Archive, h: Hash, parent: RollupRow, facts: BlockFacts, row: RollupRow)
    requires ArchiveOk(ar) && h in ar.blocks && Extended(parent, BlockExcluded(ar, h), facts, row)
    ensures ExcludedSums(RebuiltBlock(ar, h).txs, RebuiltBlock(ar, h).height == 0, |RebuiltBlock(ar, h).txs|) == Ok(row.excluded)
    ensures ExtendRollup(parent, row.excluded, facts) == Ok(row) && RollupChecks(row)
  {
    hide ArchiveOk;
    ExcludedSumsFit(ar, h, |TxIdsOf(ar, h)|);
    ExtendAgain(parent, row.excluded, facts, row);
  }
}
