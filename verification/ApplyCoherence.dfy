/** The accounting, rollup and cache halves of ApplyBlock, and the main preservation
    theorem: every state reached by any history of calls is coherent. */
module ApplyCoherence {
  import opened Wrappers
  import opened Int64
  import opened Chain
  import opened Tables
  import opened Accounting
  import opened Shape
  import opened Coins
  import opened TxSpec
  import opened TxFacts
  import opened Cache
  import opened Distribution
  import opened StoreSpec
  import opened Integrity
  import opened BlockLoop
  import opened Coherence
  import opened RollbackProof
  import opened ApplyProof

  // --- facts and excluded totals depend only on the block's own rows ---

  lemma FactsSame(sch: SubsidySchedule, ar: Archive, ar': Archive, h: Hash, facts: BlockFacts)
    requires Sound(sch) && SameBlock(ar, ar', h) && FactsMatch(sch, ar, h, facts)
    ensures FactsMatch(sch, ar', h, facts)
  {
    FeeTotalSame(ar.txs, ar'.txs, TxIdsOf(ar, h), |TxIdsOf(ar, h)|);
  }

  lemma {:induction false} ExcludedTotalSame(txs: map<TxId, TxRow>, txs': map<TxId, TxRow>, genesis: bool, ids: seq<TxId>, k: nat)
    requires k <= |ids| && SameRows(txs, txs', ids, k)
    ensures ExcludedTotal(txs, genesis, ids, k) == ExcludedTotal(txs', genesis, ids, k)
  {
    if k > 0 {
      ExcludedTotalSame(txs, txs', genesis, ids, k - 1);
    }
  }

  lemma BlockExcludedSame(ar: Archive, ar': Archive, h: Hash)
    requires SameBlock(ar, ar', h)
    ensures BlockExcluded(ar, h) == BlockExcluded(ar', h)
  {
    ExcludedTotalSame(ar.txs, ar'.txs, HeightOf(ar, h) == 0, TxIdsOf(ar, h), |TxIdsOf(ar, h)|);
  }

  lemma {:induction false} ExcludedSumIsTotal(total: int64, outs: seq<OutBody>, genesis: bool, k: nat)
    requires k <= |outs| && ExcludedSum(total, outs, genesis, k).Ok?
    ensures ExcludedSum(total, outs, genesis, k).value == total + ExcludedOf(outs, genesis, k)
  {
    if k > 0 {
      ExcludedSumIsTotal(total, outs, genesis, k - 1);
    }
  }

  lemma {:induction false} ExcludedSumsIsTotal(txs: map<TxId, TxRow>, b: Block, k: nat)
    requires k <= |b.txs| && ExcludedSums(b.txs, b.height == 0, k).Ok?
    requires forall i :: 0 <= i < k ==> OutputsOf(txs, Ids(b.txs)[i]) == Bodies(b.txs[i].outputs)
    ensures ExcludedSums(b.txs, b.height == 0, k).value == ExcludedTotal(txs, b.height == 0, Ids(b.txs), k)
  {
    if k > 0 {
      ExcludedSumsIsTotal(txs, b, k - 1);
      ExcludedSumIsTotal(ExcludedSums(b.txs, b.height == 0, k - 1).value, Bodies(b.txs[k - 1].outputs), b.height == 0, |b.txs[k - 1].outputs|);
    }
  }

  // --- the new block's rows ---

  /** lp is the loop result for the block b that starts from db. */
  ghost predicate LoopDone(sch: SubsidySchedule, db: Database, chain: seq<Hash>, b: Block, hd: Header, lp: Loop)
    requires Sound(sch)
  {
    && Coherent(sch, db, chain) && HeaderFacts(db.ar, chain, b, hd) && CheckBlock(b).Ok?
    && LoopInv(hd.ar, db.coins, b, |b.txs|, lp)
    && SlicesAgreeOff(db.ar, db.coins, hd.ar, db.coins, {})
  }

  lemma NewFacts(sch: SubsidySchedule, db: Database, chain: seq<Hash>, b: Block, hd: Header, lp: Loop, facts: BlockFacts)
    requires Sound(sch) && LoopDone(sch, db, chain, b, hd, lp) && FactsOfBlock(sch, b, lp.fee) == Ok(facts)
    ensures FactsMatch(sch, lp.ar, b.hash, facts)
  {
    OccurrencesComplete(hd.ar, b, lp.ar);
    assert Stored(lp.ar, b.txs[0]);
    OutputSumIsTotal(Bodies(b.txs[0].outputs), |b.txs[0].outputs|);
    assert CoinbaseOutputs(lp.ar, b.hash) == Bodies(b.txs[0].outputs);
    assert HeightOf(lp.ar, b.hash) == b.height;
  }

  lemma BlockKeys(ar: Archive, chain: seq<Hash>, b: Block, hd: Header, ar': Archive)
    requires HeaderFacts(ar, chain, b, hd) && LoopTables(hd.ar, b, |b.txs|, ar')
    ensures ar'.blocks.Keys == ar.blocks.Keys + {b.hash} && ar'.blocks[b.hash] == HeaderRow(b)
  {
  }

  ghost predicate BlocksKept(ar: Archive, ar': Archive) {
    forall g :: g in ar.blocks ==> SameBlock(ar, ar', g)
  }

  lemma StoredBlocksKept(ar: Archive, chain: seq<Hash>, b: Block, hd: Header, ar': Archive)
    requires ArchiveOk(ar) && HeaderFacts(ar, chain, b, hd) && LoopTables(hd.ar, b, |b.txs|, ar')
    ensures BlocksKept(ar, ar')
  {
    forall g | g in ar.blocks
      ensures SameBlock(ar, ar', g)
    {
      StoredBlockSame(ar, chain, b, hd, ar', g);
    }
  }

  lemma AccountingHolds(sch: SubsidySchedule, ar: Archive, ar': Archive, accounting: map<Hash, BlockFacts>, h: Hash, facts: BlockFacts)
    requires Sound(sch) && AccountingOk(sch, ar, accounting) && BlocksKept(ar, ar')
    requires ar'.blocks.Keys == ar.blocks.Keys + {h} && FactsMatch(sch, ar', h, facts)
    ensures AccountingOk(sch, ar', accounting[h := facts])
  {
    var accounting' := accounting[h := facts];
    forall g | g in accounting'
      ensures FactsMatch(sch, ar', g, accounting'[g])
    {
      if g != h {
        assert g in accounting && FactsMatch(sch, ar, g, accounting[g]);
        FactsSame(sch, ar, ar', g, accounting[g]);
      }
    }
  }

  lemma NewExcluded(sch: SubsidySchedule, db: Database, chain: seq<Hash>, b: Block, hd: Header, lp: Loop)
    requires Sound(sch) && LoopDone(sch, db, chain, b, hd, lp)
    ensures ExcludedSums(b.txs, b.height == 0, |b.txs|).Ok? ==>
              ExcludedSums(b.txs, b.height == 0, |b.txs|).value == BlockExcluded(lp.ar, b.hash)
  {
    OccurrencesComplete(hd.ar, b, lp.ar);
    forall i | 0 <= i < |b.txs|
      ensures OutputsOf(lp.ar.txs, Ids(b.txs)[i]) == Bodies(b.txs[i].outputs)
    {
      assert Stored(lp.ar, b.txs[i]);
    }
    if ExcludedSums(b.txs, b.height == 0, |b.txs|).Ok? {
      ExcludedSumsIsTotal(lp.ar.txs, b, |b.txs|);
    }
    assert HeightOf(lp.ar, b.hash) == b.height;
  }

  /** The checked additions either fail or add exactly. */
  lemma ExtendRollupExact(parent: RollupRow, excluded: int64, facts: BlockFacts, row: RollupRow)
    requires ExtendRollup(parent, excluded, facts) == Ok(row)
    ensures RollupChecks(row) ==> Extended(parent, excluded, facts, row)
  {
  }

  lemma RowStaysOk(db: Database, chain: seq<Hash>, b: Block, hd: Header, ar': Archive,
                   accounting: map<Hash, BlockFacts>, rollup: map<Hash, RollupRow>, g: Hash)
    requires ArchiveOk(db.ar) && HeaderFacts(db.ar, chain, b, hd) && LoopTables(hd.ar, b, |b.txs|, ar')
    requires g in db.rollup && db.rollup.Keys <= db.ar.blocks.Keys && RollupRowOk(db.ar, db.accounting, db.rollup, g)
    requires SubMap(db.accounting, accounting) && SubMap(db.rollup, rollup)
    ensures RollupRowOk(ar', accounting, rollup, g)
  {
    StoredBlockSame(db.ar, chain, b, hd, ar', g);
    BlockExcludedSame(db.ar, ar', g);
    if HeightOf(db.ar, g) > 0 {
      StoredBlockSame(db.ar, chain, b, hd, ar', db.ar.blocks[g].prev);
    }
  }

  /** What the published rollup table is, in the two kinds of store. */
  ghost predicate RollupStep(ar: Archive, canonical: set<Hash>, rollup: map<Hash, RollupRow>, b: Block, before: Checkpoint,
                             facts: BlockFacts, excluded: int, rollup': map<Hash, RollupRow>) {
    if b.height != 0 && b.prev !in rollup then rollup' == rollup
    else
      b.hash in rollup' && rollup' == rollup[b.hash := rollup'[b.hash]]
      && (b.hash in rollup ==> rollup' == rollup)
      && Extended(if b.height == 0 then ZERO_ROLLUP else rollup[b.prev], excluded, facts, rollup'[b.hash])
  }

  lemma RollupStepHolds(ar: Archive, canonical: set<Hash>, rollup: map<Hash, RollupRow>, b: Block, before: Checkpoint,
                        facts: BlockFacts, rollup': map<Hash, RollupRow>)
    requires ApplyRollup(ar, canonical, rollup, b, before, facts) == Ok(rollup')
    requires b.hash in rollup ==> RollupChecks(rollup[b.hash])
    ensures b.height == 0 || b.prev in rollup ==> ExcludedSums(b.txs, b.height == 0, |b.txs|).Ok?
    ensures RollupStep(ar, canonical, rollup, b, before, facts,
                       if ExcludedSums(b.txs, b.height == 0, |b.txs|).Ok? then ExcludedSums(b.txs, b.height == 0, |b.txs|).value else 0,
                       rollup')
  {
    if b.height == 0 || b.prev in rollup {
      var parent := if b.height == 0 then ZERO_ROLLUP else rollup[b.prev];
      var excluded := ExcludedSums(b.txs, b.height == 0, |b.txs|).value;
      var row := ExtendRollup(parent, excluded, facts).value;
      ExtendRollupExact(parent, excluded, facts, row);
    }
  }

  lemma RollupAbsent(sch: SubsidySchedule, db: Database, chain: seq<Hash>, b: Block, hd: Header, lp: Loop)
    requires Sound(sch) && LoopDone(sch, db, chain, b, hd, lp)
    requires !GenesisRooted(db.ar, chain) && !(chain == [] && b.height == 0)
    requires !IsReplay(chain, b) && chain != [] ==> b.height == db.checkpoint.height + 1
    ensures !GenesisRooted(lp.ar, NextChain(chain, b)) && db.rollup == map[]
    ensures b.height != 0
  {
    BlockKeys(db.ar, chain, b, hd, lp.ar);
    if chain != [] {
      assert chain[0] in db.ar.blocks && BlockRowOk(db.ar, chain[0]);
      StoredBlockSame(db.ar, chain, b, hd, lp.ar, chain[0]);
      var tip := chain[|chain| - 1];
      assert db.ar.blocks[tip].height == HeightOf(db.ar, chain[0]) + |chain| - 1;
    }
  }

  /** A genesis-rooted chain always finds the parent's row. */
  lemma ParentHasRollup(sch: SubsidySchedule, db: Database, chain: seq<Hash>, b: Block, hd: Header)
    requires Sound(sch) && Coherent(sch, db, chain) && HeaderFacts(db.ar, chain, b, hd)
    requires GenesisRooted(db.ar, chain) && b.height != 0
    requires !IsReplay(chain, b) ==> b.prev == chain[|chain| - 1] && b.height == db.checkpoint.height + 1
    ensures b.prev in db.rollup && b.prev in db.ar.blocks && HeightOf(db.ar, b.prev) == b.height - 1
  {
    var tip := chain[|chain| - 1];
    assert tip in db.ar.blocks;
    if IsReplay(chain, b) {
      assert RollupRowOk(db.ar, db.accounting, db.rollup, tip);
    }
  }

  lemma NewRollupRowOk(sch: SubsidySchedule, db: Database, chain: seq<Hash>, b: Block, hd: Header, lp: Loop,
                       accounting: map<Hash, BlockFacts>, rollup: map<Hash, RollupRow>)
    requires Sound(sch) && LoopDone(sch, db, chain, b, hd, lp) && !IsReplay(chain, b)
    requires b.hash in accounting && b.hash in rollup
    requires b.height != 0 ==> b.prev in db.ar.blocks && b.prev in db.rollup && SubMap(db.rollup, rollup)
                               && HeightOf(db.ar, b.prev) == b.height - 1
    requires Extended(if b.height == 0 then ZERO_ROLLUP else db.rollup[b.prev], BlockExcluded(lp.ar, b.hash), accounting[b.hash], rollup[b.hash])
    ensures RollupRowOk(lp.ar, accounting, rollup, b.hash)
  {
    BlockKeys(db.ar, chain, b, hd, lp.ar);
    if b.height != 0 {
      StoredBlockSame(db.ar, chain, b, hd, lp.ar, b.prev);
    }
  }

  lemma RollupPresent(sch: SubsidySchedule, db: Database, chain: seq<Hash>, b: Block, hd: Header, lp: Loop,
                      accounting: map<Hash, BlockFacts>, rollup: map<Hash, RollupRow>)
    requires Sound(sch) && LoopDone(sch, db, chain, b, hd, lp) && GenesisRooted(db.ar, chain)
    requires SubMap(db.accounting, accounting) && SubMap(db.rollup, rollup)
    requires rollup.Keys == db.rollup.Keys + {b.hash}
    requires b.hash !in db.rollup ==> RollupRowOk(lp.ar, accounting, rollup, b.hash)
    ensures RollupOk(lp.ar, accounting, rollup, NextChain(chain, b))
  {
    BlockKeys(db.ar, chain, b, hd, lp.ar);
    StoredBlockSame(db.ar, chain, b, hd, lp.ar, chain[0]);
    assert NextChain(chain, b)[0] == chain[0];
    forall g | g in rollup
      ensures RollupRowOk(lp.ar, accounting, rollup, g)
    {
      if g in db.rollup {
        RowStaysOk(db, chain, b, hd, lp.ar, accounting, rollup, g);
      }
    }
  }

  // --- putting the halves together ---

  lemma CacheHolds(sch: SubsidySchedule, db: Database, chain: seq<Hash>, b: Block, hd: Header, lp: Loop, db': Database)
    requires Sound(sch) && LoopDone(sch, db, chain, b, hd, lp)
    requires RefreshChecked(db.addresses, lp.ar, lp.coins, lp.touched) == Ok(db'.addresses)
    requires BucketsAfter(db.buckets, db.addresses, db'.addresses) == Ok(db'.buckets)
    ensures CacheCoherent(db'.addresses, lp.ar, lp.coins) && BucketsCoherent(db'.buckets, db'.addresses)
  {
    forall a | a !in lp.touched
      ensures SliceOf(lp.ar, lp.coins, a) == SliceOf(db.ar, db.coins, a)
    {
      assert SliceOf(hd.ar, db.coins, a) == SliceOf(db.ar, db.coins, a);
    }
    RefreshCoherent(db.addresses, db.ar, db.coins, lp.ar, lp.coins, lp.touched);
    BucketsAfterIff(db.buckets, db.addresses, db'.addresses);
  }

  lemma NotYetRolledUp(sch: SubsidySchedule, db: Database, chain: seq<Hash>, b: Block)
    requires Sound(sch) && Coherent(sch, db, chain) && GenesisRooted(db.ar, chain) && b.hash !in db.rollup
    ensures !IsReplay(chain, b)
  {
    assert chain[|chain| - 1] in db.ar.blocks;
  }

  lemma RollupGrows(ar: Archive, canonical: set<Hash>, rollup: map<Hash, RollupRow>, b: Block, before: Checkpoint,
                    facts: BlockFacts, excluded: int, rollup': map<Hash, RollupRow>)
    requires RollupStep(ar, canonical, rollup, b, before, facts, excluded, rollup') && (b.height == 0 || b.prev in rollup)
    ensures b.hash in rollup' && SubMap(rollup, rollup') && rollup'.Keys == rollup.Keys + {b.hash}
    ensures Extended(if b.height == 0 then ZERO_ROLLUP else rollup[b.prev], excluded, facts, rollup'[b.hash])
  {
  }

  lemma RollupOfGenesisRooted(sch: SubsidySchedule, db: Database, chain: seq<Hash>, b: Block, hd: Header, lp: Loop, facts: BlockFacts,
                              accounting: map<Hash, BlockFacts>, rollup: map<Hash, RollupRow>)
    requires Sound(sch) && LoopDone(sch, db, chain, b, hd, lp) && GenesisRooted(db.ar, chain)
    requires !IsReplay(chain, b) ==> b.prev == chain[|chain| - 1] && b.height == db.checkpoint.height + 1
    requires SubMap(db.accounting, accounting) && b.hash in accounting && accounting[b.hash] == facts
    requires RollupStep(lp.ar, hd.canonical, db.rollup, b, db.checkpoint, facts, BlockExcluded(lp.ar, b.hash), rollup)
    ensures RollupOk(lp.ar, accounting, rollup, NextChain(chain, b))
  {
    if b.height != 0 {
      ParentHasRollup(sch, db, chain, b, hd);
    }
    RollupGrows(lp.ar, hd.canonical, db.rollup, b, db.checkpoint, facts, BlockExcluded(lp.ar, b.hash), rollup);
    if b.hash !in db.rollup {
      NotYetRolledUp(sch, db, chain, b);
      NewRollupRowOk(sch, db, chain, b, hd, lp, accounting, rollup);
    }
    RollupPresent(sch, db, chain, b, hd, lp, accounting, rollup);
  }

  lemma StillEmpty(sch: SubsidySchedule, db: Database)
    requires Sound(sch) && Coherent(sch, db, [])
    ensures db == EMPTY
  {
  }

  lemma RollupOfNewGenesis(sch: SubsidySchedule, db: Database, b: Block, hd: Header, lp: Loop, facts: BlockFacts,
                           accounting: map<Hash, BlockFacts>, rollup: map<Hash, RollupRow>)
    requires Sound(sch) && LoopDone(sch, db, [], b, hd, lp) && b.height == 0
    requires b.hash in accounting && accounting[b.hash] == facts
    requires RollupStep(lp.ar, hd.canonical, db.rollup, b, db.checkpoint, facts, BlockExcluded(lp.ar, b.hash), rollup)
    ensures RollupOk(lp.ar, accounting, rollup, NextChain([], b))
  {
    hide Coherent, HeaderFacts, LoopTables, LoopCoins, CheckBlock, Extended, RollupRowOk, BlockExcluded, SlicesAgreeOff;
    BlockKeys(db.ar, [], b, hd, lp.ar);
    StillEmpty(sch, db);
    NewRollupRowOk(sch, db, [], b, hd, lp, accounting, rollup);
  }

  lemma RollupHolds(sch: SubsidySchedule, db: Database, chain: seq<Hash>, b: Block, hd: Header, lp: Loop, facts: BlockFacts,
                    accounting: map<Hash, BlockFacts>, rollup: map<Hash, RollupRow>)
    requires Sound(sch) && LoopDone(sch, db, chain, b, hd, lp)
    requires !IsReplay(chain, b) && chain != [] ==> b.prev == chain[|chain| - 1] && b.height == db.checkpoint.height + 1
    requires SubMap(db.accounting, accounting) && b.hash in accounting && accounting[b.hash] == facts
    requires RollupStep(lp.ar, hd.canonical, db.rollup, b, db.checkpoint, facts, BlockExcluded(lp.ar, b.hash), rollup)
    ensures RollupOk(lp.ar, accounting, rollup, NextChain(chain, b))
  {
    if GenesisRooted(db.ar, chain) {
      RollupOfGenesisRooted(sch, db, chain, b, hd, lp, facts, accounting, rollup);
    } else if chain == [] && b.height == 0 {
      RollupOfNewGenesis(sch, db, b, hd, lp, facts, accounting, rollup);
    } else {
      RollupAbsent(sch, db, chain, b, hd, lp);
    }
  }

  lemma RollupStepOf(sch: SubsidySchedule, db: Database, chain: seq<Hash>, b: Block, hd: Header, lp: Loop, facts: BlockFacts,
                     rollup: map<Hash, RollupRow>)
    requires Sound(sch) && LoopDone(sch, db, chain, b, hd, lp)
    requires ApplyRollup(lp.ar, hd.canonical, db.rollup, b, db.checkpoint, facts) == Ok(rollup)
    ensures RollupStep(lp.ar, hd.canonical, db.rollup, b, db.checkpoint, facts, BlockExcluded(lp.ar, b.hash), rollup)
  {
    if b.hash in db.rollup {
      assert RollupRowOk(db.ar, db.accounting, db.rollup, b.hash);
    }
    RollupStepHolds(lp.ar, hd.canonical, db.rollup, b, db.checkpoint, facts, rollup);
    NewExcluded(sch, db, chain, b, hd, lp);
  }

  lemma LoopReached(sch: SubsidySchedule, db: Database, chain: seq<Hash>, b: Block, hd: Header, lp: Loop)
    requires Sound(sch) && Coherent(sch, db, chain) && Admitted(db, b, hd) && ApplyTxs(hd.ar, db.coins, b, |b.txs|) == Ok(lp)
    ensures LoopDone(sch, db, chain, b, hd, lp)
    ensures !IsReplay(chain, b) && chain != [] ==> b.prev == chain[|chain| - 1] && b.height == db.checkpoint.height + 1
  {
    HeaderHolds(db, chain, b, hd);
    StartHolds(sch, db, chain, b, hd);
    LoopHolds(hd.ar, db.coins, b, |b.txs|, lp);
  }

  lemma AccountingPublished(sch: SubsidySchedule, db: Database, chain: seq<Hash>, b: Block, hd: Header, lp: Loop, facts: BlockFacts)
    requires Sound(sch) && LoopDone(sch, db, chain, b, hd, lp) && FactsOfBlock(sch, b, lp.fee) == Ok(facts)
    ensures AccountingOk(sch, lp.ar, db.accounting[b.hash := facts])
  {
    NewFacts(sch, db, chain, b, hd, lp, facts);
    StoredBlocksKept(db.ar, chain, b, hd, lp.ar);
    BlockKeys(db.ar, chain, b, hd, lp.ar);
    AccountingHolds(sch, db.ar, lp.ar, db.accounting, b.hash, facts);
  }

  lemma RollupPublished(sch: SubsidySchedule, db: Database, chain: seq<Hash>, b: Block, hd: Header, lp: Loop, facts: BlockFacts,
                        accounting: map<Hash, BlockFacts>, rollup: map<Hash, RollupRow>)
    requires Sound(sch) && LoopDone(sch, db, chain, b, hd, lp)
    requires !IsReplay(chain, b) && chain != [] ==> b.prev == chain[|chain| - 1] && b.height == db.checkpoint.height + 1
    requires InsertOrVerify(db.accounting, b.hash, facts) == Ok(accounting)
    requires ApplyRollup(lp.ar, hd.canonical, db.rollup, b, db.checkpoint, facts) == Ok(rollup)
    ensures RollupOk(lp.ar, accounting, rollup, NextChain(chain, b))
  {
    hide ApplyRollup, RollupStep, LoopDone, RollupOk;
    RollupStepOf(sch, db, chain, b, hd, lp, facts, rollup);
    RollupHolds(sch, db, chain, b, hd, lp, facts, accounting, rollup);
  }

  lemma TipPublished(ar: Archive, chain: seq<Hash>, b: Block, hd: Header, ar': Archive, tip: Checkpoint)
    requires HeaderFacts(ar, chain, b, hd) && tip == Checkpoint(HeightOf(ar', b.hash), b.hash)
    ensures hd.canonical == Elems(NextChain(chain, b)) && tip == TipOf(ar', NextChain(chain, b))
  {
    hide WellFormedHash, Linked, Elems;
  }

  lemma DerivedPublished(sch: SubsidySchedule, db: Database, chain: seq<Hash>, b: Block, hd: Header, lp: Loop, facts: BlockFacts, db': Database)
    requires Sound(sch) && LoopDone(sch, db, chain, b, hd, lp)
    requires Published(sch, db, b, hd.canonical, lp, facts, db')
    ensures DerivedOk(db', NextChain(chain, b)) && ChainOk(db'.ar, NextChain(chain, b)) && CoinsOk(db'.ar, db'.coins)
  {
    hide Coherent, HeaderFacts, LoopTables, CacheCoherent, BucketsCoherent, CoinsOf, SlicesAgreeOff, Linked, ChainValid, ChainOk;
    hide CoinsOk, ApplyRollup, RefreshChecked, NextChain, TipOf, BlockEffect, ValidUpTo;
    CoinsHold(sch, db, chain, b, hd, lp);
    CacheHolds(sch, db, chain, b, hd, lp, db');
    TipPublished(db.ar, chain, b, hd, lp.ar, db'.checkpoint);
  }

  lemma PublishedCoherent(sch: SubsidySchedule, db: Database, chain: seq<Hash>, b: Block, hd: Header, lp: Loop, facts: BlockFacts, db': Database)
    requires Sound(sch) && LoopDone(sch, db, chain, b, hd, lp)
    requires !IsReplay(chain, b) && chain != [] ==> b.prev == chain[|chain| - 1] && b.height == db.checkpoint.height + 1
    requires Published(sch, db, b, hd.canonical, lp, facts, db')
    ensures Coherent(sch, db', NextChain(chain, b)) && Extends(db.ar, db'.ar)
  {
    ArchiveStaysOk(db.ar, chain, b, hd, lp.ar);
    DerivedPublished(sch, db, chain, b, hd, lp, facts, db');
    AccountingPublished(sch, db, chain, b, hd, lp, facts);
    RollupPublished(sch, db, chain, b, hd, lp, facts, db'.accounting, db'.rollup);
  }

  ghost predicate Stages(sch: SubsidySchedule, db: Database, chain: seq<Hash>, b: Block, hd: Header, lp: Loop, facts: BlockFacts, db': Database)
    requires Sound(sch) && |db.buckets| == 8
  {
    && Admitted(db, b, hd)
    && ApplyTxs(hd.ar, db.coins, b, |b.txs|) == Ok(lp)
    && LoopDone(sch, db, chain, b, hd, lp)
    && Published(sch, db, b, hd.canonical, lp, facts, db')
    && (!IsReplay(chain, b) && chain != [] ==> b.prev == chain[|chain| - 1] && b.height == db.checkpoint.height + 1)
  }

  lemma ApplyReached(sch: SubsidySchedule, db: Database, chain: seq<Hash>, b: Block, db': Database)
    returns (hd: Header, lp: Loop, facts: BlockFacts)
    requires Sound(sch) && Coherent(sch, db, chain) && |db.buckets| == 8 && ApplyBlock(sch, db, b) == Ok(db')
    ensures Stages(sch, db, chain, b, hd, lp, facts, db')
  {
    hide ApplyBlock, ApplyTxs, Admit, Publish, Coherent, LoopDone, Published;
    hd, lp := ApplyStages(sch, db, b, db');
    AdmitIff(db, b, hd);
    LoopReached(sch, db, chain, b, hd, lp);
    PublishIff(sch, db, b, hd.canonical, lp, db');
    facts :| Published(sch, db, b, hd.canonical, lp, facts, db');
  }

  /** An accepted ApplyBlock extends the canonical chain by the block, or replays its
      tip, and keeps every derived table a function of that chain. */
  lemma ApplyCoherent(sch: SubsidySchedule, db: Database, chain: seq<Hash>, b: Block, db': Database)
    requires Sound(sch) && Coherent(sch, db, chain) && ApplyBlock(sch, db, b) == Ok(db')
    ensures Coherent(sch, db', NextChain(chain, b)) && Extends(db.ar, db'.ar)
  {
    hide ApplyBlock, ApplyTxs, Admit, Publish, Coherent, LoopDone, Published;
    BucketCount(sch, db, chain);
    var hd, lp, facts := ApplyReached(sch, db, chain, b, db');
    PublishedCoherent(sch, db, chain, b, hd, lp, facts, db');
  }

  /** One call, accepted or not. */
  lemma StepCoherent(sch: SubsidySchedule, db: Database, chain: seq<Hash>, op: Op) returns (chain': seq<Hash>)
    requires Sound(sch) && Coherent(sch, db, chain)
    ensures Coherent(sch, Step(sch, db, op), chain')
    ensures Extends(db.ar, Step(sch, db, op).ar)
  {
    chain' := chain;
    match Attempt(sch, db, op)
    case Err(_) =>
    case Ok(next) =>
      match op
      case Apply(b) =>
        ApplyCoherent(sch, db, chain, b, next);
        chain' := NextChain(chain, b);
      case Rollback(a) =>
        var k := RollbackCoherent(sch, db, chain, a, next);
        chain' := chain[..k + 1];
  }

  /** Every history of ApplyBlock and RollbackTo calls, in any order and with any
      mixture of accepted and rejected ones, leaves a coherent store. */
  lemma {:induction false} RunCoherent(sch: SubsidySchedule, ops: seq<Op>) returns (chain: seq<Hash>)
    requires Sound(sch)
    ensures Coherent(sch, Run(sch, ops), chain)
  {
    if ops == [] {
      EmptyIsCoherent(sch);
      chain := [];
    } else {
      var before := RunCoherent(sch, ops[..|ops| - 1]);
      chain := StepCoherent(sch, Run(sch, ops[..|ops| - 1]), before, ops[|ops| - 1]);
    }
  }
}
