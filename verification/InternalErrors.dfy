/** The errors that would report a broken invariant: ErrRollupParentMissing never
    happens, ErrRollupInvariant only for a block that re-spends value, and
    ErrDistributionInvariant never for a block that claims no more than it may. */
module InternalErrors {
  import opened Wrappers
  import opened Errors
  import opened Int64
  import Sums
  import opened Chain
  import opened Tables
  import opened Accounting
  import opened Shape
  import opened Coins
  import opened TxSpec
  import opened TxFacts
  import opened Cache
  import opened Distribution
  import opened StoreSpec
  import opened Integrity
  import opened BlockLoop
  import opened Coherence
  import opened ApplyProof
  import opened ApplyCoherence
  import opened Conservation
  import opened Supply
  import opened Determined
  import opened Recovery
  import opened Republication

  // --- the residue only depends on the chain's own rows ---

  lemma {:induction false} RespentSameRows(ar: Archive, ar': Archive, c: CoinSet, ins: seq<Input>, k: nat)
    requires k <= |ins| && SubMap(ar.txs, ar'.txs) && forall op :: op in c ==> HasOutput(ar, op)
    ensures Respent(ar, c, ins, k) == Respent(ar', c, ins, k)
  {
    if k > 0 {
      RespentSameRows(ar, ar', c, ins, k - 1);
    }
  }

  lemma {:induction false} RespentUpToSame(ar: Archive, ar': Archive, c: CoinSet, h: Hash, genesis: bool, ids: seq<TxId>, k: nat)
    requires k <= |ids| && SubMap(ar.txs, ar'.txs) && SameRows(ar.txs, ar'.txs, ids, |ids|)
    requires forall op :: op in c ==> HasOutput(ar, op)
    ensures RespentUpTo(ar, c, h, genesis, ids, k) == RespentUpTo(ar', c, h, genesis, ids, k)
  {
    if k > 0 {
      RespentUpToSame(ar, ar', c, h, genesis, ids, k - 1);
      BlockEffectSame(ar.txs, ar'.txs, c, h, genesis, ids, k - 1);
      var met := BlockEffect(ar.txs, c, h, genesis, ids, k - 1);
      forall op | op in met
        ensures HasOutput(ar, op)
      {
        AdmissibleInBlock(ar, c, h, genesis, ids, k - 1, op);
      }
      var row := ar.txs[ids[k - 1]];
      RespentSameRows(ar, ar', met, row.inputs, |row.inputs|);
    }
  }

  lemma {:induction false} ResidueSame(ar: Archive, ar': Archive, chain: seq<Hash>)
    requires SubMap(ar.txs, ar'.txs) && SameChainRows(ar, ar', chain)
    ensures Residue(ar, chain) == Residue(ar', chain)
  {
    hide RespentUpTo, BlockEffect;
    if chain != [] {
      var init, h := chain[..|chain| - 1], chain[|chain| - 1];
      assert h in chain;
      assert SameBlock(ar, ar', h);
      forall g | g in init
        ensures SameBlock(ar, ar', g)
      {
        assert g in chain;
      }
      ResidueSame(ar, ar', init);
      CoinsOfSame(ar, ar', init);
      forall op | op in CoinsOf(ar, init)
        ensures HasOutput(ar, op)
      {
        CoinsAdmissible(ar, init, op);
      }
      RespentUpToSame(ar, ar', CoinsOf(ar, init), h, HeightOf(ar, h) == 0, TxIdsOf(ar, h), |TxIdsOf(ar, h)|);
    }
  }

  // --- the block about to be published ---

  /** The chain the block extends is accounted for from height 0. */
  ghost predicate Rooted(db: Database, chain: seq<Hash>, b: Block) {
    GenesisRooted(db.ar, chain) || (chain == [] && b.height == 0)
  }

  function ValueBefore(db: Database, chain: seq<Hash>): int {
    if chain != [] && chain[|chain| - 1] in db.rollup then db.rollup[chain[|chain| - 1]].utxoValue else 0
  }

  lemma OldChainSame(sch: SubsidySchedule, db: Database, chain: seq<Hash>, b: Block, hd: Header, lp: Loop)
    requires Sound(sch) && LoopDone(sch, db, chain, b, hd, lp)
    ensures SameChainRows(db.ar, lp.ar, chain) && SubMap(db.ar.txs, lp.ar.txs) && ArchiveOk(lp.ar)
  {
    hide ChainValid, CoinsOk, AccountingOk, RollupOk, DerivedOk, LoopCoins, SlicesAgreeOff, SameBlock, BlockRowOk, RowsOk;
    ArchiveStaysOk(db.ar, chain, b, hd, lp.ar);
    ExtendsSameChain(db.ar, lp.ar, chain);
  }

  lemma UnspentBefore(sch: SubsidySchedule, db: Database, chain: seq<Hash>, b: Block, hd: Header, lp: Loop)
    requires Sound(sch) && LoopDone(sch, db, chain, b, hd, lp) && Rooted(db, chain, b)
    ensures Unspent(lp.ar, CoinsOf(lp.ar, chain)) == ValueBefore(db, chain) + Residue(lp.ar, chain)
  {
    hide ArchiveOk, ChainOk, CoinsOk, AccountingOk, RollupOk, CacheCoherent, BucketsCoherent, HeaderFacts, LoopInv, SlicesAgreeOff, Residue, Unspent;
    OldChainSame(sch, db, chain, b, hd, lp);
    SameChainCoins(db.ar, lp.ar, chain);
    UnspentAgrees(db.ar, lp.ar, chain);
    ResidueSame(db.ar, lp.ar, chain);
    if chain == [] {
      NothingUnspent(lp.ar);
    } else {
      SupplyConservation(sch, db, chain);
    }
  }

  /** What the unspent total becomes when a new block is appended. */
  lemma UnspentAfter(sch: SubsidySchedule, db: Database, chain: seq<Hash>, b: Block, hd: Header, lp: Loop)
    requires Sound(sch) && LoopDone(sch, db, chain, b, hd, lp) && Rooted(db, chain, b) && !IsReplay(chain, b)
    ensures Unspent(lp.ar, lp.coins)
            == ValueBefore(db, chain) + CoinbaseTotal(lp.ar, b.hash) - BlockFees(lp.ar, b.hash) - BlockExcluded(lp.ar, b.hash)
               + Residue(lp.ar, chain + [b.hash])
    ensures Unspent(lp.ar, lp.coins) >= 0
  {
    hide ArchiveOk, ChainOk, CoinsOk, AccountingOk, RollupOk, DerivedOk, HeaderFacts, SlicesAgreeOff, Unspent, BlockRespent;
    hide LoopTables, BlockFees, BlockExcluded, CoinbaseTotal;
    var next := chain + [b.hash];
    assert next[..|next| - 1] == chain;
    OldChainSame(sch, db, chain, b, hd, lp);
    CoinsHold(sch, db, chain, b, hd, lp);
    ChainBalance(lp.ar, next);
    UnspentBefore(sch, db, chain, b, hd, lp);
    UnspentNonNegative(lp.ar, lp.coins);
  }

  lemma UnspentNonNegative(ar: Archive, c: CoinSet)
    requires ArchiveOk(ar) && CoinsOk(ar, c)
    ensures Unspent(ar, c) >= 0
  {
    CoinsBacked(ar, c);
    Sums.SumNonNegative(UnspentValues(ar, c));
  }

  // --- ErrRollupParentMissing and ErrRollupInvariant ---

  /** Either every block ever stored has a rollup row or none has. */
  lemma LineageAllOrNothing(sch: SubsidySchedule, db: Database, chain: seq<Hash>)
    requires Sound(sch) && Coherent(sch, db, chain)
    ensures db.canonical <= db.ar.blocks.Keys
    ensures if GenesisRooted(db.ar, chain) then db.rollup.Keys == db.ar.blocks.Keys else db.rollup == map[]
  {
    hide ArchiveOk, ChainValid, CoinsOk, AccountingOk, CacheCoherent, BucketsCoherent;
  }

  lemma ExtendInvariant(parent: RollupRow, excluded: int64, facts: BlockFacts)
    requires parent.utxoValue == parent.coinbase - parent.fee - parent.cumExcluded
    ensures ExtendRollup(parent, excluded, facts) != Err(AmountOverflow) ==>
              (ExtendRollup(parent, excluded, facts) == Err(RollupInvariant)
               <==> parent.utxoValue + facts.coinbase - facts.fee - excluded < 0)
    ensures ExtendRollup(parent, excluded, facts) != Err(RollupParentMissing)
  {
  }

  /** Every checked sum of the rollup row fits an int64. */
  ghost predicate SumsFit(parent: RollupRow, excluded: int, facts: BlockFacts) {
    var coinbase, fee, cumExcluded := parent.coinbase + facts.coinbase, parent.fee + facts.fee, parent.cumExcluded + excluded;
    && InRange(parent.subsidy + facts.subsidy) && InRange(fee) && InRange(coinbase)
    && InRange(parent.unclaimed + facts.unclaimed) && InRange(cumExcluded)
    && InRange(coinbase - fee) && InRange(coinbase - fee - cumExcluded)
  }

  lemma ExtendOverflows(parent: RollupRow, excluded: int64, facts: BlockFacts)
    ensures ExtendRollup(parent, excluded, facts) == Err(AmountOverflow) <==> !SumsFit(parent, excluded, facts)
  {
  }

  /** No checked sum overflows while b's rollup row is derived from its parent's. */
  ghost predicate RollupFits(db: Database, b: Block, facts: BlockFacts) {
    var excluded := ExcludedSums(b.txs, b.height == 0, |b.txs|);
    && excluded.Ok?
    && (b.height != 0 ==> b.prev in db.rollup)
    && SumsFit(if b.height == 0 then ZERO_ROLLUP else db.rollup[b.prev], excluded.value, facts)
  }

  lemma {:induction false} ExcludedSumErrors(total: int64, outs: seq<OutBody>, genesis: bool, k: nat)
    requires k <= |outs|
    ensures ExcludedSum(total, outs, genesis, k).Err? ==> ExcludedSum(total, outs, genesis, k).error == AmountOverflow
  {
    if k > 0 {
      ExcludedSumErrors(total, outs, genesis, k - 1);
    }
  }

  lemma {:induction false} ExcludedSumsErrors(txs: seq<Transaction>, genesis: bool, k: nat)
    requires k <= |txs|
    ensures ExcludedSums(txs, genesis, k).Err? ==> ExcludedSums(txs, genesis, k).error == AmountOverflow
  {
    if k > 0 {
      ExcludedSumsErrors(txs, genesis, k - 1);
      if ExcludedSums(txs, genesis, k - 1).Ok? {
        ExcludedSumErrors(ExcludedSums(txs, genesis, k - 1).value, Bodies(txs[k - 1].outputs), genesis, |txs[k - 1].outputs|);
      }
    }
  }

  /** A store that was not indexed from genesis keeps no rollup, and says so. */
  lemma UnrootedRollup(sch: SubsidySchedule, db: Database, chain: seq<Hash>, b: Block, hd: Header, lp: Loop, facts: BlockFacts)
    requires Sound(sch) && LoopDone(sch, db, chain, b, hd, lp) && !Rooted(db, chain, b)
    requires !IsReplay(chain, b) && chain != [] ==> b.prev == chain[|chain| - 1] && b.height == db.checkpoint.height + 1
    ensures ApplyRollup(lp.ar, hd.canonical, db.rollup, b, db.checkpoint, facts) == Ok(db.rollup)
  {
    hide LoopDone, GenesisRooted, ExtendRollup;
    RollupAbsent(sch, db, chain, b, hd, lp);
  }

  /** Replaying the tip recomputes its own row. */
  lemma ReplayedRollup(sch: SubsidySchedule, db: Database, chain: seq<Hash>, b: Block, hd: Header, lp: Loop, facts: BlockFacts)
    requires Sound(sch) && LoopDone(sch, db, chain, b, hd, lp) && GenesisRooted(db.ar, chain) && IsReplay(chain, b)
    requires InsertOrVerify(db.accounting, b.hash, facts).Ok?
    ensures var r := ApplyRollup(lp.ar, hd.canonical, db.rollup, b, db.checkpoint, facts);
            r.Ok? || r.error == AmountOverflow
  {
    hide ArchiveOk, ChainValid, CoinsOk, DerivedOk, LoopInv, SlicesAgreeOff, Extended, ExtendRollup, RollupChecks, BlockExcluded, FactsMatch;
    ExcludedSumsErrors(b.txs, b.height == 0, |b.txs|);
    NewExcluded(sch, db, chain, b, hd, lp);
    OldChainSame(sch, db, chain, b, hd, lp);
    assert b.hash in chain;
    BlockExcludedSame(db.ar, lp.ar, b.hash);
    assert RollupRowOk(db.ar, db.accounting, db.rollup, b.hash);
    assert db.ar.blocks[b.hash] == HeaderRow(b);
    ReplayedRow(if b.height == 0 then ZERO_ROLLUP else db.rollup[b.prev], BlockExcluded(db.ar, b.hash), facts, db.rollup[b.hash]);
  }

  lemma ReplayedRow(parent: RollupRow, excluded: int, facts: BlockFacts, row: RollupRow)
    requires Extended(parent, excluded, facts, row)
    ensures InRange(excluded) && ExtendRollup(parent, excluded, facts) == Ok(row)
  {
  }

  lemma ParentValue(sch: SubsidySchedule, db: Database, chain: seq<Hash>)
    requires Sound(sch) && Coherent(sch, db, chain) && GenesisRooted(db.ar, chain)
    ensures var tip := chain[|chain| - 1];
            && tip in db.rollup
            && ValueBefore(db, chain) == db.rollup[tip].utxoValue
            && var row := db.rollup[tip]; row.utxoValue == row.coinbase - row.fee - row.cumExcluded
  {
    hide Coherent, Ledgered;
    CoherentIsLedgered(sch, db, chain);
    Conserved(sch, db, chain, |chain|);
  }

  lemma NewBlockFacts(sch: SubsidySchedule, db: Database, chain: seq<Hash>, b: Block, hd: Header, lp: Loop, facts: BlockFacts)
    requires Sound(sch) && LoopDone(sch, db, chain, b, hd, lp) && FactsOfBlock(sch, b, lp.fee) == Ok(facts)
    ensures facts.coinbase == CoinbaseTotal(lp.ar, b.hash) && facts.fee == BlockFees(lp.ar, b.hash)
    ensures b.height >= 0 && facts.subsidy == SubsidyAt(sch, b.height) && facts.coinbase <= facts.subsidy + facts.fee
  {
    hide Coherent, LoopInv, SlicesAgreeOff, CoinbaseTotal, BlockFees, FactsOfBlock;
    NewFacts(sch, db, chain, b, hd, lp, facts);
    LoopBlocks(sch, db, chain, b, hd, lp);
  }

  lemma LoopBlocks(sch: SubsidySchedule, db: Database, chain: seq<Hash>, b: Block, hd: Header, lp: Loop)
    requires Sound(sch) && LoopDone(sch, db, chain, b, hd, lp)
    ensures HeightOf(lp.ar, b.hash) == b.height
  {
    hide Coherent, LoopCoins, SlicesAgreeOff;
    BlockKeys(db.ar, chain, b, hd, lp.ar);
  }

  /** The row appended for a new block is refused for an overflow exactly when a checked
      sum does not fit, and otherwise as a broken invariant exactly when the chain has
      re-spent more than is unspent. */
  lemma AppendedRollup(sch: SubsidySchedule, db: Database, chain: seq<Hash>, b: Block, hd: Header, lp: Loop, facts: BlockFacts)
    requires Sound(sch) && LoopDone(sch, db, chain, b, hd, lp) && Rooted(db, chain, b) && !IsReplay(chain, b)
    requires chain != [] ==> b.prev == chain[|chain| - 1] && b.height == db.checkpoint.height + 1
    requires FactsOfBlock(sch, b, lp.fee) == Ok(facts)
    ensures var r := ApplyRollup(lp.ar, hd.canonical, db.rollup, b, db.checkpoint, facts);
            && r != Err(RollupParentMissing)
            && (r == Err(AmountOverflow) <==> !RollupFits(db, b, facts))
            && (r == Err(RollupInvariant) <==>
                  RollupFits(db, b, facts) && Unspent(lp.ar, lp.coins) < Residue(lp.ar, chain + [b.hash]))
            && Unspent(lp.ar, lp.coins) >= 0
  {
    hide Coherent, LoopDone, FactsOfBlock, ExtendRollup, SumsFit, RollupChecks, Residue, CoinbaseTotal, BlockFees;
    hide BlockExcluded, Unspent, GenesisRollupExists;
    NewBlockFacts(sch, db, chain, b, hd, lp, facts);
    UnspentAfter(sch, db, chain, b, hd, lp);
    NewExcluded(sch, db, chain, b, hd, lp);
    ExcludedSumsErrors(b.txs, b.height == 0, |b.txs|);
    ParentRow(sch, db, chain, b, hd, lp);
    if ExcludedSums(b.txs, b.height == 0, |b.txs|).Ok? {
      var parent, excluded := if b.height == 0 then ZERO_ROLLUP else db.rollup[b.prev], ExcludedSums(b.txs, b.height == 0, |b.txs|).value;
      ExtendInvariant(parent, excluded, facts);
      ExtendOverflows(parent, excluded, facts);
    }
  }

  lemma ParentRow(sch: SubsidySchedule, db: Database, chain: seq<Hash>, b: Block, hd: Header, lp: Loop)
    requires Sound(sch) && LoopDone(sch, db, chain, b, hd, lp) && Rooted(db, chain, b) && !IsReplay(chain, b)
    requires chain != [] ==> b.prev == chain[|chain| - 1] && b.height == db.checkpoint.height + 1
    ensures b.height != 0 ==> b.prev in db.rollup
    ensures var parent := if b.height == 0 then ZERO_ROLLUP else db.rollup[b.prev];
            && parent.utxoValue == ValueBefore(db, chain)
            && parent.utxoValue == parent.coinbase - parent.fee - parent.cumExcluded
  {
    hide ArchiveOk, ChainValid, CoinsOk, AccountingOk, RollupOk, CacheCoherent, BucketsCoherent, LoopInv, SlicesAgreeOff, HeaderFacts;
    if chain != [] {
      ParentValue(sch, db, chain);
      TipHeight(sch, db, chain);
    }
  }

  lemma TipHeight(sch: SubsidySchedule, db: Database, chain: seq<Hash>)
    requires Sound(sch) && Coherent(sch, db, chain) && GenesisRooted(db.ar, chain)
    ensures db.checkpoint.height == |chain| - 1
  {
    hide ArchiveOk, ChainValid, CoinsOk, AccountingOk, RollupOk, CacheCoherent, BucketsCoherent;
    assert db.ar.blocks[chain[|chain| - 1]].height == |chain| - 1;
  }

  /** b is appended to a chain counted from height 0, on which more has then been re-spent
      than is unspent. */
  ghost predicate RespentMore(db: Database, chain: seq<Hash>, b: Block, lp: Loop) {
    Rooted(db, chain, b) && !IsReplay(chain, b) && Unspent(lp.ar, lp.coins) < Residue(lp.ar, NextChain(chain, b))
  }

  /** Only appending to a genesis-rooted chain can find less unspent than was re-spent. */
  lemma RollupErrors(sch: SubsidySchedule, db: Database, chain: seq<Hash>, b: Block, hd: Header, lp: Loop, facts: BlockFacts)
    requires Sound(sch) && LoopDone(sch, db, chain, b, hd, lp)
    requires !IsReplay(chain, b) && chain != [] ==> b.prev == chain[|chain| - 1] && b.height == db.checkpoint.height + 1
    requires FactsOfBlock(sch, b, lp.fee) == Ok(facts) && InsertOrVerify(db.accounting, b.hash, facts).Ok?
    ensures var r := ApplyRollup(lp.ar, hd.canonical, db.rollup, b, db.checkpoint, facts);
            && r != Err(RollupParentMissing)
            && (r == Err(RollupInvariant) ==> 0 <= Unspent(lp.ar, lp.coins) < Residue(lp.ar, NextChain(chain, b)))
            && (r == Err(RollupInvariant) <==> RollupFits(db, b, facts) && RespentMore(db, chain, b, lp))
  {
    hide LoopDone, FactsOfBlock, ApplyRollup, RollupFits, Residue, Unspent, GenesisRooted;
    if !Rooted(db, chain, b) {
      UnrootedRollup(sch, db, chain, b, hd, lp, facts);
    } else if IsReplay(chain, b) {
      ReplayedRollup(sch, db, chain, b, hd, lp, facts);
    } else {
      AppendedRollup(sch, db, chain, b, hd, lp, facts);
    }
  }

  // --- ErrDistributionInvariant ---

  lemma {:induction false} ExcludedNonNegative(ar: Archive, genesis: bool, ids: seq<TxId>, k: nat)
    requires RowsOk(ar) && k <= |ids|
    ensures ExcludedTotal(ar.txs, genesis, ids, k) >= 0
  {
    if k > 0 {
      ExcludedNonNegative(ar, genesis, ids, k - 1);
      if ids[k - 1] in ar.txs {
        assert TxRowOk(ar, ids[k - 1]);
        ExcludedOfNonNegative(ar.txs[ids[k - 1]].outputs, genesis, |ar.txs[ids[k - 1]].outputs|);
      }
    }
  }

  lemma BlockExcludedNonNegative(ar: Archive, h: Hash)
    requires ArchiveOk(ar)
    ensures BlockExcluded(ar, h) >= 0
  {
    ExcludedNonNegative(ar, HeightOf(ar, h) == 0, TxIdsOf(ar, h), |TxIdsOf(ar, h)|);
  }

  lemma ScheduledBefore(sch: SubsidySchedule, db: Database, chain: seq<Hash>, b: Block)
    requires Sound(sch) && Coherent(sch, db, chain) && Rooted(db, chain, b)
    requires chain != [] ==> b.height == db.checkpoint.height + 1
    ensures b.height == |chain| && ValueBefore(db, chain) <= SubsidySum(sch, |chain|)
  {
    hide Coherent, Ledgered;
    if chain != [] {
      TipHeight(sch, db, chain);
      CoherentIsLedgered(sch, db, chain);
      DerivedBelowSchedule(sch, db, chain, |chain|);
    }
  }

  /** A block that claims at most subsidy plus fees, on a chain that re-spends nothing,
      leaves no more than the scheduled supply unspent. */
  lemma AppendedFits(sch: SubsidySchedule, db: Database, chain: seq<Hash>, b: Block, hd: Header, lp: Loop, facts: BlockFacts)
    requires Sound(sch) && LoopDone(sch, db, chain, b, hd, lp) && Rooted(db, chain, b) && !IsReplay(chain, b)
    requires chain != [] ==> b.prev == chain[|chain| - 1] && b.height == db.checkpoint.height + 1
    requires FactsOfBlock(sch, b, lp.fee) == Ok(facts) && Residue(lp.ar, chain + [b.hash]) == 0
    ensures Unspent(lp.ar, lp.coins) <= SubsidySum(sch, |chain| + 1) <= MAX_INT64
  {
    hide Coherent, LoopInv, HeaderFacts, SlicesAgreeOff, FactsOfBlock, Residue, CoinbaseTotal, BlockFees, BlockExcluded, Unspent, ArchiveOk;
    NewBlockFacts(sch, db, chain, b, hd, lp, facts);
    UnspentAfter(sch, db, chain, b, hd, lp);
    OldChainSame(sch, db, chain, b, hd, lp);
    BlockExcludedNonNegative(lp.ar, b.hash);
    ScheduledBefore(sch, db, chain, b);
    SubsidyBound(sch, |chain| + 1);
  }

  lemma ReplayedFits(sch: SubsidySchedule, db: Database, chain: seq<Hash>, b: Block, hd: Header, lp: Loop)
    requires Sound(sch) && LoopDone(sch, db, chain, b, hd, lp) && GenesisRooted(db.ar, chain) && IsReplay(chain, b)
    ensures Unspent(lp.ar, lp.coins) <= MAX_INT64
  {
    hide ArchiveOk, ChainOk, CoinsOk, AccountingOk, RollupOk, CacheCoherent, BucketsCoherent, HeaderFacts, LoopTables, SlicesAgreeOff, Unspent;
    CoinsHold(sch, db, chain, b, hd, lp);
    OldChainSame(sch, db, chain, b, hd, lp);
    SameChainCoins(db.ar, lp.ar, chain);
    UnspentAgrees(db.ar, lp.ar, chain);
    UnspentFits(sch, db, chain, |chain|);
    assert chain[..|chain|] == chain;
  }

  /** Claiming no more than it may on a chain that re-spends nothing, a block leaves no
      more unspent than an int64 holds. */
  lemma BlockFits(sch: SubsidySchedule, db: Database, chain: seq<Hash>, b: Block, hd: Header, lp: Loop)
    requires Sound(sch) && LoopDone(sch, db, chain, b, hd, lp) && Rooted(db, chain, b)
    requires !IsReplay(chain, b) && chain != [] ==> b.prev == chain[|chain| - 1] && b.height == db.checkpoint.height + 1
    requires |b.txs| > 0 && FactsOfBlock(sch, b, lp.fee).Ok? && Residue(lp.ar, NextChain(chain, b)) == 0
    ensures Unspent(lp.ar, lp.coins) <= MAX_INT64
  {
    hide LoopDone, FactsOfBlock, Residue, Unspent;
    if IsReplay(chain, b) {
      ReplayedFits(sch, db, chain, b, hd, lp);
    } else {
      AppendedFits(sch, db, chain, b, hd, lp, FactsOfBlock(sch, b, lp.fee).value);
    }
  }

  /** The buckets refuse only what does not fit an int64. */
  lemma BucketErrors(sch: SubsidySchedule, db: Database, chain: seq<Hash>, b: Block, hd: Header, lp: Loop,
                     addresses: map<Address, AddressRow>)
    requires Sound(sch) && LoopDone(sch, db, chain, b, hd, lp) && |db.buckets| == 8 && Unspent(lp.ar, lp.coins) <= MAX_INT64
    requires RefreshChecked(db.addresses, lp.ar, lp.coins, lp.touched) == Ok(addresses)
    ensures BucketsAfter(db.buckets, db.addresses, addresses).Ok?
  {
    hide ChainOk, AccountingOk, RollupOk, CacheCoherent, BucketsCoherent, HeaderFacts, LoopTables, SlicesAgreeOff, Unspent, BucketsAfter;
    hide Refresh, SliceFits, Backed, BlockRowOk;
    LoopSlices(sch, db, chain, b, hd, lp);
    RefreshCoherent(db.addresses, db.ar, db.coins, lp.ar, lp.coins, lp.touched);
    OldChainSame(sch, db, chain, b, hd, lp);
    CoinsBacked(lp.ar, lp.coins);
    BucketsAccept(db.buckets, db.addresses, addresses, lp.ar, lp.coins);
  }

  // --- no other stage raises them ---

  predicate Raises<T>(r: Result<T, Error>, errors: set<Error>) {
    r.Err? ==> r.error in errors
  }

  const SHAPE_ERRORS: set<Error> := {IncompleteBlock, InvalidTransactionShape, ImmutableConflict}
  const FEE_ERRORS: set<Error> := {NullPreviousOut, MissingPrevout, DoubleSpend, AmountOverflow, NegativeFee}
  const LOOP_ERRORS: set<Error> := FEE_ERRORS + {ImmutableConflict, DatabaseConstraint, RowVanished}
  const FACTS_ERRORS: set<Error> := {AmountOverflow, NegativeAmount, NegativeHeight, CoinbaseOverclaim}

  lemma {:induction false} InputCheckErrors(ins: seq<Input>, k: nat)
    requires k <= |ins|
    ensures Raises(CheckInputs(ins, k), SHAPE_ERRORS - {IncompleteBlock})
  {
    if k > 0 {
      InputCheckErrors(ins, k - 1);
    }
  }

  lemma {:induction false} OutputCheckErrors(outs: seq<Output>, k: nat)
    requires k <= |outs|
    ensures Raises(CheckOutputs(outs, k), SHAPE_ERRORS - {IncompleteBlock})
  {
    if k > 0 {
      OutputCheckErrors(outs, k - 1);
    }
  }

  lemma {:induction false} ShapeErrors(txs: seq<Transaction>, k: nat)
    requires k <= |txs|
    ensures Raises(CheckTransactions(txs, k), SHAPE_ERRORS - {IncompleteBlock})
  {
    if k > 0 {
      ShapeErrors(txs, k - 1);
      InputCheckErrors(txs[k - 1].inputs, |txs[k - 1].inputs|);
      OutputCheckErrors(txs[k - 1].outputs, |txs[k - 1].outputs|);
    }
  }

  lemma AdmitErrors(db: Database, b: Block)
    ensures Raises(CheckBlock(b), SHAPE_ERRORS)
    ensures Raises(Admit(db, b), SHAPE_ERRORS + {NonSequentialBlock, DatabaseConstraint})
  {
    ShapeErrors(b.txs, |b.txs|);
  }

  lemma {:induction false} SumErrors(ar: Archive, c: CoinSet, txid: TxId, ins: seq<Input>, outs: seq<OutBody>, k: nat)
    ensures k <= |ins| ==> Raises(InputSum(ar, c, txid, ins, k), FEE_ERRORS - {NegativeFee})
    ensures k <= |outs| ==> Raises(OutputSum(outs, k), {AmountOverflow})
  {
    if k > 0 {
      SumErrors(ar, c, txid, ins, outs, k - 1);
    }
  }

  lemma {:induction false} OutputErrors(s: OutStep, h: Hash, txid: TxId, outs: seq<Output>, genesis: bool, isNew: bool, k: nat)
    requires k <= |outs|
    ensures Raises(PersistOutputs(s, h, txid, outs, genesis, isNew, k), {ImmutableConflict})
  {
    if k > 0 {
      OutputErrors(s, h, txid, outs, genesis, isNew, k - 1);
    }
  }

  lemma {:induction false} MarkErrors(c: CoinSet, h: Hash, txid: TxId, ins: seq<Input>, k: nat)
    requires k <= |ins|
    ensures Raises(MarkInputs(c, h, txid, ins, k), {NullPreviousOut, RowVanished, DoubleSpend})
  {
    if k > 0 {
      MarkErrors(c, h, txid, ins, k - 1);
    }
  }

  lemma FeeErrors(ar: Archive, c: CoinSet, txn: Transaction)
    ensures Raises(TxFee(ar, c, txn), FEE_ERRORS)
  {
    SumErrors(ar, c, txn.txid, txn.inputs, Bodies(txn.outputs), |txn.inputs|);
    SumErrors(ar, c, txn.txid, txn.inputs, Bodies(txn.outputs), |txn.outputs|);
  }

  lemma TxErrors(ar: Archive, c: CoinSet, h: Hash, i: nat, txn: Transaction, genesis: bool)
    ensures Raises(ApplyTx(ar, c, h, i, txn, genesis), LOOP_ERRORS)
  {
    hide TxFee, MarkInputs, PersistOutputs;
    FeeErrors(ar, c, txn);
    if TxFee(ar, c, txn).Ok? {
      var p := Persist(ar, h, i, txn.txid, RowOf(txn, TxFee(ar, c, txn).value));
      if p.Ok? {
        var start, n := OutStep(p.value.outAddrs, c), |txn.outputs|;
        OutputErrors(start, h, txn.txid, txn.outputs, genesis, txn.txid !in ar.txs, n);
        var s := PersistOutputs(start, h, txn.txid, txn.outputs, genesis, txn.txid !in ar.txs, n);
        if s.Ok? {
          MarkErrors(s.value.coins, h, txn.txid, txn.inputs, |txn.inputs|);
        }
      }
    }
  }

  lemma {:induction false} LoopErrors(ar: Archive, c: CoinSet, b: Block, k: nat)
    requires k <= |b.txs|
    ensures Raises(ApplyTxs(ar, c, b, k), LOOP_ERRORS)
  {
    hide ApplyTx;
    if k > 0 {
      LoopErrors(ar, c, b, k - 1);
      var p := ApplyTxs(ar, c, b, k - 1);
      if p.Ok? {
        TxErrors(p.value.ar, p.value.coins, b.hash, k - 1, b.txs[k - 1], b.height == 0);
      }
    }
  }

  lemma FactsErrors(sch: SubsidySchedule, b: Block, fee: int64)
    requires Sound(sch) && |b.txs| > 0
    ensures Raises(FactsOfBlock(sch, b, fee), FACTS_ERRORS)
  {
    SumErrors(Archive(map[], map[], map[], map[]), map[], "", [], Bodies(b.txs[0].outputs), |b.txs[0].outputs|);
  }

  // --- ApplyBlock ---

  /** The tables the transaction loop left before the rest of ApplyBlock ran. */
  function TablesAfterLoop(db: Database, b: Block): Archive {
    var hd := Admit(db, b);
    if hd.Err? then db.ar
    else
      var lp := ApplyTxs(hd.value.ar, db.coins, b, |b.txs|);
      if lp.Err? then db.ar else lp.value.ar
  }

  function CoinsAfterLoop(db: Database, b: Block): CoinSet {
    var hd := Admit(db, b);
    if hd.Err? then db.coins
    else
      var lp := ApplyTxs(hd.value.ar, db.coins, b, |b.txs|);
      if lp.Err? then db.coins else lp.value.coins
  }

  function FeesAfterLoop(db: Database, b: Block): int64 {
    var hd := Admit(db, b);
    if hd.Err? then 0
    else
      var lp := ApplyTxs(hd.value.ar, db.coins, b, |b.txs|);
      if lp.Err? then 0 else lp.value.fee
  }

  lemma PublishErrors(sch: SubsidySchedule, db: Database, chain: seq<Hash>, b: Block, hd: Header, lp: Loop)
    requires Sound(sch) && LoopDone(sch, db, chain, b, hd, lp) && |db.buckets| == 8 && |b.txs| > 0
    requires !IsReplay(chain, b) && chain != [] ==> b.prev == chain[|chain| - 1] && b.height == db.checkpoint.height + 1
    ensures var r := Publish(sch, db, b, hd.canonical, lp);
            && r != Err(RollupParentMissing) && r != Err(NonSequentialBlock)
            && (r == Err(RollupInvariant) ==> 0 <= Unspent(lp.ar, lp.coins) < Residue(lp.ar, NextChain(chain, b)))
            && (r == Err(DistributionInvariant) ==> Unspent(lp.ar, lp.coins) > MAX_INT64)
            && (r == Err(DistributionInvariant) && Rooted(db, chain, b) && FactsOfBlock(sch, b, lp.fee).Ok? ==>
                  Residue(lp.ar, NextChain(chain, b)) != 0)
  {
    hide LoopDone, RefreshChecked, BucketsAfter, FactsOfBlock, ApplyRollup, Residue, Unspent, Rooted, NextChain;
    FactsErrors(sch, b, lp.fee);
    var addresses := RefreshChecked(db.addresses, lp.ar, lp.coins, lp.touched);
    RefreshErrors(db.addresses, lp.ar, lp.coins, lp.touched);
    if addresses.Ok? {
      BucketsOnlyError(db.buckets, db.addresses, addresses.value);
      var facts := FactsOfBlock(sch, b, lp.fee);
      if Unspent(lp.ar, lp.coins) <= MAX_INT64 {
        BucketErrors(sch, db, chain, b, hd, lp, addresses.value);
      }
      if facts.Ok? {
        if Rooted(db, chain, b) && Residue(lp.ar, NextChain(chain, b)) == 0 {
          BlockFits(sch, db, chain, b, hd, lp);
        }
        if InsertOrVerify(db.accounting, b.hash, facts.value).Ok? {
          RollupErrors(sch, db, chain, b, hd, lp, facts.value);
          RollupNotBuckets(lp.ar, hd.canonical, db.rollup, b, db.checkpoint, facts.value);
        }
      }
    }
  }

  lemma RollupNotBuckets(ar: Archive, canonical: set<Hash>, rollup: map<Hash, RollupRow>, b: Block, before: Checkpoint, facts: BlockFacts)
    ensures ApplyRollup(ar, canonical, rollup, b, before, facts) != Err(DistributionInvariant)
    ensures ApplyRollup(ar, canonical, rollup, b, before, facts) != Err(NonSequentialBlock)
  {
    ExcludedSumsErrors(b.txs, b.height == 0, |b.txs|);
  }

  lemma RefreshErrors(addresses: map<Address, AddressRow>, ar: Archive, c: CoinSet, touched: set<Address>)
    ensures Raises(RefreshChecked(addresses, ar, c, touched), {DatabaseConstraint})
  {
  }

  lemma BucketsOnlyError(b: seq<BucketRow>, m: map<Address, AddressRow>, n: map<Address, AddressRow>)
    requires |b| == 8
    ensures BucketsAfter(b, m, n).Err? ==> BucketsAfter(b, m, n).error == DistributionInvariant
  {
  }

  /** In a coherent store ErrRollupParentMissing cannot happen. ErrRollupInvariant needs
      more re-spent than is unspent. ErrDistributionInvariant needs more unspent than an
      int64 holds, which a genesis-rooted chain reaches only by re-spending, or for a block
      that claims more than subsidy plus fees. */
  lemma InvariantErrors(sch: SubsidySchedule, db: Database, chain: seq<Hash>, b: Block)
    requires Sound(sch) && Coherent(sch, db, chain) && |db.buckets| == 8
    ensures var r, ar, coins, next := ApplyBlock(sch, db, b), TablesAfterLoop(db, b), CoinsAfterLoop(db, b), NextChain(chain, b);
            && r != Err(RollupParentMissing)
            && (r == Err(NonSequentialBlock) ==> Admit(db, b) == Err(NonSequentialBlock))
            && (r == Err(RollupInvariant) ==> 0 <= Unspent(ar, coins) < Residue(ar, next))
            && (r == Err(DistributionInvariant) ==> Unspent(ar, coins) > MAX_INT64)
            && (r == Err(DistributionInvariant) && Rooted(db, chain, b) ==>
                  |b.txs| > 0 && (FactsOfBlock(sch, b, FeesAfterLoop(db, b)).Ok? ==> Residue(ar, next) != 0))
  {
    hide Coherent, Admit, ApplyTxs, Publish, FactsOfBlock, LoopDone, Residue, Unspent, Rooted, NextChain, Admitted;
    AdmitErrors(db, b);
    var hd := Admit(db, b);
    if hd.Ok? {
      AdmitIff(db, b, hd.value);
      LoopErrors(hd.value.ar, db.coins, b, |b.txs|);
      var lp := ApplyTxs(hd.value.ar, db.coins, b, |b.txs|);
      if lp.Ok? {
        AdmittedHasTransactions(db, b, hd.value);
        LoopReached(sch, db, chain, b, hd.value, lp.value);
        PublishErrors(sch, db, chain, b, hd.value, lp.value);
      }
    }
  }

  lemma AdmittedHasTransactions(db: Database, b: Block, hd: Header)
    requires Admitted(db, b, hd)
    ensures |b.txs| > 0
  {
  }

  // --- exactly when ---

  /** The transaction loop's result, if b got that far. */
  function LoopOf(db: Database, b: Block): Result<Loop, Error> {
    var hd :- Admit(db, b);
    ApplyTxs(hd.ar, db.coins, b, |b.txs|)
  }

  /** b passed everything before the bucket update; its loop left lp, and the recomputed
      address rows are m. */
  ghost predicate AtBuckets(db: Database, b: Block, lp: Loop, m: map<Address, AddressRow>) {
    LoopOf(db, b) == Ok(lp) && RefreshChecked(db.addresses, lp.ar, lp.coins, lp.touched) == Ok(m)
  }

  /** b passed everything before the rollup. */
  ghost predicate AtRollup(sch: SubsidySchedule, db: Database, b: Block, lp: Loop, m: map<Address, AddressRow>, facts: BlockFacts)
    requires Sound(sch) && |db.buckets| == 8
  {
    && AtBuckets(db, b, lp, m)
    && BucketsAfter(db.buckets, db.addresses, m).Ok?
    && |b.txs| > 0 && FactsOfBlock(sch, b, lp.fee) == Ok(facts)
    && InsertOrVerify(db.accounting, b.hash, facts).Ok?
  }

  /** Some bucket of these rows, counted afresh, is negative as an int64. */
  ghost predicate SomeBucketNegative(m: map<Address, AddressRow>) {
    exists i :: 0 <= i < 8 && (Wrap(HistCount(m, i)) < 0 || Wrap(HistBalance(m, i)) < 0)
  }

  lemma NegativeIff(m: map<Address, AddressRow>)
    ensures SomeBucketNegative(m) <==> !(forall i :: 0 <= i < 8 ==> NonNegativeRow(Rescanned(m, i)))
  {
    hide HistCount, HistBalance, Wrap;
    forall i | 0 <= i < 8
      ensures NonNegativeRow(Rescanned(m, i)) <==> !(Wrap(HistCount(m, i)) < 0 || Wrap(HistBalance(m, i)) < 0)
    {
    }
  }

  lemma PublishErrorsIff(sch: SubsidySchedule, db: Database, chain: seq<Hash>, b: Block, hd: Header, lp: Loop)
    requires Sound(sch) && LoopDone(sch, db, chain, b, hd, lp) && |db.buckets| == 8 && |b.txs| > 0
    requires BucketsCoherent(db.buckets, db.addresses)
    requires !IsReplay(chain, b) && chain != [] ==> b.prev == chain[|chain| - 1] && b.height == db.checkpoint.height + 1
    ensures var r, m := Publish(sch, db, b, hd.canonical, lp), RefreshChecked(db.addresses, lp.ar, lp.coins, lp.touched);
            && (r == Err(DistributionInvariant) <==> m.Ok? && SomeBucketNegative(m.value))
            && (r == Err(RollupInvariant) <==>
                  && m.Ok? && BucketsAfter(db.buckets, db.addresses, m.value).Ok?
                  && FactsOfBlock(sch, b, lp.fee).Ok? && InsertOrVerify(db.accounting, b.hash, FactsOfBlock(sch, b, lp.fee).value).Ok?
                  && RollupFits(db, b, FactsOfBlock(sch, b, lp.fee).value) && RespentMore(db, chain, b, lp))
  {
    hide LoopDone, RefreshChecked, BucketsAfter, FactsOfBlock, ApplyRollup, RollupFits, RespentMore;
    hide SomeBucketNegative, BucketsCoherent, NonNegativeRow;
    FactsErrors(sch, b, lp.fee);
    var m := RefreshChecked(db.addresses, lp.ar, lp.coins, lp.touched);
    RefreshErrors(db.addresses, lp.ar, lp.coins, lp.touched);
    if m.Ok? {
      BucketsOnlyError(db.buckets, db.addresses, m.value);
      BucketsAfterIff(db.buckets, db.addresses, m.value);
      NegativeIff(m.value);
      var facts := FactsOfBlock(sch, b, lp.fee);
      if facts.Ok? && InsertOrVerify(db.accounting, b.hash, facts.value).Ok? {
        RollupErrors(sch, db, chain, b, hd, lp, facts.value);
        RollupNotBuckets(lp.ar, hd.canonical, db.rollup, b, db.checkpoint, facts.value);
      }
    }
  }

  lemma CoherentBuckets(sch: SubsidySchedule, db: Database, chain: seq<Hash>)
    requires Sound(sch) && Coherent(sch, db, chain)
    ensures BucketsCoherent(db.buckets, db.addresses)
  {
    hide ArchiveOk, ChainOk, CoinsOk, AccountingOk, RollupOk, CacheCoherent;
  }

  /** Exactly when the two errors that report a broken invariant are raised. The buckets
      refuse a block that passed everything before them, when the histogram of its
      recomputed address rows has a negative bucket as an int64. The rollup refuses a
      block that passed everything before it, when its checked sums all fit and it is
      appended to a chain counted from height 0 on which more has then been re-spent
      than is unspent. */
  lemma InvariantErrorsIff(sch: SubsidySchedule, db: Database, chain: seq<Hash>, b: Block)
    requires Sound(sch) && Coherent(sch, db, chain) && |db.buckets| == 8
    ensures ApplyBlock(sch, db, b) == Err(DistributionInvariant)
            <==> exists lp, m :: AtBuckets(db, b, lp, m) && SomeBucketNegative(m)
    ensures ApplyBlock(sch, db, b) == Err(RollupInvariant)
            <==> exists lp, m, facts ::
                   AtRollup(sch, db, b, lp, m, facts) && RollupFits(db, b, facts) && RespentMore(db, chain, b, lp)
  {
    hide Coherent, Admit, ApplyTxs, Publish, FactsOfBlock, LoopDone, RollupFits, RespentMore, SomeBucketNegative;
    hide Admitted, RefreshChecked, BucketsAfter, BucketsCoherent;
    AdmitErrors(db, b);
    CoherentBuckets(sch, db, chain);
    var hd := Admit(db, b);
    if hd.Ok? {
      AdmitIff(db, b, hd.value);
      LoopErrors(hd.value.ar, db.coins, b, |b.txs|);
      var loop := ApplyTxs(hd.value.ar, db.coins, b, |b.txs|);
      if loop.Ok? {
        var lp := loop.value;
        AdmittedHasTransactions(db, b, hd.value);
        LoopReached(sch, db, chain, b, hd.value, lp);
        PublishErrorsIff(sch, db, chain, b, hd.value, lp);
        var m := RefreshChecked(db.addresses, lp.ar, lp.coins, lp.touched);
        if m.Ok? {
          assert AtBuckets(db, b, lp, m.value);
          var facts := FactsOfBlock(sch, b, lp.fee);
          if BucketsAfter(db.buckets, db.addresses, m.value).Ok? && facts.Ok? && InsertOrVerify(db.accounting, b.hash, facts.value).Ok? {
            assert AtRollup(sch, db, b, lp, m.value, facts.value);
          }
        }
      }
    }
  }
}
