/** Exactly which blocks ApplyBlock accepts, said of the block and the tables alone. */
module Acceptance {
  import opened Wrappers
  import opened Errors
  import opened Int64
  import opened Chain
  import opened Tables
  import opened Accounting
  import opened Shape
  import opened Coins
  import opened TxSpec
  import opened TxFacts
  import opened Cache
  import opened Distribution
  import opened StoreSpec
  import opened Integrity
  import opened BlockLoop
  import opened Coherence
  import opened ApplyProof
  import opened ApplyCoherence
  import opened Determined
  import opened Prefixes
  import opened Recovery
  import opened InternalErrors
  import opened Rebuild
  import opened Republication
  import opened Originals
  import opened Promotion

  // --- admission ---

  ghost predicate InputShaped(inp: Input, j: nat) {
    inp.index == j && if inp.prev.None? then |inp.coinbase| > 0 && inp.scriptSig == [] else inp.coinbase == []
  }

  /** The declared number of transactions, at least one; each with inputs and outputs
      numbered from 0; the first of them, and only the first, with the single null prevout
      of a coinbase. */
  ghost predicate WellFormed(b: Block) {
    && 0 < |b.txs| == b.txCount
    && forall i :: 0 <= i < |b.txs| ==>
         var t := b.txs[i];
         && |t.inputs| > 0 && |t.outputs| > 0
         && (t.isCoinbase <==> i == 0) && (t.isCoinbase <==> |t.inputs| == 1 && t.inputs[0].prev == None)
         && (forall j :: 0 <= j < |t.inputs| ==> InputShaped(t.inputs[j], j))
         && (forall j :: 0 <= j < |t.outputs| ==> t.outputs[j].body.index == j)
  }

  lemma WellFormedIff(b: Block)
    ensures CheckBlock(b).Ok? <==> WellFormed(b)
  {
    forall i | 0 <= i < |b.txs|
      ensures CheckTransaction(b.txs[i], i).Ok?
              <==> var t := b.txs[i];
                   && |t.inputs| > 0 && |t.outputs| > 0
                   && (t.isCoinbase <==> i == 0) && (t.isCoinbase <==> |t.inputs| == 1 && t.inputs[0].prev == None)
                   && (forall j :: 0 <= j < |t.inputs| ==> InputShaped(t.inputs[j], j))
                   && (forall j :: 0 <= j < |t.outputs| ==> t.outputs[j].body.index == j)
    {
      forall j | 0 <= j < |b.txs[i].inputs|
        ensures CheckInput(b.txs[i].inputs[j], j).Ok? <==> InputShaped(b.txs[i].inputs[j], j)
      {
      }
    }
  }

  /** Anything on an empty store; otherwise the tip itself or a child of it. */
  ghost predicate InPlace(db: Database, b: Block) {
    || db.canonical == {}
    || (b.hash == db.checkpoint.hash && b.height == db.checkpoint.height)
    || (b.prev == db.checkpoint.hash && b.height == db.checkpoint.height + 1)
  }

  /** The block is stored with this very header, or its header can be stored. */
  ghost predicate HeaderFits(ar: Archive, b: Block) {
    if b.hash in ar.blocks then ar.blocks[b.hash] == BlockRow(b.height, b.prev, b.header, b.txCount)
    else
      && |b.hash| == 64 && (forall i :: 0 <= i < 64 ==> '0' <= b.hash[i] <= '9' || 'a' <= b.hash[i] <= 'f')
      && b.height >= 0
      && (b.prev == "" || b.prev == b.hash || b.prev in ar.blocks)
  }

  lemma HeightIsFree(sch: SubsidySchedule, db: Database, chain: seq<Hash>, b: Block)
    requires Sound(sch) && Coherent(sch, db, chain) && InPlace(db, b) && HeaderFits(db.ar, b)
    ensures b.hash !in db.canonical ==> !HeightTaken(db.ar, db.canonical, b.height)
    ensures db.canonical <= db.ar.blocks.Keys
  {
    hide ArchiveOk, ChainValid, CoinsOk, AccountingOk, RollupOk, CacheCoherent, BucketsCoherent, CoinsOf, WellFormedHash;
    if chain != [] {
      assert chain[|chain| - 1] in Elems(chain);
      forall h | h in db.canonical
        ensures HeightOf(db.ar, h) <= db.checkpoint.height
      {
        var i :| 0 <= i < |chain| && chain[i] == h;
      }
    }
  }

  lemma PlaceIff(sch: SubsidySchedule, db: Database, chain: seq<Hash>, b: Block)
    requires Sound(sch) && Coherent(sch, db, chain)
    ensures b.height >= 0 ==> (CheckContinuity(b, db.checkpoint).Ok? <==> InPlace(db, b))
    ensures CheckContinuity(b, db.checkpoint).Err? ==> CheckContinuity(b, db.checkpoint) == Err(NonSequentialBlock) && !InPlace(db, b)
  {
    hide ChainValid, CoinsOk, AccountingOk, RollupOk, CacheCoherent, BucketsCoherent, CoinsOf, RowsOk, BlockRowOk;
    if chain != [] {
      TipStored(db.ar, chain);
      assert chain[|chain| - 1] in Elems(chain);
    }
  }

  lemma StoredHeight(sch: SubsidySchedule, db: Database, chain: seq<Hash>, b: Block)
    requires Sound(sch) && Coherent(sch, db, chain) && HeaderFits(db.ar, b)
    ensures b.height >= 0
    ensures b.hash in db.ar.blocks ==> |TxIdsOf(db.ar, b.hash)| == b.txCount
  {
    hide ChainOk, CoinsOk, DerivedOk, AccountingOk, RollupOk, RowsOk;
    if b.hash in db.ar.blocks {
      assert BlockRowOk(db.ar, b.hash);
    }
  }

  lemma AdmittedFits(sch: SubsidySchedule, db: Database, chain: seq<Hash>, b: Block, hd: Header)
    requires Sound(sch) && Coherent(sch, db, chain) && Admit(db, b) == Ok(hd)
    ensures WellFormed(b) && InPlace(db, b) && HeaderFits(db.ar, b)
  {
    hide Coherent, CheckBlock, CheckContinuity, HeightTaken;
    WellFormedIff(b);
    assert HeaderFits(db.ar, b);
    StoredHeight(sch, db, chain, b);
    PlaceIff(sch, db, chain, b);
  }

  /** The tables with the block's header. */
  function WithHeader(ar: Archive, b: Block): Archive {
    ar.(blocks := ar.blocks[b.hash := BlockRow(b.height, b.prev, b.header, b.txCount)])
  }

  lemma FitsIsAdmitted(sch: SubsidySchedule, db: Database, chain: seq<Hash>, b: Block) returns (hd: Header)
    requires Sound(sch) && Coherent(sch, db, chain)
    requires WellFormed(b) && InPlace(db, b) && HeaderFits(db.ar, b)
    ensures Admit(db, b) == Ok(hd) && Admitted(db, b, hd) && hd.ar == WithHeader(db.ar, b)
  {
    hide Coherent, CheckBlock, CheckContinuity, HeightTaken, InPlace;
    WellFormedIff(b);
    StoredHeight(sch, db, chain, b);
    PlaceIff(sch, db, chain, b);
    HeightIsFree(sch, db, chain, b);
    HeaderIsAccepted(db, b);
    hd := ApplyHeader(db.ar, db.canonical, b).value;
    AdmitIff(db, b, hd);
  }

  lemma HeaderIsAccepted(db: Database, b: Block)
    requires HeaderFits(db.ar, b) && (b.hash !in db.canonical ==> !HeightTaken(db.ar, db.canonical, b.height))
    requires db.canonical <= db.ar.blocks.Keys
    ensures var r := ApplyHeader(db.ar, db.canonical, b);
            r.Ok? && r.value.ar == WithHeader(db.ar, b) && r.value.isNew == (b.hash !in db.ar.blocks)
  {
    hide HeightTaken;
    if b.hash in db.ar.blocks {
      assert db.ar.blocks[b.hash := db.ar.blocks[b.hash]] == db.ar.blocks;
    }
  }

  // --- the transactions ---

  /** The tables and the coins after the first k transactions, stored as these rows. */
  function TablesAt(ar: Archive, b: Block, rows: seq<TxRow>, k: nat): Archive
    requires k <= |b.txs| == |rows|
  {
    if k == 0 then ar else ArchiveAfter(TablesAt(ar, b, rows, k - 1), b.hash, k - 1, b.txs[k - 1], rows[k - 1])
  }

  function CoinsAt(c: CoinSet, b: Block, rows: seq<TxRow>, k: nat): CoinSet
    requires k <= |b.txs| == |rows|
  {
    if k == 0 then c else TxEffect(CoinsAt(c, b, rows, k - 1), b.hash, b.txs[k - 1].txid, rows[k - 1], b.height == 0)
  }

  function FeesAt(rows: seq<TxRow>, k: nat): int
    requires k <= |rows|
  {
    if k == 0 then 0 else FeesAt(rows, k - 1) + if rows[k - 1].fee.Some? then rows[k - 1].fee.value else 0
  }

  /** Each of the first k transactions is acceptable where it stands. */
  ghost predicate AllAcceptable(ar: Archive, c: CoinSet, b: Block, rows: seq<TxRow>, k: nat)
    requires k <= |b.txs|
  {
    && |rows| == |b.txs|
    && forall i :: 0 <= i < k ==>
         Acceptable(TablesAt(ar, b, rows, i), CoinsAt(c, b, rows, i), b.hash, i, b.txs[i], rows[i], b.height == 0)
  }

  lemma {:induction false} SameStart(ar: Archive, c: CoinSet, b: Block, rows: seq<TxRow>, rows': seq<TxRow>, k: nat)
    requires k <= |b.txs| == |rows| == |rows'| && rows[..k] == rows'[..k]
    ensures TablesAt(ar, b, rows, k) == TablesAt(ar, b, rows', k)
    ensures CoinsAt(c, b, rows, k) == CoinsAt(c, b, rows', k)
    ensures FeesAt(rows, k) == FeesAt(rows', k)
  {
    if k > 0 {
      assert rows[..k][..k - 1] == rows[..k - 1] && rows'[..k][..k - 1] == rows'[..k - 1];
      assert rows[..k][k - 1] == rows'[..k][k - 1];
      SameStart(ar, c, b, rows, rows', k - 1);
    }
  }

  /** What the loop left after k transactions. */
  ghost predicate LoopAt(ar: Archive, c: CoinSet, b: Block, rows: seq<TxRow>, k: nat, lp: Loop)
    requires k <= |b.txs| == |rows|
  {
    lp.ar == TablesAt(ar, b, rows, k) && lp.coins == CoinsAt(c, b, rows, k) && lp.fee == FeesAt(rows, k)
  }

  lemma {:induction false} LoopOnlyIf(ar: Archive, c: CoinSet, b: Block, k: nat, lp: Loop) returns (rows: seq<TxRow>)
    requires k <= |b.txs| && LoopStart(ar, c, b) && ApplyTxs(ar, c, b, k) == Ok(lp)
    ensures AllAcceptable(ar, c, b, rows, k) && LoopAt(ar, c, b, rows, k, lp)
  {
    hide ApplyTx, LoopStart, Acceptable, LoopInv, ArchiveAfter, TxEffect;
    if k == 0 {
      rows := seq(|b.txs|, i => TxRow("", false, None, [], []));
    } else {
      var before := LoopResumes(ar, c, b, k);
      var init := LoopOnlyIf(ar, c, b, k - 1, before);
      var row := NextRow(ar, c, b, k - 1, before, lp);
      rows := init[k - 1 := row];
      assert rows[..k - 1] == init[..k - 1];
      SameStart(ar, c, b, rows, init, k - 1);
      forall i | 0 <= i < k
        ensures Acceptable(TablesAt(ar, b, rows, i), CoinsAt(c, b, rows, i), b.hash, i, b.txs[i], rows[i], b.height == 0)
      {
        assert rows[..i] == init[..i];
        SameStart(ar, c, b, rows, init, i);
      }
    }
  }

  lemma NextRow(ar: Archive, c: CoinSet, b: Block, k: nat, lp: Loop, next: Loop) returns (row: TxRow)
    requires k < |b.txs| && LoopStart(ar, c, b) && ApplyTxs(ar, c, b, k) == Ok(lp) && ApplyTxs(ar, c, b, k + 1) == Ok(next)
    ensures Acceptable(lp.ar, lp.coins, b.hash, k, b.txs[k], row, b.height == 0)
    ensures next.ar == ArchiveAfter(lp.ar, b.hash, k, b.txs[k], row)
    ensures next.coins == TxEffect(lp.coins, b.hash, b.txs[k].txid, row, b.height == 0)
    ensures next.fee == lp.fee + (if row.fee.Some? then row.fee.value else 0)
  {
    hide ApplyTxs, LoopStart, Acceptable, ArchiveAfter, TxEffect, SlicesAgreeOff, RowsOk, CoinsOk, Grown, Occurred;
    hide StoredUpTo, BlockEffect, FeeTotal, ValidUpTo;
    LoopHolds(ar, c, b, k, lp);
    row := RoundOnlyIf(ar, c, b, k, lp, next);
  }

  lemma {:induction false} LoopIf(ar: Archive, c: CoinSet, b: Block, rows: seq<TxRow>, k: nat) returns (lp: Loop)
    requires k <= |b.txs| == |rows| && LoopStart(ar, c, b) && AllAcceptable(ar, c, b, rows, k) && FeesAt(rows, k) <= MAX_INT64
    ensures ApplyTxs(ar, c, b, k) == Ok(lp) && LoopAt(ar, c, b, rows, k, lp) && 0 <= FeesAt(rows, k)
  {
    hide ApplyTxs, ApplyTx, LoopStart, Acceptable, LoopInv, ArchiveAfter, TxEffect, RoundAt;
    if k == 0 {
      NoRoundYet(ar, c, b);
      lp := Loop(ar, c, 0, {});
    } else {
      FeeNotNegative(TablesAt(ar, b, rows, k - 1), CoinsAt(c, b, rows, k - 1), b, k - 1, rows[k - 1]);
      var before := LoopIf(ar, c, b, rows, k - 1);
      LoopHolds(ar, c, b, k - 1, before);
      var s := AcceptedRound(ar, c, b, k - 1, before, rows[k - 1]);
      NextRound(ar, c, b, k - 1, before, s);
      lp := ApplyTxs(ar, c, b, k).value;
    }
  }

  lemma FeeNotNegative(ar: Archive, c: CoinSet, b: Block, i: nat, row: TxRow)
    requires i < |b.txs| && Acceptable(ar, c, b.hash, i, b.txs[i], row, b.height == 0)
    ensures row.fee.Some? ==> row.fee.value >= 0
  {
  }

  lemma AcceptedRound(ar: Archive, c: CoinSet, b: Block, i: nat, lp: Loop, row: TxRow) returns (s: TxStep)
    requires i < |b.txs| && LoopInv(ar, c, b, i, lp)
    requires Acceptable(lp.ar, lp.coins, b.hash, i, b.txs[i], row, b.height == 0)
    requires 0 <= lp.fee + (if row.fee.Some? then row.fee.value else 0) <= MAX_INT64
    ensures RoundAt(b, i, lp, s)
    ensures s.ar == ArchiveAfter(lp.ar, b.hash, i, b.txs[i], row) && s.fee == row.fee
    ensures s.coins == TxEffect(lp.coins, b.hash, b.txs[i].txid, row, b.height == 0)
  {
    hide ApplyTx, LoopTables, SlicesAgreeOff, RowsOk, CoinsOk, ArchiveAfter, TxEffect, TouchedBy, Acceptable, BlockEffect, FeeTotal, ValidUpTo;
    BackedAt(ar, c, b, i, lp);
    ApplyTxIf(lp.ar, lp.coins, b.hash, i, b.txs[i], row, b.height == 0);
    ApplyTxOnlyIf(lp.ar, lp.coins, b.hash, i, b.txs[i], b.height == 0);
    SameRowOf(lp.ar, lp.coins, b, i, row);
    s := ApplyTx(lp.ar, lp.coins, b.hash, i, b.txs[i], b.height == 0).value;
  }

  lemma SameRowOf(ar: Archive, c: CoinSet, b: Block, i: nat, row: TxRow)
    requires i < |b.txs| && Acceptable(ar, c, b.hash, i, b.txs[i], row, b.height == 0)
    ensures row == RowOf(b.txs[i], row.fee)
  {
  }

  lemma BackedAt(ar: Archive, c: CoinSet, b: Block, i: nat, lp: Loop)
    requires i <= |b.txs| && LoopInv(ar, c, b, i, lp)
    ensures Backed(lp.ar, lp.coins) && forall x :: x in lp.ar.txs ==> NonNegativeOutputs(lp.ar.txs[x].outputs)
  {
    hide SlicesAgreeOff, CoinsOk, BlockEffect, FeeTotal, ValidUpTo, Grown, Occurred, StoredUpTo;
    RowsNonNegative(lp.ar);
    CoinsBacked(lp.ar, lp.coins);
  }

  // --- what is published ---

  /** The block's reward, and the rollup row it extends its parent's to. */
  ghost predicate RewardFits(sch: SubsidySchedule, db: Database, chain: seq<Hash>, b: Block, ar: Archive, fee: int)
    requires Sound(sch)
  {
    && b.height >= 0
    && var subsidy, paid := SubsidyAt(sch, b.height), CoinbaseTotal(ar, b.hash);
    && 0 <= paid <= subsidy + fee <= MAX_INT64 && 0 <= fee
    && (Rooted(db, chain, b) ==>
          && (b.height != 0 ==> b.prev in db.rollup)
          && var parent := if b.height == 0 then ZERO_ROLLUP else db.rollup[b.prev];
          && var facts := BlockFacts(subsidy, fee, paid, subsidy + fee - paid);
          exists row :: Extended(parent, BlockExcluded(ar, b.hash), facts, row))
  }

  /** Stored as these rows, b can be applied to db. */
  ghost predicate AcceptableAs(sch: SubsidySchedule, db: Database, chain: seq<Hash>, b: Block, rows: seq<TxRow>)
    requires Sound(sch)
  {
    var ar0, n := WithHeader(db.ar, b), |b.txs|;
    && AllAcceptable(ar0, db.coins, b, rows, n)
    && CoinsFit(TablesAt(ar0, b, rows, n), CoinsAt(db.coins, b, rows, n))
    && RewardFits(sch, db, chain, b, TablesAt(ar0, b, rows, n), FeesAt(rows, n))
  }

  lemma RewardOnlyIf(sch: SubsidySchedule, db: Database, chain: seq<Hash>, b: Block, hd: Header, lp: Loop, facts: BlockFacts, db': Database)
    requires Sound(sch) && |db.buckets| == 8 && Stages(sch, db, chain, b, hd, lp, facts, db')
    ensures RewardFits(sch, db, chain, b, lp.ar, lp.fee)
  {
    hide Coherent, Admitted, ApplyTxs, Published, LoopDone, FactsOfBlock, RefreshChecked, BucketsAfter, ApplyRollup, Rooted, Extended, BlockExcluded;
    AdmittedHasTransactions(db, b, hd);
    PublishedParts(sch, db, b, hd, lp, facts, db');
    NewFacts(sch, db, chain, b, hd, lp, facts);
    LoopBlocks(sch, db, chain, b, hd, lp);
    FeeIs(sch, db, chain, b, hd, lp);
    if Rooted(db, chain, b) {
      RowFound(sch, db, chain, b, hd, lp, facts, db'.rollup);
    }
  }

  lemma FeeIs(sch: SubsidySchedule, db: Database, chain: seq<Hash>, b: Block, hd: Header, lp: Loop)
    requires Sound(sch) && LoopDone(sch, db, chain, b, hd, lp)
    ensures lp.fee == BlockFees(lp.ar, b.hash)
  {
    hide Coherent, SlicesAgreeOff;
    OccurrencesComplete(hd.ar, b, lp.ar);
  }

  lemma PublishedParts(sch: SubsidySchedule, db: Database, b: Block, hd: Header, lp: Loop, facts: BlockFacts, db': Database)
    requires Sound(sch) && |db.buckets| == 8 && |b.txs| > 0 && Published(sch, db, b, hd.canonical, lp, facts, db')
    ensures FactsOfBlock(sch, b, lp.fee) == Ok(facts)
    ensures ApplyRollup(lp.ar, hd.canonical, db.rollup, b, db.checkpoint, facts) == Ok(db'.rollup)
    ensures db'.ar == lp.ar && db'.coins == lp.coins
  {
    hide RefreshChecked, BucketsAfter, FactsOfBlock, ApplyRollup;
  }

  lemma RowFound(sch: SubsidySchedule, db: Database, chain: seq<Hash>, b: Block, hd: Header, lp: Loop, facts: BlockFacts, rollup: map<Hash, RollupRow>)
    requires Sound(sch) && LoopDone(sch, db, chain, b, hd, lp) && Rooted(db, chain, b)
    requires !IsReplay(chain, b) && chain != [] ==> b.prev == chain[|chain| - 1] && b.height == db.checkpoint.height + 1
    requires ApplyRollup(lp.ar, hd.canonical, db.rollup, b, db.checkpoint, facts) == Ok(rollup)
    ensures b.height != 0 ==> b.prev in db.rollup
    ensures b.hash in rollup
    ensures Extended(if b.height == 0 then ZERO_ROLLUP else db.rollup[b.prev], BlockExcluded(lp.ar, b.hash), facts, rollup[b.hash])
  {
    hide LoopDone, ApplyRollup, Extended, BlockExcluded;
    RollupStepOf(sch, db, chain, b, hd, lp, facts, rollup);
    if b.height != 0 {
      ParentKept(sch, db, chain, b, hd, lp);
    }
  }

  lemma ParentKept(sch: SubsidySchedule, db: Database, chain: seq<Hash>, b: Block, hd: Header, lp: Loop)
    requires Sound(sch) && LoopDone(sch, db, chain, b, hd, lp) && Rooted(db, chain, b) && b.height != 0
    requires !IsReplay(chain, b) && chain != [] ==> b.prev == chain[|chain| - 1] && b.height == db.checkpoint.height + 1
    ensures b.prev in db.rollup
  {
    hide Coherent, HeaderFacts, LoopInv, SlicesAgreeOff;
    ParentHasRollup(sch, db, chain, b, hd);
  }

  // --- the other way ---

  lemma FactsAccepted(sch: SubsidySchedule, db: Database, chain: seq<Hash>, b: Block, hd: Header, lp: Loop) returns (facts: BlockFacts)
    requires Sound(sch) && LoopDone(sch, db, chain, b, hd, lp) && AsGiven(lp.ar, b)
    requires RewardFits(sch, db, chain, b, lp.ar, lp.fee)
    ensures |b.txs| > 0 && FactsOfBlock(sch, b, lp.fee) == Ok(facts) && FactsMatch(sch, lp.ar, b.hash, facts)
    ensures b.height >= 0 && facts.subsidy == SubsidyAt(sch, b.height) && facts.fee == lp.fee && facts.coinbase == CoinbaseTotal(lp.ar, b.hash)
    ensures facts.unclaimed == facts.subsidy + facts.fee - facts.coinbase
    ensures InsertOrVerify(db.accounting, b.hash, facts).Ok?
  {
    hide Coherent, LoopInv, SlicesAgreeOff, BlockFees, CoinbaseTotal, FactsOfBlock, Rooted, ArchiveOk, StoredUpTo, HeaderFacts;
    FeeIs(sch, db, chain, b, hd, lp);
    LoopBlocks(sch, db, chain, b, hd, lp);
    OldChainSame(sch, db, chain, b, hd, lp);
    var subsidy, paid := SubsidyAt(sch, b.height), CoinbaseTotal(lp.ar, b.hash);
    facts := BlockFacts(subsidy, lp.fee, paid, subsidy + lp.fee - paid);
    FactsAgain(sch, lp.ar, b.hash, facts);
    RebuiltIsGiven(lp.ar, b);
    FactsKept(sch, db, chain, b, hd, lp, facts);
  }

  lemma FactsKept(sch: SubsidySchedule, db: Database, chain: seq<Hash>, b: Block, hd: Header, lp: Loop, facts: BlockFacts)
    requires Sound(sch) && LoopDone(sch, db, chain, b, hd, lp) && FactsMatch(sch, lp.ar, b.hash, facts)
    ensures b.hash in db.accounting ==> db.accounting[b.hash] == facts
  {
    hide ChainOk, CoinsOk, DerivedOk, RollupOk, LoopInv, SlicesAgreeOff, FactsMatch, ArchiveOk;
    if b.hash in db.accounting {
      KeptBlock(sch, db, chain, b, hd, lp);
      FactsSame(sch, db.ar, lp.ar, b.hash, db.accounting[b.hash]);
      FactsDetermined(sch, lp.ar, b.hash, db.accounting[b.hash], facts);
    }
  }

  lemma KeptBlock(sch: SubsidySchedule, db: Database, chain: seq<Hash>, b: Block, hd: Header, lp: Loop)
    requires Sound(sch) && LoopDone(sch, db, chain, b, hd, lp) && b.hash in db.ar.blocks
    ensures SameBlock(db.ar, lp.ar, b.hash)
  {
    hide ChainOk, CoinsOk, DerivedOk, RollupOk, AccountingOk, LoopCoins, SlicesAgreeOff, SameBlock;
    StoredBlocksKept(db.ar, chain, b, hd, lp.ar);
  }

  lemma RollupAccepted(sch: SubsidySchedule, db: Database, chain: seq<Hash>, b: Block, hd: Header, lp: Loop, facts: BlockFacts)
    requires Sound(sch) && LoopDone(sch, db, chain, b, hd, lp) && AsGiven(lp.ar, b)
    requires !IsReplay(chain, b) && chain != [] ==> b.prev == chain[|chain| - 1] && b.height == db.checkpoint.height + 1
    requires RewardFits(sch, db, chain, b, lp.ar, lp.fee)
    requires facts.fee == lp.fee && facts.coinbase == CoinbaseTotal(lp.ar, b.hash)
    requires b.height >= 0 && facts.subsidy == SubsidyAt(sch, b.height)
    requires facts.unclaimed == facts.subsidy + facts.fee - facts.coinbase
    requires b.hash in db.accounting ==> db.accounting[b.hash] == facts
    ensures ApplyRollup(lp.ar, hd.canonical, db.rollup, b, db.checkpoint, facts).Ok?
  {
    hide LoopDone, Rooted, Extended, BlockExcluded, ExtendRollup, RollupChecks, ExcludedSums, CoinbaseTotal, AsGiven;
    hide ApplyRollup, RebuiltBlock, ArchiveOk;
    if Rooted(db, chain, b) {
      var parent := if b.height == 0 then ZERO_ROLLUP else db.rollup[b.prev];
      var row :| Extended(parent, BlockExcluded(lp.ar, b.hash), facts, row);
      LoopArchiveOk(sch, db, chain, b, hd, lp);
      RebuiltIsGiven(lp.ar, b);
      HeaderIsStored(lp.ar, b);
      ExcludedFits(lp.ar, b.hash, parent, facts, row);
      RowKept(sch, db, chain, b, hd, lp, facts, row);
      RowInserted(lp.ar, hd.canonical, db.rollup, b, db.checkpoint, facts, row);
    } else {
      UnrootedRollup(sch, db, chain, b, hd, lp, facts);
    }
  }

  lemma HeaderIsStored(ar: Archive, b: Block)
    requires AsGiven(ar, b)
    ensures b.hash in ar.blocks
  {
  }

  lemma RowInserted(ar: Archive, canonical: set<Hash>, rollup: map<Hash, RollupRow>, b: Block, before: Checkpoint, facts: BlockFacts, row: RollupRow)
    requires b.height != 0 ==> b.prev in rollup
    requires ExcludedSums(b.txs, b.height == 0, |b.txs|) == Ok(row.excluded)
    requires ExtendRollup(if b.height == 0 then ZERO_ROLLUP else rollup[b.prev], row.excluded, facts) == Ok(row) && RollupChecks(row)
    requires b.hash in rollup ==> rollup[b.hash] == row
    ensures ApplyRollup(ar, canonical, rollup, b, before, facts).Ok?
  {
    hide ExcludedSums, ExtendRollup, RollupChecks, GenesisRollupExists;
  }

  lemma LoopArchiveOk(sch: SubsidySchedule, db: Database, chain: seq<Hash>, b: Block, hd: Header, lp: Loop)
    requires Sound(sch) && LoopDone(sch, db, chain, b, hd, lp)
    ensures ArchiveOk(lp.ar)
  {
    hide LoopDone;
    OldChainSame(sch, db, chain, b, hd, lp);
  }

  lemma RowKept(sch: SubsidySchedule, db: Database, chain: seq<Hash>, b: Block, hd: Header, lp: Loop, facts: BlockFacts, row: RollupRow)
    requires Sound(sch) && LoopDone(sch, db, chain, b, hd, lp) && Rooted(db, chain, b)
    requires b.height != 0 ==> b.prev in db.rollup
    requires b.hash in db.accounting ==> db.accounting[b.hash] == facts
    requires Extended(if b.height == 0 then ZERO_ROLLUP else db.rollup[b.prev], BlockExcluded(lp.ar, b.hash), facts, row)
    ensures b.hash in db.rollup ==> db.rollup[b.hash] == row
  {
    hide ArchiveOk, ChainOk, CoinsOk, DerivedOk, LoopInv, SlicesAgreeOff, Extended, BlockExcluded, FactsMatch;
    if b.hash in db.rollup {
      assert RollupRowOk(db.ar, db.accounting, db.rollup, b.hash);
      KeptBlock(sch, db, chain, b, hd, lp);
      BlockExcludedSame(db.ar, lp.ar, b.hash);
      RowDetermined(if b.height == 0 then ZERO_ROLLUP else db.rollup[b.prev], BlockExcluded(lp.ar, b.hash), facts, row, db.rollup[b.hash]);
    }
  }

  lemma GivenAfterLoop(sch: SubsidySchedule, db: Database, chain: seq<Hash>, b: Block, hd: Header, lp: Loop)
    requires Sound(sch) && LoopDone(sch, db, chain, b, hd, lp) && Admitted(db, b, hd)
    requires ApplyTxs(hd.ar, db.coins, b, |b.txs|) == Ok(lp)
    ensures AsGiven(lp.ar, b)
  {
    hide Coherent, ApplyTxs, StoredUpTo, LoopCoins, DestinationsFrom, ArchiveOk;
    LoopAdds(sch, db, chain, b, hd, lp);
    BlockKeys(db.ar, chain, b, hd, lp.ar);
    LoopArchiveOk(sch, db, chain, b, hd, lp);
    KeysMatch(lp.ar);
  }

  lemma KeysMatch(ar: Archive)
    requires ArchiveOk(ar)
    ensures ar.blockTxs.Keys == ar.blocks.Keys
  {
  }

  lemma LoopFromRows(sch: SubsidySchedule, db: Database, chain: seq<Hash>, b: Block, hd: Header, rows: seq<TxRow>) returns (lp: Loop)
    requires Sound(sch) && Coherent(sch, db, chain) && Admitted(db, b, hd) && hd.ar == WithHeader(db.ar, b)
    requires AcceptableAs(sch, db, chain, b, rows)
    ensures ApplyTxs(hd.ar, db.coins, b, |b.txs|) == Ok(lp) && LoopDone(sch, db, chain, b, hd, lp)
    ensures LoopAt(hd.ar, db.coins, b, rows, |b.txs|, lp)
    ensures !IsReplay(chain, b) && chain != [] ==> b.prev == chain[|chain| - 1] && b.height == db.checkpoint.height + 1
  {
    hide Coherent, ApplyTxs, AllAcceptable, TablesAt, CoinsAt, FeesAt, LoopStart, LoopDone, CheckBlock, ApplyHeader;
    hide CheckContinuity, CoinsFit, HeaderFacts, Rooted, CoinbaseTotal;
    RowPerTransaction(WithHeader(db.ar, b), db.coins, b, rows);
    HeaderOf(sch, db, chain, b, hd);
    StartHolds(sch, db, chain, b, hd);
    lp := LoopIf(hd.ar, db.coins, b, rows, |b.txs|);
    LoopReached(sch, db, chain, b, hd, lp);
  }

  lemma RowPerTransaction(ar: Archive, c: CoinSet, b: Block, rows: seq<TxRow>)
    requires AllAcceptable(ar, c, b, rows, |b.txs|)
    ensures |rows| == |b.txs|
  {
  }

  lemma AcceptedAs(sch: SubsidySchedule, db: Database, chain: seq<Hash>, b: Block, rows: seq<TxRow>)
    requires Sound(sch) && Coherent(sch, db, chain) && |db.buckets| == 8
    requires WellFormed(b) && InPlace(db, b) && HeaderFits(db.ar, b) && AcceptableAs(sch, db, chain, b, rows)
    ensures ApplyBlock(sch, db, b).Ok?
  {
    hide Coherent, ApplyTxs, Admit, Admitted, FactsOfBlock, ApplyRollup, RefreshChecked, BucketsAfter, LoopDone;
    hide CoinsFit, Refresh, AsGiven, RewardFits, AllAcceptable, WellFormed, InPlace, HeaderFits, FactsMatch, Rooted;
    var hd := FitsIsAdmitted(sch, db, chain, b);
    var lp := LoopFromRows(sch, db, chain, b, hd, rows);
    GivenAfterLoop(sch, db, chain, b, hd, lp);
    CachesUpdate(sch, db, chain, b, hd, lp);
    var facts := FactsAccepted(sch, db, chain, b, hd, lp);
    RollupAccepted(sch, db, chain, b, hd, lp, facts);
  }

  lemma AcceptedOnlyAs(sch: SubsidySchedule, db: Database, chain: seq<Hash>, b: Block, db': Database) returns (rows: seq<TxRow>)
    requires Sound(sch) && Coherent(sch, db, chain) && |db.buckets| == 8 && ApplyBlock(sch, db, b) == Ok(db')
    ensures WellFormed(b) && InPlace(db, b) && HeaderFits(db.ar, b) && AcceptableAs(sch, db, chain, b, rows)
    ensures db'.ar == TablesAt(WithHeader(db.ar, b), b, rows, |b.txs|) && db'.coins == CoinsAt(db.coins, b, rows, |b.txs|)
  {
    hide Coherent, ApplyBlock, Admit, ApplyTxs, Published, LoopDone, CoinsFit, RewardFits, AllAcceptable, WellFormed;
    hide InPlace, HeaderFits, CheckBlock, ApplyHeader, CheckContinuity, LoopStart;
    var hd, lp, facts := ApplyReached(sch, db, chain, b, db');
    AdmitIff(db, b, hd);
    AdmittedFits(sch, db, chain, b, hd);
    HeaderOf(sch, db, chain, b, hd);
    HeaderTables(db.ar, chain, b, hd);
    StartHolds(sch, db, chain, b, hd);
    rows := LoopOnlyIf(hd.ar, db.coins, b, |b.txs|, lp);
    RewardOnlyIf(sch, db, chain, b, hd, lp, facts, db');
    PublishedParts(sch, db, b, hd, lp, facts, db');
    ApplyCoherent(sch, db, chain, b, db');
    FitsNow(sch, db', NextChain(chain, b));
  }

  lemma HeaderTables(ar: Archive, chain: seq<Hash>, b: Block, hd: Header)
    requires HeaderFacts(ar, chain, b, hd)
    ensures hd.ar == WithHeader(ar, b)
  {
  }

  /** ApplyBlock accepts a block if and only if it is well formed, stands on the tip (or is
      the tip, or the first block), its header is stored or can be, each transaction is
      acceptable to the tables and coins it meets, the caches of the coins it leaves fit,
      its coinbase pays at most subsidy plus fees within an int64, and, on a chain counted
      from height 0, a rollup row extends its parent's. (AcceptedOnlyAs says that the
      immutable tables and the coins are then what those rows make them.) */
  lemma AcceptedIff(sch: SubsidySchedule, db: Database, chain: seq<Hash>, b: Block)
    requires Sound(sch) && Coherent(sch, db, chain) && |db.buckets| == 8
    ensures ApplyBlock(sch, db, b).Ok?
            <==> WellFormed(b) && InPlace(db, b) && HeaderFits(db.ar, b) && exists rows :: AcceptableAs(sch, db, chain, b, rows)
  {
    hide Coherent, ApplyBlock, AcceptableAs, WellFormed, InPlace, HeaderFits, TablesAt, CoinsAt;
    if ApplyBlock(sch, db, b).Ok? {
      var rows := AcceptedOnlyAs(sch, db, chain, b, ApplyBlock(sch, db, b).value);
    }
    if WellFormed(b) && InPlace(db, b) && HeaderFits(db.ar, b) && exists rows :: AcceptableAs(sch, db, chain, b, rows) {
      var rows :| AcceptableAs(sch, db, chain, b, rows);
      AcceptedAs(sch, db, chain, b, rows);
    }
  }

  /** After any history. */
  lemma AcceptedInEveryHistory(sch: SubsidySchedule, ops: seq<Op>, b: Block) returns (chain: seq<Hash>)
    requires Sound(sch)
    ensures var db := Run(sch, ops);
            && Coherent(sch, db, chain)
            && (ApplyBlock(sch, db, b).Ok?
                <==> WellFormed(b) && InPlace(db, b) && HeaderFits(db.ar, b) && exists rows :: AcceptableAs(sch, db, chain, b, rows))
  {
    hide Coherent, ApplyBlock, Run, AcceptableAs, WellFormed, InPlace, HeaderFits;
    chain := RunCoherent(sch, ops);
    AcceptedIff(sch, Run(sch, ops), chain, b);
  }

  /** A block is refused for its place if and only if it is well formed, some block is
      canonical, and it is neither the tip nor, with Go's wrapping height, a child of it. */
  lemma NonSequentialIff(sch: SubsidySchedule, db: Database, chain: seq<Hash>, b: Block)
    requires Sound(sch) && Coherent(sch, db, chain) && |db.buckets| == 8
    ensures ApplyBlock(sch, db, b) == Err(NonSequentialBlock)
            <==> && WellFormed(b) && db.canonical != {}
                 && !(b.hash == db.checkpoint.hash && b.height == db.checkpoint.height)
                 && !(b.prev == db.checkpoint.hash && b.height == Wrap(db.checkpoint.height + 1))
  {
    hide Coherent, WellFormed, CheckBlock, ApplyHeader, ApplyTxs, Publish, TablesAfterLoop, CoinsAfterLoop;
    hide FeesAfterLoop, Rooted, FactsOfBlock, NextChain;
    WellFormedIff(b);
    AdmitErrors(db, b);
    InvariantErrors(sch, db, chain, b);
    SomeTip(sch, db, chain);
    NoSequenceInHeader(db, b);
  }

  lemma NoSequenceInHeader(db: Database, b: Block)
    ensures ApplyHeader(db.ar, db.canonical, b) != Err(NonSequentialBlock)
  {
  }

  lemma SomeTip(sch: SubsidySchedule, db: Database, chain: seq<Hash>)
    requires Sound(sch) && Coherent(sch, db, chain)
    ensures db.canonical == {} <==> db.checkpoint.hash == ""
  {
    hide ChainValid, CoinsOk, AccountingOk, RollupOk, CacheCoherent, BucketsCoherent, CoinsOf, RowsOk, BlockRowOk;
    if chain != [] {
      TipStored(db.ar, chain);
      assert chain[|chain| - 1] in Elems(chain);
    }
  }
}
