/** A block that is already stored is accepted again: the tip as a replay, an orphan of the
    tip as a promotion. Undoing a run of blocks and offering it again restores the store. */
module Promotion {
  import opened Wrappers
  import opened Int64
  import opened Chain
  import opened Tables
  import opened Accounting
  import opened Shape
  import opened Coins
  import opened TxSpec
  import opened TxFacts
  import opened Cache
  import opened Distribution
  import opened StoreSpec
  import opened Integrity
  import opened BlockLoop
  import opened Replay
  import opened Coherence
  import opened ApplyProof
  import opened ApplyCoherence
  import opened Prefixes
  import opened Lifecycle
  import opened Rebuild
  import opened Reapply
  import opened Readmission
  import opened Republication
  import opened Originals
  import opened Branches

  // --- the transactions of a stored block ---

  lemma StoredAcceptable(ar: Archive, c: CoinSet, h: Hash, i: nat, txn: Transaction, genesis: bool)
    requires RowsOk(ar) && Stored(ar, txn) && i < |TxIdsOf(ar, h)| && TxIdsOf(ar, h)[i] == txn.txid
    requires TxValid(c, h, txn.txid, ar.txs[txn.txid], genesis)
    ensures Acceptable(ar, c, h, i, txn, ar.txs[txn.txid], genesis)
  {
    hide TxValid, FeeOk;
    assert TxRowOk(ar, txn.txid);
    forall v | 0 <= v < |txn.outputs|
      ensures AddressFits(ar.outAddrs, OutPoint(txn.txid, v), txn.outputs[v].address, false)
    {
      assert AddressStored(ar.outAddrs, OutPoint(txn.txid, v), txn.outputs[v].address);
    }
  }

  lemma {:induction false} NothingNamed(m: map<OutPoint, Address>, txid: TxId, outs: seq<Output>, k: nat)
    requires k <= |outs| && forall v :: 0 <= v < |outs| ==> AddressStored(m, OutPoint(txid, v), outs[v].address)
    ensures AddressesAfter(m, txid, outs, k) == m
  {
    if k > 0 {
      NothingNamed(m, txid, outs, k - 1);
      assert AddressStored(m, OutPoint(txid, k - 1), outs[k - 1].address);
      assert outs[k - 1].address != "" ==> m[OutPoint(txid, k - 1) := outs[k - 1].address] == m;
    }
  }

  lemma NothingWritten(ar: Archive, h: Hash, i: nat, txn: Transaction)
    requires Stored(ar, txn) && i < |TxIdsOf(ar, h)|
    ensures ArchiveAfter(ar, h, i, txn, ar.txs[txn.txid]) == ar
  {
    NothingNamed(ar.outAddrs, txn.txid, txn.outputs, |txn.outputs|);
    assert ar.txs[txn.txid := ar.txs[txn.txid]] == ar.txs;
  }

  /** One stored transaction at its stored place: accepted, and only coins change. */
  lemma StoredTx(ar: Archive, c: CoinSet, h: Hash, i: nat, txn: Transaction, genesis: bool)
    requires RowsOk(ar) && CoinsOk(ar, c) && Stored(ar, txn) && i < |TxIdsOf(ar, h)| && TxIdsOf(ar, h)[i] == txn.txid
    requires TxValid(c, h, txn.txid, ar.txs[txn.txid], genesis)
    ensures var r, row := ApplyTx(ar, c, h, i, txn, genesis), ar.txs[txn.txid];
            r.Ok? && r.value.ar == ar && r.value.coins == TxEffect(c, h, txn.txid, row, genesis) && r.value.fee == row.fee
  {
    hide ApplyTx, RowsOk, CoinsOk, TxValid, Acceptable, TxEffect, TouchedBy, ArchiveAfter;
    RowsNonNegative(ar);
    CoinsBacked(ar, c);
    StoredAcceptable(ar, c, h, i, txn, genesis);
    ApplyTxIf(ar, c, h, i, txn, ar.txs[txn.txid], genesis);
    ApplyTxOnlyIf(ar, c, h, i, txn, genesis);
    NothingWritten(ar, h, i, txn);
    assert RowOf(txn, ar.txs[txn.txid].fee) == ar.txs[txn.txid];
  }

  /** What the loop over a stored block starts from. */
  ghost predicate Resumable(ar: Archive, c: CoinSet, b: Block) {
    && ArchiveOk(ar) && CoinsOk(ar, c) && LoopStart(ar, c, b) && AsGiven(ar, b)
    && BlockValid(ar, c, b.hash)
    && BlockFees(ar, b.hash) <= MAX_INT64
  }

  lemma {:induction false} StoredLoop(ar: Archive, c: CoinSet, b: Block, k: nat)
    requires Resumable(ar, c, b) && k <= |b.txs|
    ensures var r, ids := ApplyTxs(ar, c, b, k), Ids(b.txs);
            && r.Ok? && r.value.ar == ar
            && r.value.coins == BlockEffect(ar.txs, c, b.hash, b.height == 0, ids, k)
            && r.value.fee == FeeTotal(ar.txs, ids, k)
  {
    hide ApplyTxs, ApplyTx, ArchiveOk, CoinsOk, LoopStart, LoopInv, BlockValid, BlockFees, Resumable, TxEffect, Occurred, RoundAt;
    if k > 0 {
      StoredLoop(ar, c, b, k - 1);
      var lp := ApplyTxs(ar, c, b, k - 1).value;
      HeldSoFar(ar, c, b, k - 1, lp);
      var s := StoredRound(ar, c, b, k - 1, lp);
      NextRound(ar, c, b, k - 1, lp, s);
    } else {
      NoRoundYet(ar, c, b);
    }
  }

  lemma NoRoundYet(ar: Archive, c: CoinSet, b: Block)
    ensures ApplyTxs(ar, c, b, 0) == Ok(Loop(ar, c, 0, {}))
  {
  }

  lemma HeldSoFar(ar: Archive, c: CoinSet, b: Block, k: nat, lp: Loop)
    requires Resumable(ar, c, b) && k <= |b.txs| && ApplyTxs(ar, c, b, k) == Ok(lp)
    ensures LoopInv(ar, c, b, k, lp)
  {
    hide ApplyTxs, ArchiveOk, CoinsOk, LoopStart, LoopInv, BlockValid, BlockFees, AsGiven;
    LoopHolds(ar, c, b, k, lp);
  }

  /** Round i of the loop, from lp, accepts its transaction. */
  ghost predicate RoundAt(b: Block, i: nat, lp: Loop, s: TxStep) {
    && i < |b.txs|
    && ApplyTx(lp.ar, lp.coins, b.hash, i, b.txs[i], b.height == 0) == Ok(s)
    && InRange(lp.fee + if s.fee.Some? then s.fee.value else 0)
  }

  lemma NextRound(ar: Archive, c: CoinSet, b: Block, i: nat, lp: Loop, s: TxStep)
    requires i < |b.txs| && ApplyTxs(ar, c, b, i) == Ok(lp) && RoundAt(b, i, lp, s)
    ensures ApplyTxs(ar, c, b, i + 1)
            == Ok(Loop(s.ar, s.coins, lp.fee + (if s.fee.Some? then s.fee.value else 0), lp.touched + s.touched))
  {
    hide ApplyTx;
  }

  lemma StoredRound(ar: Archive, c: CoinSet, b: Block, i: nat, lp: Loop) returns (s: TxStep)
    requires Resumable(ar, c, b) && i < |b.txs| && LoopInv(ar, c, b, i, lp)
    requires lp.ar == ar && lp.coins == BlockEffect(ar.txs, c, b.hash, b.height == 0, Ids(b.txs), i)
    requires lp.fee == FeeTotal(ar.txs, Ids(b.txs), i)
    ensures RoundAt(b, i, lp, s)
    ensures var x := b.txs[i].txid;
            && x in ar.txs && s.ar == ar && s.fee == ar.txs[x].fee
            && s.coins == TxEffect(lp.coins, b.hash, x, ar.txs[x], b.height == 0)
  {
    hide ApplyTx, RowsOk, BlockRowOk, CoinsOk, LoopStart, SlicesAgreeOff, TxValid, TxEffect, BlockEffect, Grown, FeeTotal, Occurred, DistinctUpTo;
    assert Stored(ar, b.txs[i]);
    assert ValidAt(ar.txs, c, b.hash, b.height == 0, Ids(b.txs), i);
    StoredTx(ar, lp.coins, b.hash, i, b.txs[i], b.height == 0);
    FeeStepFits(ar, b.hash, i);
    s := ApplyTx(lp.ar, lp.coins, b.hash, i, b.txs[i], b.height == 0).value;
  }

  // --- a block met again on its own result ---

  lemma ValidOnResult(txs: map<TxId, TxRow>, c: CoinSet, h: Hash, genesis: bool, ids: seq<TxId>, i: nat)
    requires i < |ids| && ValidUpTo(txs, c, h, genesis, ids, |ids|)
    ensures ids[i] in txs && TxValid(BlockEffect(txs, c, h, genesis, ids, |ids|), h, ids[i], txs[ids[i]], genesis)
  {
    hide TxEffect;
    assert ValidAt(txs, c, h, genesis, ids, i);
    var before, x, row := BlockEffect(txs, c, h, genesis, ids, i), ids[i], txs[ids[i]];
    ValidAfterItself(before, h, x, row, genesis);
    BlockEffectGrows(txs, c, h, genesis, ids, i + 1, |ids|);
    ValidStays(TxEffect(before, h, x, row, genesis), BlockEffect(txs, c, h, genesis, ids, |ids|), h, x, row, genesis);
  }

  /** Everything the transaction made or spent is there, by this block and this input. */
  ghost predicate Own(c: CoinSet, h: Hash, x: TxId, row: TxRow, genesis: bool) {
    && (forall v :: 0 <= v < |row.outputs| && !Excluded(row.outputs[v], genesis) ==>
          OutPoint(x, v) in c && c[OutPoint(x, v)].creation == h)
    && (!row.isCoinbase ==> PrevoutsDistinct(row.inputs, |row.inputs|) && forall j :: 0 <= j < |row.inputs| ==>
          && row.inputs[j].prev.Some? && row.inputs[j].prev.value in c && c[row.inputs[j].prev.value].spend.Some?
          && c[row.inputs[j].prev.value].spend.value.txid == x && c[row.inputs[j].prev.value].spend.value.vin == j)
  }

  lemma ValidAfterItself(c: CoinSet, h: Hash, x: TxId, row: TxRow, genesis: bool)
    requires TxValid(c, h, x, row, genesis)
    ensures Own(TxEffect(c, h, x, row, genesis), h, x, row, genesis)
  {
    var c' := TxEffect(c, h, x, row, genesis);
    TxSettles(c, h, x, row, genesis);
    forall v | 0 <= v < |row.outputs| && !Excluded(row.outputs[v], genesis)
      ensures OutPoint(x, v) in c' && c'[OutPoint(x, v)].creation == h
    {
      TxEffectCoin(c, h, x, row, genesis, OutPoint(x, v));
      assert CreatableAt(c, h, OutPoint(x, v), row.outputs[v], genesis);
    }
    if !row.isCoinbase {
      forall j | 0 <= j < |row.inputs|
        ensures row.inputs[j].prev.Some? && row.inputs[j].prev.value in c' && c'[row.inputs[j].prev.value].spend.Some?
        ensures c'[row.inputs[j].prev.value].spend.value.txid == x && c'[row.inputs[j].prev.value].spend.value.vin == j
      {
        TxSpends(c, h, x, row, genesis, j);
      }
    }
  }

  lemma ValidStays(c: CoinSet, c': CoinSet, h: Hash, x: TxId, row: TxRow, genesis: bool)
    requires Own(c, h, x, row, genesis) && CoinsGrow(c, c')
    ensures TxValid(c', h, x, row, genesis)
  {
  }

  lemma ReplayValid(ar: Archive, c: CoinSet, h: Hash)
    requires BlockValid(ar, c, h)
    ensures BlockValid(ar, AfterBlock(ar, c, h), h)
  {
    hide TxValid, BlockEffect;
    var ids, genesis, c' := TxIdsOf(ar, h), HeightOf(ar, h) == 0, AfterBlock(ar, c, h);
    forall i | 0 <= i < |ids|
      ensures ValidAt(ar.txs, c', h, genesis, ids, i)
    {
      ValidOnResult(ar.txs, c, h, genesis, ids, i);
      ReplayNoEffect(ar.txs, c, h, genesis, ids, i);
    }
  }

  // --- a stored block on its tip ---

  /** b is stored in full, and continues or replays the canonical chain. */
  ghost predicate Offerable(db: Database, chain: seq<Hash>, b: Block) {
    AsGiven(db.ar, b) && chain != [] && ChainOk(db.ar, NextChain(chain, b))
  }

  lemma OfferedPlace(sch: SubsidySchedule, db: Database, chain: seq<Hash>, b: Block)
    requires Sound(sch) && Coherent(sch, db, chain) && Offerable(db, chain, b)
    ensures b.height >= 0 && HeightOf(db.ar, b.hash) == b.height
    ensures IsReplay(chain, b) ==> b.hash in db.canonical && Checkpoint(b.height, b.hash) == db.checkpoint
    ensures !IsReplay(chain, b) ==> b.hash !in db.canonical && b.height == db.checkpoint.height + 1 && b.prev == db.checkpoint.hash
    ensures forall h :: h in db.canonical ==> HeightOf(db.ar, h) <= db.checkpoint.height
    ensures db.checkpoint.hash != ""
  {
    hide ChainValid, CoinsOk, AccountingOk, RollupOk, CacheCoherent, BucketsCoherent, RowsOk, StoredUpTo;
    assert BlockRowOk(db.ar, chain[|chain| - 1]) && BlockRowOk(db.ar, b.hash);
    var chain' := NextChain(chain, b);
    if !IsReplay(chain, b) {
      assert chain'[|chain|] == b.hash && chain'[|chain| - 1] == chain[|chain| - 1] && chain'[0] == chain[0];
    }
  }

  lemma OfferedHeader(sch: SubsidySchedule, db: Database, chain: seq<Hash>, b: Block) returns (hd: Header)
    requires Sound(sch) && Coherent(sch, db, chain) && Offerable(db, chain, b)
    ensures Admit(db, b) == Ok(hd) && Admitted(db, b, hd) && hd.ar == db.ar && !hd.isNew
  {
    hide Coherent, ChainOk, CheckBlock, StoredUpTo;
    OfferedPlace(sch, db, chain, b);
    OfferedShape(sch, db, chain, b);
    hd := Header(db.ar, if b.hash in db.canonical then db.canonical else db.canonical + {b.hash}, false);
    AdmitIff(db, b, hd);
  }

  lemma OfferedShape(sch: SubsidySchedule, db: Database, chain: seq<Hash>, b: Block)
    requires Sound(sch) && Coherent(sch, db, chain) && AsGiven(db.ar, b)
    ensures CheckBlock(b).Ok? && RebuiltBlock(db.ar, b.hash) == b && |b.txs| > 0 && ArchiveOk(db.ar)
  {
    hide ArchiveOk, ChainOk, CoinsOk, AccountingOk, RollupOk, DerivedOk, CheckTransactions;
    RebuiltIsGiven(db.ar, b);
    RebuiltShape(db.ar, b.hash);
  }

  lemma OfferedValid(sch: SubsidySchedule, db: Database, chain: seq<Hash>, b: Block)
    requires Sound(sch) && Coherent(sch, db, chain) && Offerable(db, chain, b)
    ensures BlockValid(db.ar, db.coins, b.hash)
  {
    hide ArchiveOk, Linked, CoinsOk, AccountingOk, RollupOk, CacheCoherent, BucketsCoherent, BlockValid, AsGiven;
    var n := |chain| - 1;
    if IsReplay(chain, b) {
      assert BlockValid(db.ar, CoinsOf(db.ar, chain[..n]), chain[n]);
      ReplayValid(db.ar, CoinsOf(db.ar, chain[..n]), chain[n]);
    } else {
      var next := chain + [b.hash];
      assert next[..|chain|] == chain && next[|chain|] == b.hash;
      assert BlockValid(db.ar, CoinsOf(db.ar, next[..|chain|]), next[|chain|]);
    }
  }

  lemma OfferedFacts(sch: SubsidySchedule, db: Database, chain: seq<Hash>, b: Block)
    requires Sound(sch) && Coherent(sch, db, chain) && AsGiven(db.ar, b)
    ensures |b.txs| > 0 && b.hash in db.accounting && BlockFees(db.ar, b.hash) <= MAX_INT64
    ensures FactsOfBlock(sch, b, BlockFees(db.ar, b.hash)) == Ok(db.accounting[b.hash])
  {
    hide ArchiveOk, ChainOk, CoinsOk, RollupOk, DerivedOk, CheckBlock, BlockFees, CoinbaseTotal, FactsOfBlock, StoredUpTo;
    OfferedShape(sch, db, chain, b);
    FactsAgain(sch, db.ar, b.hash, db.accounting[b.hash]);
  }

  lemma OfferedRollup(sch: SubsidySchedule, db: Database, chain: seq<Hash>, b: Block, canonical: set<Hash>)
    requires Sound(sch) && Coherent(sch, db, chain) && Offerable(db, chain, b) && b.hash in db.accounting
    ensures ApplyRollup(db.ar, canonical, db.rollup, b, db.checkpoint, db.accounting[b.hash]) == Ok(db.rollup)
  {
    hide ArchiveOk, ChainValid, CoinsOk, AccountingOk, DerivedOk, CheckBlock, StoredUpTo, Extended, ExtendRollup;
    hide RollupChecks, BlockExcluded, FactsMatch;
    OfferedShape(sch, db, chain, b);
    OfferedPlace(sch, db, chain, b);
    if GenesisRooted(db.ar, chain) {
      assert RollupRowOk(db.ar, db.accounting, db.rollup, b.hash);
      var parent := if b.height == 0 then ZERO_ROLLUP else db.rollup[b.prev];
      ExcludedFits(db.ar, b.hash, parent, db.accounting[b.hash], db.rollup[b.hash]);
    } else {
      AboveFirst(sch, db, chain, b);
    }
  }

  /** On a chain that starts above height 0 there is no rollup row to extend. */
  lemma AboveFirst(sch: SubsidySchedule, db: Database, chain: seq<Hash>, b: Block)
    requires Sound(sch) && Coherent(sch, db, chain) && Offerable(db, chain, b) && !GenesisRooted(db.ar, chain)
    ensures b.height > 0 && db.rollup == map[]
  {
    hide ChainValid, CoinsOk, AccountingOk, CacheCoherent, BucketsCoherent, RowsOk, StoredUpTo;
    assert BlockRowOk(db.ar, chain[0]);
    var next := NextChain(chain, b);
    assert next[0] == chain[0] && next[|next| - 1] == b.hash;
    assert db.ar.blocks[next[|next| - 1]].height == HeightOf(db.ar, chain[0]) + |next| - 1;
  }

  lemma OfferedLoop(sch: SubsidySchedule, db: Database, chain: seq<Hash>, b: Block, hd: Header) returns (lp: Loop)
    requires Sound(sch) && Coherent(sch, db, chain) && Offerable(db, chain, b)
    requires Admitted(db, b, hd) && hd.ar == db.ar && !hd.isNew
    ensures ApplyTxs(db.ar, db.coins, b, |b.txs|) == Ok(lp) && LoopDone(sch, db, chain, b, hd, lp)
    ensures lp.ar == db.ar && lp.coins == CoinsOf(db.ar, NextChain(chain, b)) && lp.fee == BlockFees(db.ar, b.hash)
  {
    hide ArchiveOk, ChainOk, CoinsOk, AccountingOk, RollupOk, DerivedOk, ApplyTxs, CheckBlock, BlockValid, LoopStart;
    hide StoredUpTo, FactsOfBlock, CoinsOf, ApplyHeader, CheckContinuity, LoopInv, HeaderFacts;
    OfferedValid(sch, db, chain, b);
    OfferedFacts(sch, db, chain, b);
    OfferedShape(sch, db, chain, b);
    HeaderOf(sch, db, chain, b, hd);
    StartHolds(sch, db, chain, b, hd);
    StoredLoop(db.ar, db.coins, b, |b.txs|);
    lp := ApplyTxs(db.ar, db.coins, b, |b.txs|).value;
    LoopReached(sch, db, chain, b, hd, lp);
    CoinsHold(sch, db, chain, b, hd, lp);
  }

  lemma HeaderOf(sch: SubsidySchedule, db: Database, chain: seq<Hash>, b: Block, hd: Header)
    requires Sound(sch) && Coherent(sch, db, chain) && Admitted(db, b, hd)
    ensures HeaderFacts(db.ar, chain, b, hd)
  {
    hide ArchiveOk, ChainValid, CoinsOk, AccountingOk, RollupOk, CacheCoherent, BucketsCoherent, CheckBlock, CheckContinuity, ApplyHeader, Linked;
    HeaderHolds(db, chain, b, hd);
  }

  lemma CachesUpdate(sch: SubsidySchedule, db: Database, chain: seq<Hash>, b: Block, hd: Header, lp: Loop)
    requires Sound(sch) && LoopDone(sch, db, chain, b, hd, lp) && |db.buckets| == 8 && CoinsFit(lp.ar, lp.coins)
    ensures var m := Refresh(db.addresses, lp.ar, lp.coins, lp.touched);
            RefreshChecked(db.addresses, lp.ar, lp.coins, lp.touched) == Ok(m) && BucketsAfter(db.buckets, db.addresses, m).Ok?
  {
    hide ArchiveOk, ChainOk, CoinsOk, AccountingOk, RollupOk, HeaderFacts, LoopTables, LoopCoins, SliceOf;
    hide BucketsAfter, BucketsCoherent, CheckBlock, Refresh;
    var p :| Publishable(p, lp.ar, lp.coins);
    forall a | a in lp.touched
      ensures SliceFits(SliceOf(lp.ar, lp.coins, a))
    {
      assert RowCoherent(p, lp.ar, lp.coins, a);
    }
    LoopSlices(sch, db, chain, b, hd, lp);
    RefreshCoherent(db.addresses, db.ar, db.coins, lp.ar, lp.coins, lp.touched);
    UpdateAccepted(db.buckets, db.addresses, Refresh(db.addresses, lp.ar, lp.coins, lp.touched), lp.ar, lp.coins);
  }

  /** A block stored in full that replays the tip, or has the tip for its parent, is
      accepted if and only if the chain it leads to fits; and then no immutable row, no
      accounting row and no rollup row is written. */
  lemma StoredAcceptedIff(sch: SubsidySchedule, db: Database, chain: seq<Hash>, b: Block)
    requires Sound(sch) && Coherent(sch, db, chain) && |db.buckets| == 8 && Offerable(db, chain, b)
    ensures ApplyBlock(sch, db, b).Ok? <==> CoinsFit(db.ar, CoinsOf(db.ar, NextChain(chain, b)))
    ensures ApplyBlock(sch, db, b).Ok? ==>
              var db' := ApplyBlock(sch, db, b).value;
              && Coherent(sch, db', NextChain(chain, b))
              && db'.ar == db.ar && db'.accounting == db.accounting && db'.rollup == db.rollup
  {
    hide Coherent, ApplyTxs, Admit, Admitted, FactsOfBlock, ApplyRollup, RefreshChecked, BucketsAfter, CoinsOf;
    hide LoopDone, Offerable, CoinsFit, BlockFees, Refresh;
    var hd := OfferedHeader(sch, db, chain, b);
    var lp := OfferedLoop(sch, db, chain, b, hd);
    GivenOf(db, chain, b);
    OfferedFacts(sch, db, chain, b);
    OfferedRollup(sch, db, chain, b, hd.canonical);
    if CoinsFit(lp.ar, lp.coins) {
      CachesUpdate(sch, db, chain, b, hd, lp);
    }
    if ApplyBlock(sch, db, b).Ok? {
      var db' := ApplyBlock(sch, db, b).value;
      ApplyCoherent(sch, db, chain, b, db');
      FitsNow(sch, db', NextChain(chain, b));
    }
  }

  lemma GivenOf(db: Database, chain: seq<Hash>, b: Block)
    requires Offerable(db, chain, b)
    ensures AsGiven(db.ar, b)
  {
  }

  lemma FitsNow(sch: SubsidySchedule, db: Database, chain: seq<Hash>)
    requires Sound(sch) && Coherent(sch, db, chain)
    ensures db.coins == CoinsOf(db.ar, chain) && CoinsFit(db.ar, db.coins)
  {
    hide ArchiveOk, ChainOk, CoinsOk, AccountingOk, RollupOk, CacheCoherent, BucketsCoherent, CoinsOf, CoinsFit;
    AcceptedFits(db.buckets, db.addresses, db.ar, db.coins);
  }

  /** An orphan of the tip, offered as it is stored, becomes the tip: it is refused only if
      the caches of the longer chain do not fit. */
  lemma OrphanPromoted(sch: SubsidySchedule, db: Database, chain: seq<Hash>, b: Block)
    requires Sound(sch) && Coherent(sch, db, chain) && |db.buckets| == 8 && BranchesOk(db.ar)
    requires AsGiven(db.ar, b) && b.hash !in chain && chain != [] && b.prev == db.checkpoint.hash
    ensures ApplyBlock(sch, db, b).Ok? <==> CoinsFit(db.ar, CoinsOf(db.ar, chain + [b.hash]))
    ensures ApplyBlock(sch, db, b).Ok? ==>
              var db' := ApplyBlock(sch, db, b).value;
              && Coherent(sch, db', chain + [b.hash])
              && db'.ar == db.ar && db'.accounting == db.accounting && db'.rollup == db.rollup
  {
    hide ArchiveOk, ChainOk, CoinsOk, AccountingOk, RollupOk, CacheCoherent, BucketsCoherent, BranchesOk, StoredUpTo, ApplyBlock, CoinsOf, CoinsFit;
    BranchContinues(db.ar, chain, b.hash);
    StoredAcceptedIff(sch, db, chain, b);
  }
}
