/** ApplyBlock's transaction loop accepts every block of a coherent store's canonical
    chain again, on a store that holds exactly the blocks before it. */
module Reapply {
  import opened Wrappers
  import opened Int64
  import opened Chain
  import opened Tables
  import opened Coins
  import opened TxSpec
  import opened TxFacts
  import opened Cache
  import opened Integrity
  import opened BlockLoop
  import opened Coherence
  import opened Rebuild

  /** What the reference store says about the block at chain[k], and the starting
      point: the coins before that block, and tables that copy the reference's. */
  ghost predicate Resuming(ref: Archive, c0: CoinSet, h: Hash, ar0: Archive) {
    && ArchiveOk(ref) && h in ref.blocks
    && BlockValid(ref, c0, h)
    && 0 <= FeeTotal(ref.txs, TxIdsOf(ref, h), |TxIdsOf(ref, h)|) <= MAX_INT64
    && LoopStart(ar0, c0, RebuiltBlock(ref, h)) && TxIdsOf(ar0, h) == []
    && Copy(ar0, ref)
  }

  lemma RebuiltIds(ref: Archive, h: Hash)
    requires h in ref.blocks
    ensures Ids(RebuiltBlock(ref, h).txs) == TxIdsOf(ref, h)
  {
  }

  lemma FeeNonNegative(ref: Archive, h: Hash, i: nat)
    requires ArchiveOk(ref) && h in ref.blocks && i < |TxIdsOf(ref, h)|
    ensures FeeOf(ref.txs, TxIdsOf(ref, h)[i]) >= 0
  {
    assert BlockRowOk(ref, h);
    assert TxRowOk(ref, TxIdsOf(ref, h)[i]);
  }

  lemma {:induction false} FeesMonotone(ref: Archive, h: Hash, i: nat, k: nat)
    requires ArchiveOk(ref) && h in ref.blocks && i <= k <= |TxIdsOf(ref, h)|
    ensures 0 <= FeeTotal(ref.txs, TxIdsOf(ref, h), i) <= FeeTotal(ref.txs, TxIdsOf(ref, h), k)
  {
    hide ArchiveOk;
    if k > 0 {
      FeeNonNegative(ref, h, k - 1);
      if i < k {
        FeesMonotone(ref, h, i, k - 1);
      } else {
        FeesMonotone(ref, h, k - 1, k - 1);
      }
    }
  }

  /** The i-th transaction meets the same coins as it did in the reference store. */
  lemma SiteValid(ref: Archive, c0: CoinSet, h: Hash, ar0: Archive, i: nat, lp: Loop)
    requires Resuming(ref, c0, h, ar0) && i < |TxIdsOf(ref, h)|
    requires LoopInv(ar0, c0, RebuiltBlock(ref, h), i, lp) && Copy(lp.ar, ref)
    ensures var x := TxIdsOf(ref, h)[i];
            && x in ref.txs
            && TxValid(lp.coins, h, x, ref.txs[x], HeightOf(ref, h) == 0)
            && OccurOk(lp.ar, h, i, x)
    ensures lp.fee == FeeTotal(ref.txs, TxIdsOf(ref, h), i)
  {
    hide RowsOk, CoinsOk, SlicesAgreeOff, StoredUpTo, BlockRowOk, TxValid, LoopStart, Grown, DistinctUpTo;
    var b, ids, genesis := RebuiltBlock(ref, h), TxIdsOf(ref, h), HeightOf(ref, h) == 0;
    RebuiltIds(ref, h);
    PrefixRowsSame(ar0, b, i, lp.ar, ref.txs);
    BlockEffectSame(lp.ar.txs, ref.txs, c0, h, genesis, ids, i);
    FeeTotalSame(lp.ar.txs, ref.txs, ids, i);
    assert ValidAt(ref.txs, c0, h, genesis, ids, i);
    NotYetOccurred(ref, h, i);
  }

  lemma NotYetOccurred(ref: Archive, h: Hash, i: nat)
    requires ArchiveOk(ref) && h in ref.blocks && i < |TxIdsOf(ref, h)|
    ensures TxIdsOf(ref, h)[i] !in TxIdsOf(ref, h)[..i]
  {
    assert BlockRowOk(ref, h);
  }

  lemma TxReapplied(ref: Archive, ar: Archive, c: CoinSet, h: Hash, i: nat, x: TxId, genesis: bool)
    requires RowsOk(ref) && RowsOk(ar) && CoinsOk(ar, c) && Copy(ar, ref) && x in ref.txs
    requires TxValid(c, h, x, ref.txs[x], genesis) && OccurOk(ar, h, i, x)
    ensures var s := ApplyTx(ar, c, h, i, RebuiltTx(ref, x), genesis);
            s.Ok? && Copy(s.value.ar, ref) && s.value.fee == ref.txs[x].fee
  {
    hide ApplyTx, RowsOk, CoinsOk, Copy, TxValid, OccurOk, Acceptable, TxEffect, TouchedBy;
    RebuiltAcceptable(ref, ar, c, h, i, x, genesis);
    RowsNonNegative(ar);
    CoinsBacked(ar, c);
    ApplyTxIf(ar, c, h, i, RebuiltTx(ref, x), ref.txs[x], genesis);
    ApplyTxOnlyIf(ar, c, h, i, RebuiltTx(ref, x), genesis);
    RowOfRebuilt(ref, x);
    StaysCopy(ref, ar, h, i, x);
  }

  lemma RowOfRebuilt(ref: Archive, x: TxId)
    requires x in ref.txs
    ensures RowOf(RebuiltTx(ref, x), ref.txs[x].fee) == ref.txs[x]
  {
  }

  lemma FeeStepFits(ref: Archive, h: Hash, i: nat)
    requires ArchiveOk(ref) && h in ref.blocks && i < |TxIdsOf(ref, h)|
    requires FeeTotal(ref.txs, TxIdsOf(ref, h), |TxIdsOf(ref, h)|) <= MAX_INT64
    ensures InRange(FeeTotal(ref.txs, TxIdsOf(ref, h), i) + FeeOf(ref.txs, TxIdsOf(ref, h)[i]))
  {
    hide ArchiveOk;
    FeesMonotone(ref, h, i + 1, |TxIdsOf(ref, h)|);
  }

  lemma RoundAccepted(ref: Archive, c0: CoinSet, h: Hash, ar0: Archive, i: nat, lp: Loop)
    requires Resuming(ref, c0, h, ar0) && i < |TxIdsOf(ref, h)|
    requires LoopInv(ar0, c0, RebuiltBlock(ref, h), i, lp) && Copy(lp.ar, ref)
    ensures var s := ApplyTx(lp.ar, lp.coins, h, i, RebuiltTx(ref, TxIdsOf(ref, h)[i]), HeightOf(ref, h) == 0);
            && s.Ok?
            && Copy(s.value.ar, ref)
            && InRange(lp.fee + if s.value.fee.Some? then s.value.fee.value else 0)
  {
    hide ApplyTx, RowsOk, CoinsOk, SlicesAgreeOff, StoredUpTo, BlockRowOk, LoopStart, Grown, DistinctUpTo, Occurred, ValidUpTo;
    hide BlockEffect, TxValid, OccurOk, Copy, FeeTotal;
    SiteValid(ref, c0, h, ar0, i, lp);
    TxReapplied(ref, lp.ar, lp.coins, h, i, TxIdsOf(ref, h)[i], HeightOf(ref, h) == 0);
    FeeStepFits(ref, h, i);
  }

  /** The loop runs to its end. */
  lemma {:induction false} LoopAccepted(ref: Archive, c0: CoinSet, h: Hash, ar0: Archive, i: nat)
    requires Resuming(ref, c0, h, ar0) && i <= |TxIdsOf(ref, h)|
    ensures var r := ApplyTxs(ar0, c0, RebuiltBlock(ref, h), i);
            r.Ok? && Copy(r.value.ar, ref)
  {
    hide ApplyTx, LoopStart, Copy, LoopInv, ArchiveOk, BlockValid, FeeTotal;
    if i > 0 {
      LoopAccepted(ref, c0, h, ar0, i - 1);
      var lp := ApplyTxs(ar0, c0, RebuiltBlock(ref, h), i - 1).value;
      LoopHolds(ar0, c0, RebuiltBlock(ref, h), i - 1, lp);
      RoundAccepted(ref, c0, h, ar0, i - 1, lp);
    }
  }
}
