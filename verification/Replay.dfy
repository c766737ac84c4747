/** Applying a block again to the coin set it produced changes nothing. */
module Replay {
  import opened Wrappers
  import opened Chain
  import opened Tables
  import opened Coins
  import opened TxFacts
  import opened BlockLoop

  /** The transaction has nothing left to create or to spend. */
  ghost predicate Settled(c: CoinSet, txid: TxId, row: TxRow, genesis: bool) {
    && (forall i :: 0 <= i < |row.outputs| && !Excluded(row.outputs[i], genesis) ==> OutPoint(txid, i) in c)
    && (!row.isCoinbase ==>
          forall j :: 0 <= j < |row.inputs| && row.inputs[j].prev.Some? ==>
            row.inputs[j].prev.value in c && c[row.inputs[j].prev.value].spend.Some?)
  }

  lemma {:induction false} CreatesSettled(c: CoinSet, h: Hash, txid: TxId, row: TxRow, genesis: bool, k: nat)
    requires k <= |row.outputs| && Settled(c, txid, row, genesis)
    ensures Creates(c, h, txid, row.outputs, genesis, k) == c
  {
    if k > 0 {
      CreatesSettled(c, h, txid, row, genesis, k - 1);
    }
  }

  lemma {:induction false} SpendsSettled(c: CoinSet, h: Hash, txid: TxId, row: TxRow, genesis: bool, k: nat)
    requires k <= |row.inputs| && Settled(c, txid, row, genesis) && !row.isCoinbase
    ensures Spends(c, h, txid, row.inputs, k) == c
  {
    if k > 0 {
      SpendsSettled(c, h, txid, row, genesis, k - 1);
    }
  }

  lemma SettledNoEffect(c: CoinSet, h: Hash, txid: TxId, row: TxRow, genesis: bool)
    requires Settled(c, txid, row, genesis)
    ensures TxEffect(c, h, txid, row, genesis) == c
  {
    CreatesSettled(c, h, txid, row, genesis, |row.outputs|);
    if !row.isCoinbase {
      SpendsSettled(c, h, txid, row, genesis, |row.inputs|);
    }
  }

  lemma TxSettles(c: CoinSet, h: Hash, txid: TxId, row: TxRow, genesis: bool)
    requires TxValid(c, h, txid, row, genesis)
    ensures Settled(TxEffect(c, h, txid, row, genesis), txid, row, genesis)
  {
    var created := Creates(c, h, txid, row.outputs, genesis, |row.outputs|);
    CreatesShape(c, h, txid, row.outputs, genesis, |row.outputs|);
    if !row.isCoinbase {
      SpendableAfterCreates(c, h, txid, row, genesis);
      SpendsShape(created, h, txid, row.inputs, |row.inputs|);
      forall j | 0 <= j < |row.inputs| && row.inputs[j].prev.Some?
        ensures row.inputs[j].prev.value in created
      {
        assert Spendable(created, row.inputs[j].prev.value, txid, j);
      }
    }
  }

  /** c' has all of c's coins, and at least the same ones spent. */
  ghost predicate CoinsGrow(c: CoinSet, c': CoinSet) {
    forall op :: op in c ==> op in c' && c'[op].creation == c[op].creation && (c[op].spend.Some? ==> c'[op] == c[op])
  }

  lemma TxEffectGrows(c: CoinSet, h: Hash, txid: TxId, row: TxRow, genesis: bool)
    ensures CoinsGrow(c, TxEffect(c, h, txid, row, genesis))
  {
    CreatesShape(c, h, txid, row.outputs, genesis, |row.outputs|);
    SpendsShape(Creates(c, h, txid, row.outputs, genesis, |row.outputs|), h, txid, row.inputs, |row.inputs|);
  }

  lemma {:induction false} BlockEffectGrows(txs: map<TxId, TxRow>, c: CoinSet, h: Hash, genesis: bool, ids: seq<TxId>, i: nat, k: nat)
    requires i <= k <= |ids|
    ensures CoinsGrow(BlockEffect(txs, c, h, genesis, ids, i), BlockEffect(txs, c, h, genesis, ids, k))
  {
    if i < k {
      BlockEffectGrows(txs, c, h, genesis, ids, i, k - 1);
      if ids[k - 1] in txs {
        TxEffectGrows(BlockEffect(txs, c, h, genesis, ids, k - 1), h, ids[k - 1], txs[ids[k - 1]], genesis);
      }
    }
  }

  lemma SettledStays(c: CoinSet, c': CoinSet, txid: TxId, row: TxRow, genesis: bool)
    requires Settled(c, txid, row, genesis) && CoinsGrow(c, c')
    ensures Settled(c', txid, row, genesis)
  {
  }

  lemma BlockSettles(txs: map<TxId, TxRow>, c: CoinSet, h: Hash, genesis: bool, ids: seq<TxId>, i: nat)
    requires i < |ids| && ValidUpTo(txs, c, h, genesis, ids, |ids|)
    ensures ids[i] in txs
    ensures Settled(BlockEffect(txs, c, h, genesis, ids, |ids|), ids[i], txs[ids[i]], genesis)
  {
    assert ValidAt(txs, c, h, genesis, ids, i);
    var before := BlockEffect(txs, c, h, genesis, ids, i);
    TxSettles(before, h, ids[i], txs[ids[i]], genesis);
    BlockEffectGrows(txs, c, h, genesis, ids, i + 1, |ids|);
    SettledStays(BlockEffect(txs, c, h, genesis, ids, i + 1), BlockEffect(txs, c, h, genesis, ids, |ids|), ids[i], txs[ids[i]], genesis);
  }

  /** Replaying any prefix of a valid block over its own result is a no-op. */
  lemma {:induction false} ReplayNoEffect(txs: map<TxId, TxRow>, c: CoinSet, h: Hash, genesis: bool, ids: seq<TxId>, k: nat)
    requires k <= |ids| && ValidUpTo(txs, c, h, genesis, ids, |ids|)
    ensures BlockEffect(txs, BlockEffect(txs, c, h, genesis, ids, |ids|), h, genesis, ids, k)
            == BlockEffect(txs, c, h, genesis, ids, |ids|)
  {
    if k > 0 {
      ReplayNoEffect(txs, c, h, genesis, ids, k - 1);
      BlockSettles(txs, c, h, genesis, ids, k - 1);
      SettledNoEffect(BlockEffect(txs, c, h, genesis, ids, |ids|), h, ids[k - 1], txs[ids[k - 1]], genesis);
    }
  }
}
