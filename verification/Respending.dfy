/** When a chain re-spends: exactly when a transaction with inputs of positive value
    occurs in two of its blocks. */
module Respending {
  import opened Wrappers
  import opened Chain
  import opened Tables
  import opened Coins
  import opened TxFacts
  import opened Integrity
  import opened BlockLoop
  import opened Replay
  import opened Coherence
  import opened RollbackProof
  import opened Conservation

  // --- what a coin's spender tells about the chain ---

  lemma PrefixCoinsOk(ar: Archive, chain: seq<Hash>, k: nat)
    requires Linked(ar, chain) && CoinsOk(ar, CoinsOf(ar, chain)) && k <= |chain|
    ensures CoinsOk(ar, CoinsOf(ar, chain[..k]))
  {
    LinkedDistinct(ar, chain);
    UndoIsPrefix(ar, chain, k);
    UndoCoinsOk(ar, CoinsOf(ar, chain), Elems(chain[k..]));
  }

  /** A spend recorded for this block was made by one of its earlier transactions. */
  lemma {:induction false} SpentInBlock(
    txs: map<TxId, TxRow>, c: CoinSet, h: Hash, genesis: bool, ids: seq<TxId>, i: nat, op: OutPoint)
    requires i <= |ids| && op in BlockEffect(txs, c, h, genesis, ids, i)
    requires var sp := BlockEffect(txs, c, h, genesis, ids, i)[op].spend; sp.Some? && sp.value.block == h
    requires !Mentions(c, h)
    ensures BlockEffect(txs, c, h, genesis, ids, i)[op].spend.value.txid in ids[..i]
  {
    if i > 0 {
      var p := BlockEffect(txs, c, h, genesis, ids, i - 1);
      assert ids[..i] == ids[..i - 1] + [ids[i - 1]];
      if ids[i - 1] in txs {
        TxEffectCoin(p, h, ids[i - 1], txs[ids[i - 1]], genesis, op);
      }
      if op in p && p[op].spend == BlockEffect(txs, c, h, genesis, ids, i)[op].spend {
        SpentInBlock(txs, c, h, genesis, ids, i - 1, op);
      }
    }
  }

  /** Spends by other blocks were there before this block. */
  lemma {:induction false} SpentBefore(
    txs: map<TxId, TxRow>, c: CoinSet, h: Hash, genesis: bool, ids: seq<TxId>, i: nat, op: OutPoint)
    requires i <= |ids| && op in BlockEffect(txs, c, h, genesis, ids, i)
    requires var sp := BlockEffect(txs, c, h, genesis, ids, i)[op].spend; sp.Some? && sp.value.block != h
    ensures op in c && c[op].spend == BlockEffect(txs, c, h, genesis, ids, i)[op].spend
  {
    if i > 0 {
      if ids[i - 1] in txs {
        TxEffectCoin(BlockEffect(txs, c, h, genesis, ids, i - 1), h, ids[i - 1], txs[ids[i - 1]], genesis, op);
      }
      SpentBefore(txs, c, h, genesis, ids, i - 1, op);
    }
  }

  /** x occurs in one of these blocks. */
  ghost predicate Occurs(ar: Archive, chain: seq<Hash>, x: TxId) {
    exists i :: 0 <= i < |chain| && x in TxIdsOf(ar, chain[i])
  }

  /** The coins met by the i-th transaction of block chain[j]. */
  function CoinsMet(ar: Archive, chain: seq<Hash>, j: nat, i: nat): CoinSet
    requires j < |chain| && i <= |TxIdsOf(ar, chain[j])|
  {
    BlockEffect(ar.txs, CoinsOf(ar, chain[..j]), chain[j], HeightOf(ar, chain[j]) == 0, TxIdsOf(ar, chain[j]), i)
  }

  ghost predicate Sited(ar: Archive, chain: seq<Hash>, j: nat, i: nat) {
    && ArchiveOk(ar) && ChainOk(ar, chain) && CoinsOk(ar, CoinsOf(ar, chain))
    && j < |chain| && i < |TxIdsOf(ar, chain[j])|
  }

  lemma NotMentioned(ar: Archive, chain: seq<Hash>, j: nat)
    requires Linked(ar, chain) && j < |chain|
    ensures !Mentions(CoinsOf(ar, chain[..j]), chain[j])
  {
    LinkedDistinct(ar, chain);
    if Mentions(CoinsOf(ar, chain[..j]), chain[j]) {
      CoinsMentionChain(ar, chain[..j], chain[j]);
    }
  }

  /** If a coin met by a transaction was already spent by that same transaction, the
      transaction occurs in an earlier block. */
  lemma SpentByItself(ar: Archive, chain: seq<Hash>, j: nat, i: nat, op: OutPoint)
    requires Sited(ar, chain, j, i) && op in CoinsMet(ar, chain, j, i)
    requires var sp := CoinsMet(ar, chain, j, i)[op].spend; sp.Some? && sp.value.txid == TxIdsOf(ar, chain[j])[i]
    ensures Occurs(ar, chain[..j], TxIdsOf(ar, chain[j])[i])
  {
    var h, ids, genesis, c0 := chain[j], TxIdsOf(ar, chain[j]), HeightOf(ar, chain[j]) == 0, CoinsOf(ar, chain[..j]);
    var sp := CoinsMet(ar, chain, j, i)[op].spend.value;
    NotMentioned(ar, chain, j);
    assert h in ar.blocks && BlockRowOk(ar, h);
    if sp.block == h {
      SpentInBlock(ar.txs, c0, h, genesis, ids, i, op);
    } else {
      SpentBefore(ar.txs, c0, h, genesis, ids, i, op);
      PrefixCoinsOk(ar, chain, j);
      assert CoinOk(ar, op, c0[op]);
      assert Mentions(c0, sp.block);
      CoinsMentionChain(ar, chain[..j], sp.block);
      var n :| 0 <= n < j && chain[..j][n] == sp.block;
    }
  }

  lemma {:induction false} NothingRespent(ar: Archive, c: CoinSet, txid: TxId, ins: seq<Input>, k: nat)
    requires k <= |ins| && InputsSpendable(c, txid, ins, k)
    requires forall op :: op in c && c[op].spend.Some? ==> c[op].spend.value.txid != txid
    ensures Respent(ar, c, ins, k) == 0
  {
    if k > 0 {
      NothingRespent(ar, c, txid, ins, k - 1);
      assert Spendable(c, ins[k - 1].prev.value, txid, k - 1);
    }
  }

  lemma {:induction false} EverythingRespent(ar: Archive, c: CoinSet, txid: TxId, row: TxRow, genesis: bool, k: nat)
    requires k <= |row.inputs| && Settled(c, txid, row, genesis) && !row.isCoinbase
    ensures Respent(ar, c, row.inputs, k) == InputTotal(ar, row.inputs, k)
  {
    if k > 0 {
      EverythingRespent(ar, c, txid, row, genesis, k - 1);
    }
  }

  /** A first occurrence re-spends nothing. */
  lemma FirstOccurrence(ar: Archive, chain: seq<Hash>, j: nat, i: nat)
    requires Sited(ar, chain, j, i) && !Occurs(ar, chain[..j], TxIdsOf(ar, chain[j])[i])
    ensures TxIdsOf(ar, chain[j])[i] in ar.txs
    ensures TxRespent(ar, CoinsMet(ar, chain, j, i), ar.txs[TxIdsOf(ar, chain[j])[i]]) == 0
  {
    var x, c := TxIdsOf(ar, chain[j])[i], CoinsMet(ar, chain, j, i);
    assert BlockValid(ar, CoinsOf(ar, chain[..j]), chain[j]);
    assert ValidAt(ar.txs, CoinsOf(ar, chain[..j]), chain[j], HeightOf(ar, chain[j]) == 0, TxIdsOf(ar, chain[j]), i);
    var row := ar.txs[x];
    if !row.isCoinbase {
      forall op | op in c && c[op].spend.Some?
        ensures c[op].spend.value.txid != x
      {
        if c[op].spend.value.txid == x {
          SpentByItself(ar, chain, j, i, op);
        }
      }
      NothingRespent(ar, c, x, row.inputs, |row.inputs|);
    }
  }

  // --- repeated transactions ---

  lemma {:induction false} ChainGrows(ar: Archive, chain: seq<Hash>, i: nat, k: nat)
    requires i <= k <= |chain|
    ensures CoinsGrow(CoinsOf(ar, chain[..i]), CoinsOf(ar, chain[..k]))
  {
    if i < k {
      ChainGrows(ar, chain, i, k - 1);
      var prefix := chain[..k];
      assert prefix[..k - 1] == chain[..k - 1];
      var ids := TxIdsOf(ar, chain[k - 1]);
      BlockEffectGrows(ar.txs, CoinsOf(ar, chain[..k - 1]), chain[k - 1], HeightOf(ar, chain[k - 1]) == 0, ids, 0, |ids|);
    }
  }

  lemma SettledByItsBlock(ar: Archive, chain: seq<Hash>, n: nat, x: TxId)
    requires ChainValid(ar, chain) && n < |chain| && x in TxIdsOf(ar, chain[n])
    ensures x in ar.txs && Settled(CoinsOf(ar, chain[..n + 1]), x, ar.txs[x], HeightOf(ar, chain[n]) == 0)
  {
    hide Settled, BlockEffect;
    var ids := TxIdsOf(ar, chain[n]);
    var m :| 0 <= m < |ids| && ids[m] == x;
    assert BlockValid(ar, CoinsOf(ar, chain[..n]), chain[n]);
    BlockSettles(ar.txs, CoinsOf(ar, chain[..n]), chain[n], HeightOf(ar, chain[n]) == 0, ids, m);
    assert chain[..n + 1][..n] == chain[..n];
  }

  lemma MetGrows(ar: Archive, chain: seq<Hash>, n: nat, j: nat, i: nat)
    requires n <= j < |chain| && i <= |TxIdsOf(ar, chain[j])|
    ensures CoinsGrow(CoinsOf(ar, chain[..n]), CoinsMet(ar, chain, j, i))
  {
    ChainGrows(ar, chain, n, j);
    BlockEffectGrows(ar.txs, CoinsOf(ar, chain[..j]), chain[j], HeightOf(ar, chain[j]) == 0, TxIdsOf(ar, chain[j]), 0, i);
  }

  /** Once a transaction has occurred it stays settled. */
  lemma OccurredIsSettled(ar: Archive, chain: seq<Hash>, n: nat, x: TxId, j: nat, i: nat)
    requires Sited(ar, chain, j, i) && n < j && x in TxIdsOf(ar, chain[n])
    ensures x in ar.txs
    ensures Settled(CoinsMet(ar, chain, j, i), x, ar.txs[x], HeightOf(ar, chain[n]) == 0)
  {
    hide Settled, CoinsMet, CoinsGrow, CoinsOf, ArchiveOk, Linked, CoinsOk;
    SettledByItsBlock(ar, chain, n, x);
    MetGrows(ar, chain, n + 1, j, i);
    SettledStays(CoinsOf(ar, chain[..n + 1]), CoinsMet(ar, chain, j, i), x, ar.txs[x], HeightOf(ar, chain[n]) == 0);
  }

  /** A repeated occurrence re-spends the whole value of its inputs. */
  lemma RepeatedOccurrence(ar: Archive, chain: seq<Hash>, n: nat, j: nat, i: nat)
    requires Sited(ar, chain, j, i) && n < j && TxIdsOf(ar, chain[j])[i] in TxIdsOf(ar, chain[n])
    ensures var x := TxIdsOf(ar, chain[j])[i];
            && x in ar.txs
            && TxRespent(ar, CoinsMet(ar, chain, j, i), ar.txs[x])
               == if ar.txs[x].isCoinbase then 0 else InputTotal(ar, ar.txs[x].inputs, |ar.txs[x].inputs|)
  {
    var x := TxIdsOf(ar, chain[j])[i];
    OccurredIsSettled(ar, chain, n, x, j, i);
    if !ar.txs[x].isCoinbase {
      EverythingRespent(ar, CoinsMet(ar, chain, j, i), x, ar.txs[x], HeightOf(ar, chain[n]) == 0, |ar.txs[x].inputs|);
    }
  }

  // --- the exact condition ---

  function InputsWorth(ar: Archive, x: TxId): seq<Input> {
    if x in ar.txs && !ar.txs[x].isCoinbase then ar.txs[x].inputs else []
  }

  ghost function Worth(ar: Archive, x: TxId): int {
    InputTotal(ar, InputsWorth(ar, x), |InputsWorth(ar, x)|)
  }

  /** Some transaction whose inputs are worth something occurs in two canonical blocks. */
  ghost predicate RepeatsValue(ar: Archive, chain: seq<Hash>, n: nat, j: nat, x: TxId) {
    n < j < |chain| && x in TxIdsOf(ar, chain[n]) && x in TxIdsOf(ar, chain[j]) && Worth(ar, x) > 0
  }

  lemma {:induction false} InputTotalNonNegative(ar: Archive, ins: seq<Input>, k: nat)
    requires RowsOk(ar) && k <= |ins|
    ensures InputTotal(ar, ins, k) >= 0
  {
    if k > 0 {
      InputTotalNonNegative(ar, ins, k - 1);
      if ins[k - 1].prev.Some? && HasOutput(ar, ins[k - 1].prev.value) {
        assert TxRowOk(ar, ins[k - 1].prev.value.txid);
      }
    }
  }

  lemma SiteRespent(ar: Archive, chain: seq<Hash>, j: nat, i: nat)
    requires Sited(ar, chain, j, i)
    ensures var x := TxIdsOf(ar, chain[j])[i];
            && x in ar.txs
            && TxRespent(ar, CoinsMet(ar, chain, j, i), ar.txs[x]) == if Occurs(ar, chain[..j], x) then Worth(ar, x) else 0
  {
    hide CoinsMet, ArchiveOk, ChainOk, CoinsOk, TxRespent;
    var x := TxIdsOf(ar, chain[j])[i];
    if Occurs(ar, chain[..j], x) {
      var n :| 0 <= n < j && x in TxIdsOf(ar, chain[..j][n]);
      RepeatedOccurrence(ar, chain, n, j, i);
    } else {
      FirstOccurrence(ar, chain, j, i);
    }
  }

  /** A prefix of block chain[j] re-spends nothing exactly when none of its transactions
      repeats value. */
  lemma {:induction false} BlockRespentIff(ar: Archive, chain: seq<Hash>, j: nat, k: nat)
    requires ArchiveOk(ar) && ChainOk(ar, chain) && CoinsOk(ar, CoinsOf(ar, chain))
    requires j < |chain| && k <= |TxIdsOf(ar, chain[j])|
    ensures var r := RespentUpTo(ar, CoinsOf(ar, chain[..j]), chain[j], HeightOf(ar, chain[j]) == 0, TxIdsOf(ar, chain[j]), k);
            && r >= 0
            && (r == 0 <==> forall i :: 0 <= i < k && Occurs(ar, chain[..j], TxIdsOf(ar, chain[j])[i]) ==> Worth(ar, TxIdsOf(ar, chain[j])[i]) == 0)
  {
    hide ArchiveOk, ChainOk, CoinsOk, TxRespent, Occurs, InputTotal;
    if k > 0 {
      BlockRespentIff(ar, chain, j, k - 1);
      SiteRespent(ar, chain, j, k - 1);
      WorthNonNegative(ar, TxIdsOf(ar, chain[j])[k - 1]);
    }
  }

  lemma WorthNonNegative(ar: Archive, x: TxId)
    requires ArchiveOk(ar)
    ensures Worth(ar, x) >= 0
  {
    InputTotalNonNegative(ar, InputsWorth(ar, x), |InputsWorth(ar, x)|);
  }

  lemma BlockRepeats(ar: Archive, chain: seq<Hash>, j: nat)
    requires ArchiveOk(ar) && ChainOk(ar, chain) && CoinsOk(ar, CoinsOf(ar, chain)) && j < |chain|
    ensures BlockRespent(ar, CoinsOf(ar, chain[..j]), chain[j]) >= 0
    ensures BlockRespent(ar, CoinsOf(ar, chain[..j]), chain[j]) == 0 <==> !exists n: nat, x :: RepeatsValue(ar, chain, n, j, x)
  {
    hide ArchiveOk, ChainOk, CoinsOk, InputTotal, RespentUpTo;
    var ids := TxIdsOf(ar, chain[j]);
    BlockRespentIff(ar, chain, j, |ids|);
    forall i | 0 <= i < |ids|
      ensures Worth(ar, ids[i]) >= 0
      ensures Occurs(ar, chain[..j], ids[i]) && Worth(ar, ids[i]) > 0 ==> exists n: nat, x :: RepeatsValue(ar, chain, n, j, x)
    {
      WorthNonNegative(ar, ids[i]);
      if Occurs(ar, chain[..j], ids[i]) && Worth(ar, ids[i]) > 0 {
        var n :| 0 <= n < j && ids[i] in TxIdsOf(ar, chain[..j][n]);
        assert RepeatsValue(ar, chain, n, j, ids[i]);
      }
    }
    forall n: nat, x | RepeatsValue(ar, chain, n, j, x)
      ensures exists i :: 0 <= i < |ids| && Occurs(ar, chain[..j], ids[i]) && Worth(ar, ids[i]) > 0
    {
      var i :| 0 <= i < |ids| && ids[i] == x;
      assert x in TxIdsOf(ar, chain[..j][n]);
      assert Occurs(ar, chain[..j], ids[i]);
    }
  }

  /** The residue is zero exactly when no transaction with inputs of positive value
      occurs in two canonical blocks. */
  lemma {:induction false} ResidueZeroIff(ar: Archive, chain: seq<Hash>, k: nat)
    requires ArchiveOk(ar) && ChainOk(ar, chain) && CoinsOk(ar, CoinsOf(ar, chain)) && k <= |chain|
    ensures Residue(ar, chain[..k]) >= 0
    ensures Residue(ar, chain[..k]) == 0 <==> !exists n: nat, j: nat, x :: j < k && RepeatsValue(ar, chain, n, j, x)
  {
    hide ArchiveOk, ChainOk, CoinsOk, RepeatsValue, BlockRespent, CoinsOf;
    if k > 0 {
      ResidueZeroIff(ar, chain, k - 1);
      BlockRepeats(ar, chain, k - 1);
      assert chain[..k][..k - 1] == chain[..k - 1];
    }
  }
}
