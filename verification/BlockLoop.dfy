/** ApplyBlock's transaction loop: what holds of the tables after any number of
    accepted transactions of a block. */
module BlockLoop {
  import opened Wrappers
  import opened Int64
  import opened Chain
  import opened Tables
  import opened Shape
  import opened Coins
  import opened TxSpec
  import opened TxFacts
  import opened Cache
  import opened Integrity

  function Ids(txs: seq<Transaction>): (r: seq<TxId>)
    ensures |r| == |txs|
    ensures forall i :: 0 <= i < |txs| ==> r[i] == txs[i].txid
  {
    seq(|txs|, i requires 0 <= i < |txs| => txs[i].txid)
  }

  function FeeOf(txs: map<TxId, TxRow>, x: TxId): int64 {
    if x in txs && txs[x].fee.Some? then txs[x].fee.value else 0
  }

  ghost function FeeTotal(txs: map<TxId, TxRow>, ids: seq<TxId>, k: nat): int
    requires k <= |ids|
  {
    if k == 0 then 0 else FeeTotal(txs, ids, k - 1) + FeeOf(txs, ids[k - 1])
  }

  lemma {:induction false} FeeTotalSame(txs: map<TxId, TxRow>, txs': map<TxId, TxRow>, ids: seq<TxId>, k: nat)
    requires k <= |ids| && SameRows(txs, txs', ids, k)
    ensures FeeTotal(txs, ids, k) == FeeTotal(txs', ids, k)
  {
    if k > 0 {
      FeeTotalSame(txs, txs', ids, k - 1);
    }
  }

  ghost predicate ValidAt(txs: map<TxId, TxRow>, c0: CoinSet, h: Hash, genesis: bool, ids: seq<TxId>, i: nat)
    requires i < |ids|
  {
    ids[i] in txs && TxValid(BlockEffect(txs, c0, h, genesis, ids, i), h, ids[i], txs[ids[i]], genesis)
  }

  /** The first k transactions were each acceptable to the coin set they met. */
  ghost predicate ValidUpTo(txs: map<TxId, TxRow>, c0: CoinSet, h: Hash, genesis: bool, ids: seq<TxId>, k: nat)
    requires k <= |ids|
  {
    forall i :: 0 <= i < k ==> ValidAt(txs, c0, h, genesis, ids, i)
  }

  lemma ValidUpToSame(txs: map<TxId, TxRow>, txs': map<TxId, TxRow>, c0: CoinSet, h: Hash, genesis: bool, ids: seq<TxId>, k: nat)
    requires k <= |ids| && SameRows(txs, txs', ids, k) && ValidUpTo(txs, c0, h, genesis, ids, k)
    ensures ValidUpTo(txs', c0, h, genesis, ids, k)
  {
    forall i | 0 <= i < k
      ensures ValidAt(txs', c0, h, genesis, ids, i)
    {
      assert ValidAt(txs, c0, h, genesis, ids, i);
      BlockEffectSame(txs, txs', c0, h, genesis, ids, i);
    }
  }

  ghost predicate StoredUpTo(ar: Archive, txs: seq<Transaction>, k: nat)
    requires k <= |txs|
  {
    forall i :: 0 <= i < k ==> Stored(ar, txs[i])
  }

  /** Tables other than utxo_state: old rows stay, other blocks' occurrences stay. */
  ghost predicate Grown(ar0: Archive, ar: Archive, h: Hash) {
    && ar.blocks == ar0.blocks
    && SubMap(ar0.txs, ar.txs)
    && SubMap(ar0.outAddrs, ar.outAddrs)
    && ar0.blockTxs - {h} == ar.blockTxs - {h}
  }

  /** A block already stored is verified row by row; a new one is written row by row. */
  ghost predicate Occurred(ar0: Archive, ar: Archive, b: Block, k: nat)
    requires k <= |b.txs|
  {
    var rows0, rows := TxIdsOf(ar0, b.hash), TxIdsOf(ar, b.hash);
    if rows0 == [] then rows == Ids(b.txs)[..k]
    else rows == rows0 && |rows| == |b.txs| && rows[..k] == Ids(b.txs)[..k]
  }

  ghost predicate DistinctUpTo(ids: seq<TxId>, k: nat)
    requires k <= |ids|
  {
    forall i, j :: 0 <= i < j < k ==> ids[i] != ids[j]
  }

  ghost predicate LoopStart(ar0: Archive, c0: CoinSet, b: Block) {
    && RowsOk(ar0) && CoinsOk(ar0, c0)
    && b.hash in ar0.blocks && ar0.blocks[b.hash].height == b.height
    && CheckBlock(b).Ok?
    && (TxIdsOf(ar0, b.hash) == [] || (|TxIdsOf(ar0, b.hash)| == |b.txs| && Distinct(TxIdsOf(ar0, b.hash))))
  }

  ghost predicate LoopTables(ar0: Archive, b: Block, k: nat, ar: Archive)
    requires k <= |b.txs|
  {
    && Grown(ar0, ar, b.hash)
    && Occurred(ar0, ar, b, k)
    && DistinctUpTo(Ids(b.txs), k)
    && StoredUpTo(ar, b.txs, k)
    && RowsOk(ar)
  }

  ghost predicate LoopCoins(ar0: Archive, c0: CoinSet, b: Block, k: nat, lp: Loop)
    requires k <= |b.txs|
  {
    && CoinsOk(lp.ar, lp.coins)
    && lp.coins == BlockEffect(lp.ar.txs, c0, b.hash, b.height == 0, Ids(b.txs), k)
    && lp.fee == FeeTotal(lp.ar.txs, Ids(b.txs), k)
    && ValidUpTo(lp.ar.txs, c0, b.hash, b.height == 0, Ids(b.txs), k)
  }

  ghost predicate LoopInv(ar0: Archive, c0: CoinSet, b: Block, k: nat, lp: Loop)
    requires k <= |b.txs|
  {
    && LoopTables(ar0, b, k, lp.ar)
    && LoopCoins(ar0, c0, b, k, lp)
    && SlicesAgreeOff(ar0, c0, lp.ar, lp.coins, lp.touched)
  }

  lemma RowsNonNegative(ar: Archive)
    requires RowsOk(ar)
    ensures forall x :: x in ar.txs ==> NonNegativeOutputs(ar.txs[x].outputs)
  {
    forall x | x in ar.txs
      ensures NonNegativeOutputs(ar.txs[x].outputs)
    {
      assert TxRowOk(ar, x);
    }
  }

  lemma OccurredStep(ar0: Archive, b: Block, k: nat, ar: Archive, row: TxRow)
    requires k < |b.txs| && LoopTables(ar0, b, k, ar)
    requires TxIdsOf(ar0, b.hash) == [] || Distinct(TxIdsOf(ar0, b.hash))
    requires OccurOk(ar, b.hash, k, b.txs[k].txid)
    ensures Occurred(ar0, ArchiveAfter(ar, b.hash, k, b.txs[k], row), b, k + 1)
    ensures DistinctUpTo(Ids(b.txs), k + 1)
  {
    var ids, rows0, rows := Ids(b.txs), TxIdsOf(ar0, b.hash), TxIdsOf(ar, b.hash);
    assert ids[..k + 1] == ids[..k] + [ids[k]];
    if rows0 == [] {
      forall i | 0 <= i < k
        ensures ids[i] != ids[k]
      {
        assert rows[i] == ids[i];
      }
    } else {
      assert rows[..k + 1] == rows[..k] + [rows[k]];
      forall i | 0 <= i < k
        ensures ids[i] != ids[k]
      {
        assert rows[..k][i] == rows[i] && ids[..k][i] == ids[i];
      }
    }
  }

  lemma GrownStep(ar0: Archive, b: Block, k: nat, ar: Archive, c: CoinSet, row: TxRow)
    requires k < |b.txs| && LoopTables(ar0, b, k, ar)
    requires Acceptable(ar, c, b.hash, k, b.txs[k], row, b.height == 0)
    ensures Grown(ar0, ArchiveAfter(ar, b.hash, k, b.txs[k], row), b.hash)
  {
    hide RowsOk, StoredUpTo, DistinctUpTo, Occurred, FeeOk, TxValid, NonNegativeOutputs, AddressesAfter;
    AddressesGrow(ar, b.hash, k, b.txs[k], row);
  }

  lemma TablesStep(ar0: Archive, b: Block, k: nat, ar: Archive, c: CoinSet, row: TxRow)
    requires k < |b.txs| && LoopTables(ar0, b, k, ar) && CheckBlock(b).Ok?
    requires TxIdsOf(ar0, b.hash) == [] || Distinct(TxIdsOf(ar0, b.hash))
    requires Backed(ar, c) && Acceptable(ar, c, b.hash, k, b.txs[k], row, b.height == 0)
    ensures LoopTables(ar0, b, k + 1, ArchiveAfter(ar, b.hash, k, b.txs[k], row))
  {
    var txn, genesis := b.txs[k], b.height == 0;
    var ar' := ArchiveAfter(ar, b.hash, k, txn, row);
    TransactionShape(txn, k);
    OccurredStep(ar0, b, k, ar, row);
    GrownStep(ar0, b, k, ar, c, row);
    RowsStayOk(ar, c, b.hash, k, txn, row, genesis);
    forall i | 0 <= i < k + 1
      ensures Stored(ar', b.txs[i])
    {
      if i == k {
        TransactionStored(ar, c, b.hash, k, txn, row, genesis);
      } else {
        assert Ids(b.txs)[i] != Ids(b.txs)[k];
        OtherStaysStored(ar, c, b.hash, k, txn, row, genesis, b.txs[i]);
      }
    }
  }

  lemma PrefixRowsSame(ar0: Archive, b: Block, k: nat, ar: Archive, txs': map<TxId, TxRow>)
    requires k <= |b.txs| && LoopTables(ar0, b, k, ar) && SubMap(ar.txs, txs')
    ensures SameRows(ar.txs, txs', Ids(b.txs), k)
  {
    forall i | 0 <= i < k
      ensures Ids(b.txs)[i] in ar.txs
    {
      assert Stored(ar, b.txs[i]);
    }
  }

  /** Taking one more transaction into the fold, from any later transactions table. */
  lemma EffectStep(txs: map<TxId, TxRow>, txs': map<TxId, TxRow>, c0: CoinSet, h: Hash, genesis: bool, ids: seq<TxId>, k: nat, row: TxRow)
    requires k < |ids| && SameRows(txs, txs', ids, k)
    requires ids[k] in txs' && txs'[ids[k]] == row
    ensures BlockEffect(txs', c0, h, genesis, ids, k + 1)
            == TxEffect(BlockEffect(txs, c0, h, genesis, ids, k), h, ids[k], row, genesis)
    ensures FeeTotal(txs', ids, k + 1) == FeeTotal(txs, ids, k) + (if row.fee.Some? then row.fee.value else 0)
    ensures ValidUpTo(txs, c0, h, genesis, ids, k) && TxValid(BlockEffect(txs, c0, h, genesis, ids, k), h, ids[k], row, genesis)
            ==> ValidUpTo(txs', c0, h, genesis, ids, k + 1)
  {
    BlockEffectSame(txs, txs', c0, h, genesis, ids, k);
    FeeTotalSame(txs, txs', ids, k);
    if ValidUpTo(txs, c0, h, genesis, ids, k) {
      ValidUpToSame(txs, txs', c0, h, genesis, ids, k);
    }
  }

  lemma CoinsStep(ar0: Archive, c0: CoinSet, b: Block, k: nat, lp: Loop, row: TxRow, next: Loop)
    requires k < |b.txs| && LoopTables(ar0, b, k, lp.ar) && LoopCoins(ar0, c0, b, k, lp)
    requires b.hash in lp.ar.blocks && SubMap(lp.ar.txs, next.ar.txs)
    requires Acceptable(lp.ar, lp.coins, b.hash, k, b.txs[k], row, b.height == 0)
    requires next.ar == ArchiveAfter(lp.ar, b.hash, k, b.txs[k], row)
    requires next.coins == TxEffect(lp.coins, b.hash, b.txs[k].txid, row, b.height == 0)
    requires next.fee == lp.fee + (if row.fee.Some? then row.fee.value else 0)
    ensures LoopCoins(ar0, c0, b, k + 1, next)
  {
    var txn, genesis := b.txs[k], b.height == 0;
    PrefixRowsSame(ar0, b, k, lp.ar, next.ar.txs);
    EffectStep(lp.ar.txs, next.ar.txs, c0, b.hash, genesis, Ids(b.txs), k, row);
    CoinsStayOk(lp.ar, lp.coins, b.hash, k, txn, row, genesis);
  }

  lemma SlicesStep(ar0: Archive, c0: CoinSet, b: Block, k: nat, lp: Loop, row: TxRow, next: Loop)
    requires k < |b.txs| && LoopInv(ar0, c0, b, k, lp)
    requires Acceptable(lp.ar, lp.coins, b.hash, k, b.txs[k], row, b.height == 0)
    requires next.ar == ArchiveAfter(lp.ar, b.hash, k, b.txs[k], row) && SubMap(lp.ar.txs, next.ar.txs)
    requires next.coins == TxEffect(lp.coins, b.hash, b.txs[k].txid, row, b.height == 0)
    requires next.touched == lp.touched + TouchedBy(next.ar, b.txs[k])
    ensures SlicesAgreeOff(ar0, c0, next.ar, next.coins, next.touched)
  {
    forall a | a !in next.touched
      ensures SliceOf(next.ar, next.coins, a) == SliceOf(ar0, c0, a)
    {
      SliceUntouched(lp.ar, lp.coins, b.hash, k, b.txs[k], row, b.height == 0, a);
    }
  }

  lemma LoopStep(ar0: Archive, c0: CoinSet, b: Block, k: nat, lp: Loop, row: TxRow, next: Loop)
    requires k < |b.txs| && LoopStart(ar0, c0, b) && LoopInv(ar0, c0, b, k, lp)
    requires Acceptable(lp.ar, lp.coins, b.hash, k, b.txs[k], row, b.height == 0)
    requires next.ar == ArchiveAfter(lp.ar, b.hash, k, b.txs[k], row)
    requires next.coins == TxEffect(lp.coins, b.hash, b.txs[k].txid, row, b.height == 0)
    requires next.fee == lp.fee + (if row.fee.Some? then row.fee.value else 0)
    requires next.touched == lp.touched + TouchedBy(next.ar, b.txs[k])
    ensures LoopInv(ar0, c0, b, k + 1, next)
  {
    CoinsBacked(lp.ar, lp.coins);
    TablesStep(ar0, b, k, lp.ar, lp.coins, row);
    TransactionShape(b.txs[k], k);
    RowsStayOk(lp.ar, lp.coins, b.hash, k, b.txs[k], row, b.height == 0);
    CoinsStep(ar0, c0, b, k, lp, row, next);
    SlicesStep(ar0, c0, b, k, lp, row, next);
  }

  /** One round of the loop in closed form. */
  ghost predicate RoundFacts(b: Block, k: nat, lp: Loop, row: TxRow, next: Loop)
    requires k < |b.txs|
  {
    && Acceptable(lp.ar, lp.coins, b.hash, k, b.txs[k], row, b.height == 0)
    && next.ar == ArchiveAfter(lp.ar, b.hash, k, b.txs[k], row)
    && next.coins == TxEffect(lp.coins, b.hash, b.txs[k].txid, row, b.height == 0)
    && next.fee == lp.fee + (if row.fee.Some? then row.fee.value else 0)
    && next.touched == lp.touched + TouchedBy(next.ar, b.txs[k])
  }

  lemma RoundOnlyIf(ar0: Archive, c0: CoinSet, b: Block, k: nat, lp: Loop, next: Loop) returns (row: TxRow)
    requires k < |b.txs| && ApplyTxs(ar0, c0, b, k + 1) == Ok(next) && ApplyTxs(ar0, c0, b, k) == Ok(lp)
    requires RowsOk(lp.ar) && CoinsOk(lp.ar, lp.coins)
    ensures RoundFacts(b, k, lp, row, next)
  {
    var s := ApplyTx(lp.ar, lp.coins, b.hash, k, b.txs[k], b.height == 0).value;
    row := RowOf(b.txs[k], s.fee);
    CoinsBacked(lp.ar, lp.coins);
    RowsNonNegative(lp.ar);
    ApplyTxOnlyIf(lp.ar, lp.coins, b.hash, k, b.txs[k], b.height == 0);
  }

  lemma LoopAdvances(ar0: Archive, c0: CoinSet, b: Block, k: nat, lp: Loop, next: Loop)
    requires 0 < k <= |b.txs| && LoopStart(ar0, c0, b) && LoopInv(ar0, c0, b, k - 1, lp)
    requires ApplyTxs(ar0, c0, b, k) == Ok(next) && ApplyTxs(ar0, c0, b, k - 1) == Ok(lp)
    ensures LoopInv(ar0, c0, b, k, next)
  {
    hide ApplyTx, ApplyTxs, RoundFacts, LoopStart, RowsOk, CoinsOk, SlicesAgreeOff, Grown, Occurred, StoredUpTo, BlockEffect;
    var row := RoundOnlyIf(ar0, c0, b, k - 1, lp, next);
    LoopStep(ar0, c0, b, k - 1, lp, row, next);
  }

  lemma LoopResumes(ar0: Archive, c0: CoinSet, b: Block, k: nat) returns (lp: Loop)
    requires 0 < k <= |b.txs| && ApplyTxs(ar0, c0, b, k).Ok?
    ensures ApplyTxs(ar0, c0, b, k - 1) == Ok(lp)
  {
    lp := ApplyTxs(ar0, c0, b, k - 1).value;
  }

  lemma {:induction false} LoopHolds(ar0: Archive, c0: CoinSet, b: Block, k: nat, lp: Loop)
    requires k <= |b.txs| && LoopStart(ar0, c0, b) && ApplyTxs(ar0, c0, b, k) == Ok(lp)
    ensures LoopInv(ar0, c0, b, k, lp)
  {
    hide ApplyTx;
    if k == 0 {
      LoopBegins(ar0, c0, b, lp);
    } else {
      var before := LoopResumes(ar0, c0, b, k);
      LoopHolds(ar0, c0, b, k - 1, before);
      LoopAdvances(ar0, c0, b, k, before, lp);
    }
  }

  lemma LoopBegins(ar0: Archive, c0: CoinSet, b: Block, lp: Loop)
    requires LoopStart(ar0, c0, b) && ApplyTxs(ar0, c0, b, 0) == Ok(lp)
    ensures LoopInv(ar0, c0, b, 0, lp)
  {
    assert Ids(b.txs)[..0] == [];
    assert TxIdsOf(ar0, b.hash)[..0] == [];
  }
}
