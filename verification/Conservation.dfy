/** Supply conservation. The rollup never counts a coin: it derives the value of the
    coin set as coinbase minus fees minus excluded. That derived value plus the value
    of re-spent inputs equals the sum over unspent utxo_state rows, always; the two
    agree exactly when no accepted transaction re-spent anything of value. */
module Conservation {
  import opened Wrappers
  import opened Int64
  import opened Sums
  import opened Chain
  import opened Tables
  import opened Accounting
  import opened Coins
  import opened TxFacts
  import opened Integrity
  import opened BlockLoop
  import opened StoreSpec
  import opened Coherence

  function UnspentValues(ar: Archive, c: CoinSet): map<OutPoint, int> {
    map op | op in c && c[op].spend.None? :: Value(ar, op)
  }

  /** SELECT SUM(value) over utxo_state rows that are not spent. */
  ghost function Unspent(ar: Archive, c: CoinSet): int {
    Sum(UnspentValues(ar, c))
  }

  lemma CreateAddsValue(ar: Archive, c: CoinSet, op: OutPoint, h: Hash)
    ensures Unspent(ar, Create(c, op, h)) == Unspent(ar, c) + if op in c then 0 else Value(ar, op)
  {
    if op !in c {
      var v := UnspentValues(ar, c);
      SumPut(v, op, Value(ar, op));
      assert UnspentValues(ar, Create(c, op, h)) == v[op := Value(ar, op)];
    }
  }

  lemma MarkSpentRemovesValue(ar: Archive, c: CoinSet, op: OutPoint, sp: Spend)
    ensures Unspent(ar, MarkSpent(c, op, sp))
            == Unspent(ar, c) - if op in c && c[op].spend.None? then Value(ar, op) else 0
  {
    if op in c && c[op].spend.None? {
      var v := UnspentValues(ar, c);
      SumTake(v, op);
      assert UnspentValues(ar, MarkSpent(c, op, sp)) == v - {op};
    }
  }

  /** The transaction's admissible outputs are all new to the coin set. */
  ghost predicate OutputsNew(c: CoinSet, txid: TxId, outs: seq<OutBody>, genesis: bool, k: nat)
    requires k <= |outs|
  {
    forall i :: 0 <= i < k && !Excluded(outs[i], genesis) ==> OutPoint(txid, i) !in c
  }

  lemma {:induction false} CreatesAddValue(ar: Archive, c: CoinSet, h: Hash, txid: TxId, outs: seq<OutBody>, genesis: bool, k: nat)
    requires k <= |outs| && OutputsNew(c, txid, outs, genesis, k)
    requires txid in ar.txs && ar.txs[txid].outputs == outs
    ensures Unspent(ar, Creates(c, h, txid, outs, genesis, k))
            == Unspent(ar, c) + OutputTotal(outs, k) - ExcludedOf(outs, genesis, k)
  {
    if k > 0 {
      CreatesAddValue(ar, c, h, txid, outs, genesis, k - 1);
      var p := Creates(c, h, txid, outs, genesis, k - 1);
      CreatesShape(c, h, txid, outs, genesis, k - 1);
      CreateAddsValue(ar, p, OutPoint(txid, k - 1), h);
    }
  }

  /** The value of the first k inputs whose previous output was already spent. */
  ghost function Respent(ar: Archive, c: CoinSet, ins: seq<Input>, k: nat): int
    requires k <= |ins|
  {
    if k == 0 then 0
    else
      var prev := ins[k - 1].prev;
      Respent(ar, c, ins, k - 1)
      + if prev.Some? && prev.value in c && c[prev.value].spend.Some? then Value(ar, prev.value) else 0
  }

  lemma {:induction false} RespentSame(ar: Archive, c: CoinSet, c': CoinSet, txid: TxId, ins: seq<Input>, k: nat)
    requires k <= |ins| && InputsSpendable(c, txid, ins, k)
    requires forall op :: op in c ==> op in c' && c'[op] == c[op]
    ensures Respent(ar, c, ins, k) == Respent(ar, c', ins, k)
  {
    if k > 0 {
      RespentSame(ar, c, c', txid, ins, k - 1);
      assert Spendable(c, ins[k - 1].prev.value, txid, k - 1);
    }
  }

  lemma {:induction false} SpendsRemoveValue(ar: Archive, c: CoinSet, h: Hash, txid: TxId, ins: seq<Input>, k: nat)
    requires k <= |ins| && InputsSpendable(c, txid, ins, k) && PrevoutsDistinct(ins, k)
    ensures Unspent(ar, Spends(c, h, txid, ins, k)) == Unspent(ar, c) - InputTotal(ar, ins, k) + Respent(ar, c, ins, k)
  {
    if k > 0 {
      SpendsRemoveValue(ar, c, h, txid, ins, k - 1);
      var p, op := Spends(c, h, txid, ins, k - 1), ins[k - 1].prev.value;
      assert Spendable(c, op, txid, k - 1);
      SpendsShape(c, h, txid, ins, k - 1);
      MarkSpentRemovesValue(ar, p, op, Spend(txid, k - 1, h));
    }
  }

  /** The value re-spent by a transaction applied to coin set c. */
  ghost function TxRespent(ar: Archive, c: CoinSet, row: TxRow): int {
    if row.isCoinbase then 0 else Respent(ar, c, row.inputs, |row.inputs|)
  }

  function FeeValue(row: TxRow): int64 {
    if row.fee.Some? then row.fee.value else 0
  }

  function CoinbaseValue(row: TxRow): seq<OutBody> {
    if row.isCoinbase then row.outputs else []
  }

  /** One transaction changes the unspent total by what a coinbase pays out, minus the
      fee, minus the excluded outputs, plus whatever it re-spent. */
  lemma TxBalance(ar: Archive, c: CoinSet, h: Hash, txid: TxId, genesis: bool)
    requires txid in ar.txs && FeeOk(ar, ar.txs[txid])
    requires TxValid(c, h, txid, ar.txs[txid], genesis)
    requires OutputsNew(c, txid, ar.txs[txid].outputs, genesis, |ar.txs[txid].outputs|)
    ensures var row := ar.txs[txid];
            Unspent(ar, TxEffect(c, h, txid, row, genesis))
            == Unspent(ar, c) + OutputTotal(CoinbaseValue(row), |CoinbaseValue(row)|) - FeeValue(row)
               - ExcludedOf(row.outputs, genesis, |row.outputs|) + TxRespent(ar, c, row)
  {
    var row := ar.txs[txid];
    CreatesAddValue(ar, c, h, txid, row.outputs, genesis, |row.outputs|);
    if !row.isCoinbase {
      var created := Creates(c, h, txid, row.outputs, genesis, |row.outputs|);
      CreatesShape(c, h, txid, row.outputs, genesis, |row.outputs|);
      SpendableAfterCreates(c, h, txid, row, genesis);
      SpendsRemoveValue(ar, created, h, txid, row.inputs, |row.inputs|);
      RespentSame(ar, c, created, txid, row.inputs, |row.inputs|);
    }
  }

  // --- a block ---

  /** A coin of this block was created by one of its earlier transactions. */
  lemma {:induction false} CreatedInBlock(
    txs: map<TxId, TxRow>, c: CoinSet, h: Hash, genesis: bool, ids: seq<TxId>, i: nat, op: OutPoint)
    requires i <= |ids| && !Mentions(c, h)
    requires op in BlockEffect(txs, c, h, genesis, ids, i) && BlockEffect(txs, c, h, genesis, ids, i)[op].creation == h
    ensures op.txid in ids[..i]
  {
    if i > 0 {
      var p := BlockEffect(txs, c, h, genesis, ids, i - 1);
      assert ids[..i] == ids[..i - 1] + [ids[i - 1]];
      if ids[i - 1] in txs {
        TxEffectCoin(p, h, ids[i - 1], txs[ids[i - 1]], genesis, op);
      }
      if op in p {
        CreatedInBlock(txs, c, h, genesis, ids, i - 1, op);
      }
    }
  }

  lemma TransactionIsNew(ar: Archive, c: CoinSet, h: Hash, genesis: bool, ids: seq<TxId>, i: nat)
    requires i < |ids| && Distinct(ids) && !Mentions(c, h) && ValidAt(ar.txs, c, h, genesis, ids, i)
    ensures OutputsNew(BlockEffect(ar.txs, c, h, genesis, ids, i), ids[i], ar.txs[ids[i]].outputs, genesis, |ar.txs[ids[i]].outputs|)
  {
    var before, outs := BlockEffect(ar.txs, c, h, genesis, ids, i), ar.txs[ids[i]].outputs;
    forall v | 0 <= v < |outs| && !Excluded(outs[v], genesis)
      ensures OutPoint(ids[i], v) !in before
    {
      var op := OutPoint(ids[i], v);
      assert CreatableAt(before, h, op, outs[v], genesis);
      if op in before {
        CreatedInBlock(ar.txs, c, h, genesis, ids, i, op);
      }
    }
  }

  ghost function RespentUpTo(ar: Archive, c: CoinSet, h: Hash, genesis: bool, ids: seq<TxId>, k: nat): int
    requires k <= |ids|
  {
    if k == 0 then 0
    else
      RespentUpTo(ar, c, h, genesis, ids, k - 1)
      + if ids[k - 1] in ar.txs then TxRespent(ar, BlockEffect(ar.txs, c, h, genesis, ids, k - 1), ar.txs[ids[k - 1]]) else 0
  }

  ghost predicate RowsStored(ar: Archive, ids: seq<TxId>) {
    forall i :: 0 <= i < |ids| ==> ids[i] in ar.txs && FeeOk(ar, ar.txs[ids[i]]) && (ar.txs[ids[i]].isCoinbase <==> i == 0)
  }

  ghost function FirstOutputs(ar: Archive, ids: seq<TxId>, k: nat): int
    requires k <= |ids|
  {
    if k == 0 then 0 else OutputTotal(OutputsOf(ar.txs, ids[0]), |OutputsOf(ar.txs, ids[0])|)
  }

  lemma {:induction false} BlockBalance(ar: Archive, c: CoinSet, h: Hash, genesis: bool, ids: seq<TxId>, k: nat)
    requires k <= |ids| && Distinct(ids) && RowsStored(ar, ids) && !Mentions(c, h)
    requires ValidUpTo(ar.txs, c, h, genesis, ids, |ids|)
    ensures Unspent(ar, BlockEffect(ar.txs, c, h, genesis, ids, k))
            == Unspent(ar, c) + FirstOutputs(ar, ids, k) - FeeTotal(ar.txs, ids, k)
               - ExcludedTotal(ar.txs, genesis, ids, k) + RespentUpTo(ar, c, h, genesis, ids, k)
  {
    if k > 0 {
      BlockBalance(ar, c, h, genesis, ids, k - 1);
      assert ValidAt(ar.txs, c, h, genesis, ids, k - 1);
      TransactionIsNew(ar, c, h, genesis, ids, k - 1);
      TxBalance(ar, BlockEffect(ar.txs, c, h, genesis, ids, k - 1), h, ids[k - 1], genesis);
    }
  }

  // --- the chain ---

  ghost function BlockRespent(ar: Archive, c: CoinSet, h: Hash): int {
    RespentUpTo(ar, c, h, HeightOf(ar, h) == 0, TxIdsOf(ar, h), |TxIdsOf(ar, h)|)
  }

  /** The total value of inputs that the chain's blocks spent a second time. */
  ghost function Residue(ar: Archive, chain: seq<Hash>): int {
    if chain == [] then 0
    else Residue(ar, chain[..|chain| - 1]) + BlockRespent(ar, CoinsOf(ar, chain[..|chain| - 1]), chain[|chain| - 1])
  }

  lemma ChainRowsStored(ar: Archive, h: Hash)
    requires ArchiveOk(ar) && h in ar.blocks
    ensures RowsStored(ar, TxIdsOf(ar, h)) && Distinct(TxIdsOf(ar, h))
  {
    assert BlockRowOk(ar, h);
    var ids := TxIdsOf(ar, h);
    forall i | 0 <= i < |ids|
      ensures FeeOk(ar, ar.txs[ids[i]])
    {
      assert TxRowOk(ar, ids[i]);
    }
  }

  /** What applying the last block of a chain does to the unspent total. */
  lemma ChainBalance(ar: Archive, chain: seq<Hash>)
    requires ArchiveOk(ar) && ChainOk(ar, chain) && chain != []
    ensures var init, h := chain[..|chain| - 1], chain[|chain| - 1];
            Unspent(ar, CoinsOf(ar, chain))
            == Unspent(ar, CoinsOf(ar, init)) + CoinbaseTotal(ar, h) - BlockFees(ar, h) - BlockExcluded(ar, h)
               + BlockRespent(ar, CoinsOf(ar, init), h)
  {
    var n := |chain| - 1;
    var init, h := chain[..n], chain[n];
    var ids := TxIdsOf(ar, h);
    assert h in ar.blocks && BlockRowOk(ar, h);
    ChainRowsStored(ar, h);
    LinkedDistinct(ar, chain);
    if Mentions(CoinsOf(ar, init), h) {
      CoinsMentionChain(ar, init, h);
    }
    assert BlockValid(ar, CoinsOf(ar, init), h);
    BlockBalance(ar, CoinsOf(ar, init), h, HeightOf(ar, h) == 0, ids, |ids|);
  }

  /** The stored tables a genesis-rooted chain is accounted by. */
  ghost predicate Ledgered(sch: SubsidySchedule, db: Database, chain: seq<Hash>)
    requires Sound(sch)
  {
    && ArchiveOk(db.ar) && ChainOk(db.ar, chain)
    && AccountingOk(sch, db.ar, db.accounting) && RollupOk(db.ar, db.accounting, db.rollup, chain)
    && GenesisRooted(db.ar, chain)
  }

  lemma CoherentIsLedgered(sch: SubsidySchedule, db: Database, chain: seq<Hash>)
    requires Sound(sch) && Coherent(sch, db, chain) && GenesisRooted(db.ar, chain)
    ensures Ledgered(sch, db, chain)
  {
    hide ArchiveOk, ChainOk, AccountingOk, RollupOk, DerivedOk, CoinsOk;
  }

  /** What the rollup adds for the i-th canonical block. */
  lemma RollupAt(sch: SubsidySchedule, db: Database, chain: seq<Hash>, i: nat)
    requires Sound(sch) && Ledgered(sch, db, chain) && i < |chain|
    ensures chain[i] in db.ar.blocks && chain[i] in db.accounting && chain[i] in db.rollup
    ensures FactsMatch(sch, db.ar, chain[i], db.accounting[chain[i]])
    ensures i > 0 ==> chain[i - 1] in db.rollup
    ensures Extended(if i == 0 then ZERO_ROLLUP else db.rollup[chain[i - 1]], BlockExcluded(db.ar, chain[i]),
                     db.accounting[chain[i]], db.rollup[chain[i]])
  {
    hide RowsOk, BlockRowOk, ChainValid;
    var h := chain[i];
    assert h in db.ar.blocks && db.ar.blocks[h].height == i;
    assert FactsMatch(sch, db.ar, h, db.accounting[h]);
    assert RollupRowOk(db.ar, db.accounting, db.rollup, h);
  }

  lemma RollupStepValue(parent: RollupRow, excluded: int, facts: BlockFacts, row: RollupRow)
    requires Extended(parent, excluded, facts, row) && parent.utxoValue == parent.coinbase - parent.fee - parent.cumExcluded
    ensures row.utxoValue == parent.utxoValue + facts.coinbase - facts.fee - excluded
    ensures row.utxoValue == row.coinbase - row.fee - row.cumExcluded
  {
  }

  lemma {:induction false} Conserved(sch: SubsidySchedule, db: Database, chain: seq<Hash>, n: nat)
    requires Sound(sch) && Ledgered(sch, db, chain) && 0 < n <= |chain|
    ensures chain[n - 1] in db.rollup
    ensures Unspent(db.ar, CoinsOf(db.ar, chain[..n])) == db.rollup[chain[n - 1]].utxoValue + Residue(db.ar, chain[..n])
    ensures var row := db.rollup[chain[n - 1]]; row.utxoValue == row.coinbase - row.fee - row.cumExcluded
  {
    hide ArchiveOk, ChainOk, AccountingOk, RollupOk, Extended, BlockExcluded, CoinbaseTotal, BlockFees, BlockRespent, AfterBlock, UnspentValues;
    var prefix := chain[..n];
    assert prefix[n - 1] == chain[n - 1];
    assert prefix[..n - 1] == chain[..n - 1];
    ChainOkPrefix(db.ar, chain, n);
    ChainBalance(db.ar, prefix);
    RollupAt(sch, db, chain, n - 1);
    if n == 1 {
      RollupStepValue(ZERO_ROLLUP, BlockExcluded(db.ar, chain[0]), db.accounting[chain[0]], db.rollup[chain[0]]);
      NothingUnspent(db.ar);
    } else {
      Conserved(sch, db, chain, n - 1);
      RollupStepValue(db.rollup[chain[n - 2]], BlockExcluded(db.ar, chain[n - 1]), db.accounting[chain[n - 1]], db.rollup[chain[n - 1]]);
    }
  }

  lemma NothingUnspent(ar: Archive)
    ensures Unspent(ar, map[]) == 0 && CoinsOf(ar, []) == map[] && Residue(ar, []) == 0
  {
    assert UnspentValues(ar, map[]) == map[];
  }

  /** The derived value differs from a full scan of the coin set by exactly the residue. */
  lemma SupplyConservation(sch: SubsidySchedule, db: Database, chain: seq<Hash>)
    requires Sound(sch) && Coherent(sch, db, chain) && GenesisRooted(db.ar, chain)
    ensures var tip := db.checkpoint.hash;
            && tip in db.rollup
            && Unspent(db.ar, db.coins) == db.rollup[tip].utxoValue + Residue(db.ar, chain)
            && (db.rollup[tip].utxoValue == Unspent(db.ar, db.coins) <==> Residue(db.ar, chain) == 0)
  {
    hide ArchiveOk, ChainOk, AccountingOk, RollupOk, CoinsOk, UnspentValues;
    CoherentIsLedgered(sch, db, chain);
    assert chain[..|chain|] == chain;
    Conserved(sch, db, chain, |chain|);
  }
}
