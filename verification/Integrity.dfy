/** What every accepted transaction keeps: stored rows stay well formed, coins stay
    backed by stored outputs and inputs, and only touched addresses change. */
module Integrity {
  import opened Wrappers
  import opened Chain
  import opened Tables
  import opened Shape
  import opened Coins
  import opened TxSpec
  import opened TxFacts
  import opened Cache

  // --- stored rows ---

  ghost predicate PrevoutsStored(ar: Archive, ins: seq<Input>) {
    forall j :: 0 <= j < |ins| ==> ins[j].prev.Some? && HasOutput(ar, ins[j].prev.value)
  }

  ghost predicate TxRowOk(ar: Archive, x: TxId)
    requires x in ar.txs
  {
    var row := ar.txs[x];
    && WellFormedHash(x)
    && WellShaped(row.isCoinbase, row.inputs, row.outputs)
    && NonNegativeOutputs(row.outputs)
    && FeeOk(ar, row)
    && (!row.isCoinbase ==> PrevoutsStored(ar, row.inputs))
  }

  ghost predicate AddressRowOk(ar: Archive, op: OutPoint)
    requires op in ar.outAddrs
  {
    HasOutput(ar, op) && ar.outAddrs[op] != ""
  }

  ghost predicate RowsOk(ar: Archive) {
    && (forall x :: x in ar.txs ==> TxRowOk(ar, x))
    && (forall op :: op in ar.outAddrs ==> AddressRowOk(ar, op))
  }

  lemma {:induction false} InputTotalSame(ar: Archive, ar': Archive, ins: seq<Input>, k: nat)
    requires k <= |ins| && PrevoutsStored(ar, ins) && SubMap(ar.txs, ar'.txs)
    ensures InputTotal(ar, ins, k) == InputTotal(ar', ins, k)
  {
    if k > 0 {
      InputTotalSame(ar, ar', ins, k - 1);
      assert ins[k - 1].prev.value.txid in ar.txs;
    }
  }

  lemma PrevoutsStayStored(ar: Archive, ar': Archive, ins: seq<Input>)
    requires PrevoutsStored(ar, ins) && SubMap(ar.txs, ar'.txs)
    ensures PrevoutsStored(ar', ins)
  {
    forall j | 0 <= j < |ins|
      ensures HasOutput(ar', ins[j].prev.value)
    {
      assert ins[j].prev.value.txid in ar.txs;
    }
  }

  lemma FeeStaysOk(ar: Archive, ar': Archive, row: TxRow)
    requires FeeOk(ar, row) && SubMap(ar.txs, ar'.txs)
    requires !row.isCoinbase ==> PrevoutsStored(ar, row.inputs)
    ensures FeeOk(ar', row)
  {
    if !row.isCoinbase {
      InputTotalSame(ar, ar', row.inputs, |row.inputs|);
    }
  }

  lemma TxRowStaysOk(ar: Archive, ar': Archive, x: TxId)
    requires x in ar.txs && TxRowOk(ar, x) && SubMap(ar.txs, ar'.txs)
    ensures TxRowOk(ar', x)
  {
    FeeStaysOk(ar, ar', ar.txs[x]);
    if !ar.txs[x].isCoinbase {
      PrevoutsStayStored(ar, ar', ar.txs[x].inputs);
    }
  }

  // --- coins ---

  ghost predicate SpendOk(ar: Archive, op: OutPoint, sp: Spend) {
    && sp.block in ar.blocks && sp.txid in TxIdsOf(ar, sp.block)
    && sp.txid in ar.txs && !ar.txs[sp.txid].isCoinbase
    && sp.vin < |ar.txs[sp.txid].inputs| && ar.txs[sp.txid].inputs[sp.vin].prev == Some(op)
  }

  /** The foreign keys of utxo_state: the output, its creating occurrence and its
      spending input and occurrence are all stored. */
  ghost predicate CoinOk(ar: Archive, op: OutPoint, coin: Coin) {
    && HasOutput(ar, op)
    && coin.creation in ar.blocks && op.txid in TxIdsOf(ar, coin.creation)
    && (coin.spend.Some? ==> SpendOk(ar, op, coin.spend.value))
  }

  ghost predicate CoinsOk(ar: Archive, c: CoinSet) {
    forall op :: op in c ==> CoinOk(ar, op, c[op])
  }

  lemma CoinsBacked(ar: Archive, c: CoinSet)
    requires RowsOk(ar) && CoinsOk(ar, c)
    ensures Backed(ar, c)
  {
    forall op | op in c
      ensures HasOutput(ar, op) && Value(ar, op) >= 0
    {
      assert CoinOk(ar, op, c[op]);
      assert TxRowOk(ar, op.txid);
    }
  }

  /** Block occurrences only gain transactions. */
  ghost predicate OccurrencesGrow(ar: Archive, ar': Archive) {
    forall h, x :: x in TxIdsOf(ar, h) ==> x in TxIdsOf(ar', h)
  }

  lemma CoinStaysOk(ar: Archive, ar': Archive, op: OutPoint, coin: Coin)
    requires CoinOk(ar, op, coin)
    requires SubMap(ar.blocks, ar'.blocks) && SubMap(ar.txs, ar'.txs) && OccurrencesGrow(ar, ar')
    ensures CoinOk(ar', op, coin)
    ensures ActivityOf(ar, op, coin) == ActivityOf(ar', op, coin)
  {
  }

  // --- one transaction ---

  ghost predicate AddressStored(m: map<OutPoint, Address>, op: OutPoint, address: Address) {
    if address == "" then op !in m else op in m && m[op] == address
  }

  /** The tables hold exactly what the block says about this transaction. */
  ghost predicate Stored(ar: Archive, txn: Transaction) {
    && txn.txid in ar.txs
    && ar.txs[txn.txid] == RowOf(txn, ar.txs[txn.txid].fee)
    && forall i :: 0 <= i < |txn.outputs| ==> AddressStored(ar.outAddrs, OutPoint(txn.txid, i), txn.outputs[i].address)
  }

  lemma OccurGrows(ar: Archive, h: Hash, i: nat, txn: Transaction, row: TxRow)
    requires OccurOk(ar, h, i, txn.txid)
    ensures OccurrencesGrow(ar, ArchiveAfter(ar, h, i, txn, row))
    ensures txn.txid in TxIdsOf(ArchiveAfter(ar, h, i, txn, row), h)
  {
    var rows := TxIdsOf(ar, h);
    var ar' := ArchiveAfter(ar, h, i, txn, row);
    if i < |rows| {
      assert rows[i] in TxIdsOf(ar', h);
    } else {
      assert TxIdsOf(ar', h) == rows + [txn.txid];
    }
  }

  lemma NewRowOk(ar: Archive, c: CoinSet, h: Hash, i: nat, txn: Transaction, row: TxRow, genesis: bool)
    requires Backed(ar, c) && Acceptable(ar, c, h, i, txn, row, genesis) && txn.txid !in ar.txs
    requires WellShaped(row.isCoinbase, row.inputs, row.outputs)
    ensures TxRowOk(ArchiveAfter(ar, h, i, txn, row), txn.txid)
  {
    var ar' := ArchiveAfter(ar, h, i, txn, row);
    if !row.isCoinbase {
      assert PrevoutsStored(ar, row.inputs);
      PrevoutsStayStored(ar, ar', row.inputs);
    }
    FeeStaysOk(ar, ar', row);
  }

  lemma AddressRowsStayOk(ar: Archive, h: Hash, i: nat, txn: Transaction, row: TxRow)
    requires RowsOk(ar) && row.outputs == Bodies(txn.outputs)
    requires SubMap(ar.txs, ArchiveAfter(ar, h, i, txn, row).txs)
    ensures var ar' := ArchiveAfter(ar, h, i, txn, row);
            forall op :: op in ar'.outAddrs ==> AddressRowOk(ar', op)
  {
    var ar' := ArchiveAfter(ar, h, i, txn, row);
    AddressesShape(ar.outAddrs, txn.txid, txn.outputs, |txn.outputs|);
    forall op | op in ar'.outAddrs
      ensures AddressRowOk(ar', op)
    {
      if !Supplies(txn.txid, txn.outputs, |txn.outputs|, op) {
        assert AddressRowOk(ar, op);
      }
    }
  }

  lemma RowsStayOk(ar: Archive, c: CoinSet, h: Hash, i: nat, txn: Transaction, row: TxRow, genesis: bool)
    requires RowsOk(ar) && Backed(ar, c) && Acceptable(ar, c, h, i, txn, row, genesis)
    requires WellShaped(row.isCoinbase, row.inputs, row.outputs)
    ensures RowsOk(ArchiveAfter(ar, h, i, txn, row))
    ensures SubMap(ar.txs, ArchiveAfter(ar, h, i, txn, row).txs)
  {
    var ar' := ArchiveAfter(ar, h, i, txn, row);
    assert SubMap(ar.txs, ar'.txs);
    forall x | x in ar'.txs
      ensures TxRowOk(ar', x)
    {
      if x in ar.txs {
        TxRowStaysOk(ar, ar', x);
      } else {
        NewRowOk(ar, c, h, i, txn, row, genesis);
      }
    }
    AddressRowsStayOk(ar, h, i, txn, row);
  }

  lemma AddressesGrow(ar: Archive, h: Hash, i: nat, txn: Transaction, row: TxRow)
    requires RowsOk(ar)
    requires AddressesFit(ar.outAddrs, txn.txid, txn.outputs, txn.txid !in ar.txs, |txn.outputs|)
    ensures SubMap(ar.outAddrs, ArchiveAfter(ar, h, i, txn, row).outAddrs)
  {
    AddressesShape(ar.outAddrs, txn.txid, txn.outputs, |txn.outputs|);
    forall op | op in ar.outAddrs && Supplies(txn.txid, txn.outputs, |txn.outputs|, op)
      ensures ar.outAddrs[op] == txn.outputs[op.vout].address
    {
      assert op == OutPoint(txn.txid, op.vout);
      assert AddressFits(ar.outAddrs, OutPoint(txn.txid, op.vout), txn.outputs[op.vout].address, txn.txid !in ar.txs);
    }
  }

  lemma TransactionStored(ar: Archive, c: CoinSet, h: Hash, i: nat, txn: Transaction, row: TxRow, genesis: bool)
    requires RowsOk(ar) && Acceptable(ar, c, h, i, txn, row, genesis)
    ensures Stored(ArchiveAfter(ar, h, i, txn, row), txn)
  {
    var ar' := ArchiveAfter(ar, h, i, txn, row);
    AddressesShape(ar.outAddrs, txn.txid, txn.outputs, |txn.outputs|);
    forall v | 0 <= v < |txn.outputs|
      ensures AddressStored(ar'.outAddrs, OutPoint(txn.txid, v), txn.outputs[v].address)
    {
      var op := OutPoint(txn.txid, v);
      assert AddressFits(ar.outAddrs, op, txn.outputs[v].address, txn.txid !in ar.txs);
      if op in ar.outAddrs {
        assert AddressRowOk(ar, op);
      }
    }
  }

  lemma OtherStaysStored(ar: Archive, c: CoinSet, h: Hash, i: nat, txn: Transaction, row: TxRow, genesis: bool, other: Transaction)
    requires Acceptable(ar, c, h, i, txn, row, genesis) && Stored(ar, other) && other.txid != txn.txid
    ensures Stored(ArchiveAfter(ar, h, i, txn, row), other)
  {
    AddressesShape(ar.outAddrs, txn.txid, txn.outputs, |txn.outputs|);
  }

  lemma TxEffectCoin(c: CoinSet, h: Hash, txid: TxId, row: TxRow, genesis: bool, op: OutPoint)
    requires op in TxEffect(c, h, txid, row, genesis)
    ensures op !in c ==> op.txid == txid && op.vout < |row.outputs| && !Excluded(row.outputs[op.vout], genesis)
    ensures TxEffect(c, h, txid, row, genesis)[op].creation == if op in c then c[op].creation else h
    ensures var coin := TxEffect(c, h, txid, row, genesis)[op];
            var before := if op in c then c[op].spend else None;
            coin.spend == before
            || (before.None? && !row.isCoinbase && coin.spend.Some?
                && var sp := coin.spend.value;
                   sp.txid == txid && sp.block == h && sp.vin < |row.inputs| && row.inputs[sp.vin].prev == Some(op))
  {
    CreatesShape(c, h, txid, row.outputs, genesis, |row.outputs|);
    SpendsShape(Creates(c, h, txid, row.outputs, genesis, |row.outputs|), h, txid, row.inputs, |row.inputs|);
  }

  lemma TxEffectKeeps(c: CoinSet, h: Hash, txid: TxId, row: TxRow, genesis: bool, op: OutPoint)
    requires op in c
    ensures op in TxEffect(c, h, txid, row, genesis)
  {
    CreatesShape(c, h, txid, row.outputs, genesis, |row.outputs|);
    SpendsShape(Creates(c, h, txid, row.outputs, genesis, |row.outputs|), h, txid, row.inputs, |row.inputs|);
  }

  lemma CoinsStayOk(ar: Archive, c: CoinSet, h: Hash, i: nat, txn: Transaction, row: TxRow, genesis: bool)
    requires CoinsOk(ar, c) && Acceptable(ar, c, h, i, txn, row, genesis)
    requires h in ar.blocks && SubMap(ar.txs, ArchiveAfter(ar, h, i, txn, row).txs)
    ensures CoinsOk(ArchiveAfter(ar, h, i, txn, row), TxEffect(c, h, txn.txid, row, genesis))
  {
    var ar', c' := ArchiveAfter(ar, h, i, txn, row), TxEffect(c, h, txn.txid, row, genesis);
    OccurGrows(ar, h, i, txn, row);
    forall op | op in c'
      ensures CoinOk(ar', op, c'[op])
    {
      TxEffectCoin(c, h, txn.txid, row, genesis, op);
      if op in c {
        assert CoinOk(ar, op, c[op]);
        CoinStaysOk(ar, ar', op, c[op]);
      }
    }
  }

  ghost predicate Destination(ar: Archive, op: OutPoint, a: Address) {
    op in ar.outAddrs && ar.outAddrs[op] == a
  }

  /** An address the transaction does not pay gains and loses no output. */
  lemma DestinationsUntouched(ar: Archive, h: Hash, i: nat, txn: Transaction, row: TxRow, a: Address, op: OutPoint)
    requires AddressesFit(ar.outAddrs, txn.txid, txn.outputs, txn.txid !in ar.txs, |txn.outputs|)
    requires a !in OutAddresses(txn.outputs, |txn.outputs|)
    ensures Destination(ArchiveAfter(ar, h, i, txn, row), op, a) <==> Destination(ar, op, a)
    ensures Destination(ar, op, a) ==> !Supplies(txn.txid, txn.outputs, |txn.outputs|, op)
  {
    AddressesShape(ar.outAddrs, txn.txid, txn.outputs, |txn.outputs|);
    if Supplies(txn.txid, txn.outputs, |txn.outputs|, op) {
      assert txn.outputs[op.vout].address in OutAddresses(txn.outputs, |txn.outputs|);
      assert op == OutPoint(txn.txid, op.vout);
      assert AddressFits(ar.outAddrs, OutPoint(txn.txid, op.vout), txn.outputs[op.vout].address, txn.txid !in ar.txs);
    }
  }

  /** Whoever owns a coin that is created or spent is touched. */
  lemma ChangedCoinTouched(ar: Archive, c: CoinSet, h: Hash, i: nat, txn: Transaction, row: TxRow, genesis: bool, a: Address, op: OutPoint)
    requires RowsOk(ar) && Acceptable(ar, c, h, i, txn, row, genesis) && Destination(ar, op, a)
    requires var c' := TxEffect(c, h, txn.txid, row, genesis);
             op in c' && (op in c ==> c'[op] != c[op])
    ensures a in TouchedBy(ArchiveAfter(ar, h, i, txn, row), txn)
  {
    var ar', c' := ArchiveAfter(ar, h, i, txn, row), TxEffect(c, h, txn.txid, row, genesis);
    assert AddressRowOk(ar, op);
    TxEffectCoin(c, h, txn.txid, row, genesis, op);
    if op !in c {
      assert op == OutPoint(txn.txid, op.vout);
      assert AddressFits(ar.outAddrs, OutPoint(txn.txid, op.vout), txn.outputs[op.vout].address, txn.txid !in ar.txs);
      assert a in OutAddresses(txn.outputs, |txn.outputs|);
    } else {
      var vin := c'[op].spend.value.vin;
      AddressesShape(ar.outAddrs, txn.txid, txn.outputs, |txn.outputs|);
      if Supplies(txn.txid, txn.outputs, |txn.outputs|, op) {
        assert op == OutPoint(txn.txid, op.vout);
        assert AddressFits(ar.outAddrs, OutPoint(txn.txid, op.vout), txn.outputs[op.vout].address, txn.txid !in ar.txs);
      }
      assert txn.inputs[vin].prev.value in ar'.outAddrs && ar'.outAddrs[op] == a;
      assert a in InAddresses(ar'.outAddrs, txn.inputs, |txn.inputs|);
    }
  }

  lemma OwnedUntouched(ar: Archive, c: CoinSet, h: Hash, i: nat, txn: Transaction, row: TxRow, genesis: bool, a: Address, op: OutPoint)
    requires RowsOk(ar) && CoinsOk(ar, c) && Acceptable(ar, c, h, i, txn, row, genesis)
    requires SubMap(ar.txs, ArchiveAfter(ar, h, i, txn, row).txs)
    requires a !in TouchedBy(ArchiveAfter(ar, h, i, txn, row), txn)
    ensures var ar', c' := ArchiveAfter(ar, h, i, txn, row), TxEffect(c, h, txn.txid, row, genesis);
            OwnsAlike(ar, c, ar', c', a, op)
  {
    var ar', c' := ArchiveAfter(ar, h, i, txn, row), TxEffect(c, h, txn.txid, row, genesis);
    DestinationsUntouched(ar, h, i, txn, row, a, op);
    if Destination(ar, op, a) {
      if op in c' && (op in c ==> c'[op] != c[op]) {
        ChangedCoinTouched(ar, c, h, i, txn, row, genesis, a, op);
      }
      if op in c {
        TxEffectKeeps(c, h, txn.txid, row, genesis, op);
        OccurGrows(ar, h, i, txn, row);
        assert CoinOk(ar, op, c[op]);
        CoinStaysOk(ar, ar', op, c[op]);
      }
    }
  }

  /** An address the transaction neither pays nor spends from keeps its whole slice. */
  lemma SliceUntouched(ar: Archive, c: CoinSet, h: Hash, i: nat, txn: Transaction, row: TxRow, genesis: bool, a: Address)
    requires RowsOk(ar) && CoinsOk(ar, c) && Acceptable(ar, c, h, i, txn, row, genesis)
    requires SubMap(ar.txs, ArchiveAfter(ar, h, i, txn, row).txs)
    requires a !in TouchedBy(ArchiveAfter(ar, h, i, txn, row), txn)
    ensures SliceOf(ArchiveAfter(ar, h, i, txn, row), TxEffect(c, h, txn.txid, row, genesis), a) == SliceOf(ar, c, a)
  {
    var ar', c' := ArchiveAfter(ar, h, i, txn, row), TxEffect(c, h, txn.txid, row, genesis);
    forall op
      ensures OwnsAlike(ar, c, ar', c', a, op)
    {
      OwnedUntouched(ar, c, h, i, txn, row, genesis, a, op);
    }
    SliceEqual(ar, c, ar', c', a);
  }
}
