/** A block read back from the stored tables, and why a store that only holds a prefix
    of the chain it came from accepts its transactions. */
module Rebuild {
  import opened Wrappers
  import opened Chain
  import opened Tables
  import opened Coins
  import opened TxSpec
  import opened TxFacts
  import opened Integrity
  import opened Determined

  const NO_ROW := TxRow("", false, None, [], [])

  function StoredRow(ar: Archive, x: TxId): TxRow {
    if x in ar.txs then ar.txs[x] else NO_ROW
  }

  function StoredDestination(ar: Archive, op: OutPoint): Address {
    if op in ar.outAddrs then ar.outAddrs[op] else ""
  }

  function RebuiltOutputs(ar: Archive, x: TxId): (r: seq<Output>)
    ensures Bodies(r) == StoredRow(ar, x).outputs
  {
    var outs := StoredRow(ar, x).outputs;
    seq(|outs|, i requires 0 <= i < |outs| => Output(outs[i], StoredDestination(ar, OutPoint(x, i))))
  }

  function RebuiltTx(ar: Archive, x: TxId): Transaction {
    var row := StoredRow(ar, x);
    Transaction(x, row.meta, row.isCoinbase, row.inputs, RebuiltOutputs(ar, x))
  }

  /** The block Core delivered, as far as the tables remember it. */
  function RebuiltBlock(ar: Archive, h: Hash): Block
    requires h in ar.blocks
  {
    var row, ids := ar.blocks[h], TxIdsOf(ar, h);
    Block(h, row.height, row.prev, row.header, row.txCount, seq(|ids|, i requires 0 <= i < |ids| => RebuiltTx(ar, ids[i])))
  }

  /** ar holds nothing that the reference tables do not hold in the same form. */
  ghost predicate Copy(ar: Archive, ref: Archive) {
    && SubMap(ar.txs, ref.txs)
    && forall op: OutPoint :: op.txid in ar.txs ==> SameDestination(ar, ref, op)
  }

  // --- one transaction ---

  lemma PrevoutsFromCoins(ar: Archive, c: CoinSet, txid: TxId, ins: seq<Input>)
    requires CoinsOk(ar, c) && InputsSpendable(c, txid, ins, |ins|)
    ensures PrevoutsStored(ar, ins)
  {
    forall j | 0 <= j < |ins|
      ensures ins[j].prev.Some? && HasOutput(ar, ins[j].prev.value)
    {
      assert Spendable(c, ins[j].prev.value, txid, j);
      assert CoinOk(ar, ins[j].prev.value, c[ins[j].prev.value]);
    }
  }

  lemma FeeCarriesOver(ref: Archive, ar: Archive, c: CoinSet, x: TxId)
    requires RowsOk(ref) && CoinsOk(ar, c) && SubMap(ar.txs, ref.txs) && x in ref.txs
    requires !ref.txs[x].isCoinbase ==> InputsSpendable(c, x, ref.txs[x].inputs, |ref.txs[x].inputs|)
    ensures FeeOk(ar, ref.txs[x])
  {
    var row := ref.txs[x];
    assert TxRowOk(ref, x);
    if !row.isCoinbase {
      PrevoutsFromCoins(ar, c, x, row.inputs);
      InputTotalSame(ar, ref, row.inputs, |row.inputs|);
    }
  }

  lemma RebuiltAddressesFit(ref: Archive, ar: Archive, x: TxId)
    requires RowsOk(ref) && RowsOk(ar) && Copy(ar, ref) && x in ref.txs
    ensures AddressesFit(ar.outAddrs, x, RebuiltOutputs(ref, x), x !in ar.txs, |RebuiltOutputs(ref, x)|)
  {
    var outs := RebuiltOutputs(ref, x);
    forall i | 0 <= i < |outs|
      ensures AddressFits(ar.outAddrs, OutPoint(x, i), outs[i].address, x !in ar.txs)
    {
      var op := OutPoint(x, i);
      if op in ar.outAddrs {
        assert AddressRowOk(ar, op);
        assert SameDestination(ar, ref, op);
        assert AddressRowOk(ref, op);
      }
    }
  }

  lemma RebuiltAcceptable(ref: Archive, ar: Archive, c: CoinSet, h: Hash, i: nat, x: TxId, genesis: bool)
    requires RowsOk(ref) && RowsOk(ar) && CoinsOk(ar, c) && Copy(ar, ref) && x in ref.txs
    requires TxValid(c, h, x, ref.txs[x], genesis) && OccurOk(ar, h, i, x)
    ensures Acceptable(ar, c, h, i, RebuiltTx(ref, x), ref.txs[x], genesis)
  {
    hide FeeOk, TxValid, OccurOk, AddressesFit;
    assert TxRowOk(ref, x);
    ValidInputs(c, h, x, ref.txs[x], genesis);
    FeeCarriesOver(ref, ar, c, x);
    RebuiltAddressesFit(ref, ar, x);
  }

  lemma ValidInputs(c: CoinSet, h: Hash, x: TxId, row: TxRow, genesis: bool)
    requires TxValid(c, h, x, row, genesis)
    ensures !row.isCoinbase ==> InputsSpendable(c, x, row.inputs, |row.inputs|)
  {
  }

  lemma StaysCopy(ref: Archive, ar: Archive, h: Hash, i: nat, x: TxId)
    requires RowsOk(ref) && RowsOk(ar) && Copy(ar, ref) && x in ref.txs
    ensures Copy(ArchiveAfter(ar, h, i, RebuiltTx(ref, x), ref.txs[x]), ref)
  {
    var txn := RebuiltTx(ref, x);
    var ar' := ArchiveAfter(ar, h, i, txn, ref.txs[x]);
    AddressesShape(ar.outAddrs, x, txn.outputs, |txn.outputs|);
    forall op: OutPoint | op.txid in ar'.txs
      ensures SameDestination(ar', ref, op)
    {
      CopiedDestination(ref, ar, x, op);
    }
  }

  lemma CopiedDestination(ref: Archive, ar: Archive, x: TxId, op: OutPoint)
    requires RowsOk(ref) && RowsOk(ar) && Copy(ar, ref) && x in ref.txs && (op.txid in ar.txs || op.txid == x)
    ensures var outs := RebuiltOutputs(ref, x);
            var m := AddressesAfter(ar.outAddrs, x, outs, |outs|);
            && (op in m <==> op in ref.outAddrs) && (op in m ==> m[op] == ref.outAddrs[op])
  {
    var outs := RebuiltOutputs(ref, x);
    AddressesShape(ar.outAddrs, x, outs, |outs|);
    assert op in ref.outAddrs ==> AddressRowOk(ref, op);
    assert op in ar.outAddrs ==> AddressRowOk(ar, op);
    if op.txid in ar.txs {
      assert SameDestination(ar, ref, op);
    }
    if op.txid == x && op.vout < |outs| {
      assert outs[op.vout].address == StoredDestination(ref, OutPoint(x, op.vout));
      assert OutPoint(x, op.vout) == op;
    }
  }
}
