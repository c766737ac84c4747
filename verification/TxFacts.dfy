/** Acceptance of one transaction in closed form: ApplyTx succeeds on its inputs and
    outputs exactly when these quantified conditions hold, and its coin effect is
    then the fold of module Coins. */
module TxFacts {
  import opened Wrappers
  import opened Int64
  import opened Chain
  import opened Tables
  import opened Coins
  import opened TxSpec

  // --- sums ---

  ghost function OutputTotal(outs: seq<OutBody>, k: nat): int
    requires k <= |outs|
  {
    if k == 0 then 0 else OutputTotal(outs, k - 1) + outs[k - 1].value
  }

  ghost function InputTotal(ar: Archive, ins: seq<Input>, k: nat): int
    requires k <= |ins|
  {
    if k == 0 then 0
    else InputTotal(ar, ins, k - 1) + if ins[k - 1].prev.Some? then Value(ar, ins[k - 1].prev.value) else 0
  }

  ghost predicate NonNegativeOutputs(outs: seq<OutBody>) {
    forall i :: 0 <= i < |outs| ==> outs[i].value >= 0
  }

  lemma {:induction false} OutputTotalMonotone(outs: seq<OutBody>, j: nat, k: nat)
    requires j <= k <= |outs| && NonNegativeOutputs(outs)
    ensures 0 <= OutputTotal(outs, j) <= OutputTotal(outs, k)
  {
    if k > 0 {
      if j < k {
        OutputTotalMonotone(outs, j, k - 1);
      } else {
        OutputTotalMonotone(outs, k - 1, k - 1);
      }
    }
  }

  lemma {:induction false} OutputSumIsTotal(outs: seq<OutBody>, k: nat)
    requires k <= |outs|
    ensures OutputSum(outs, k).Ok? ==> OutputSum(outs, k).value == OutputTotal(outs, k)
    ensures NonNegativeOutputs(outs) ==> (OutputSum(outs, k).Ok? <==> OutputTotal(outs, k) <= MAX_INT64)
  {
    if k > 0 {
      OutputSumIsTotal(outs, k - 1);
      if NonNegativeOutputs(outs) {
        OutputTotalMonotone(outs, k - 1, k);
      }
    }
  }

  // --- inputs ---

  ghost predicate Spendable(c: CoinSet, op: OutPoint, txid: TxId, vin: nat) {
    op in c && (c[op].spend.Some? ==> c[op].spend.value.txid == txid && c[op].spend.value.vin == vin)
  }

  /** Every previous output exists and is unspent, or already spent by this very input. */
  ghost predicate InputsSpendable(c: CoinSet, txid: TxId, ins: seq<Input>, k: nat)
    requires k <= |ins|
  {
    forall j :: 0 <= j < k ==> ins[j].prev.Some? && Spendable(c, ins[j].prev.value, txid, j)
  }

  ghost predicate PrevoutsDistinct(ins: seq<Input>, k: nat)
    requires k <= |ins|
  {
    forall i, j :: 0 <= i < j < k ==> ins[i].prev != ins[j].prev
  }

  /** Every coin's output is stored, with the non-negative value the schema demands. */
  ghost predicate Backed(ar: Archive, c: CoinSet) {
    forall op :: op in c ==> HasOutput(ar, op) && Value(ar, op) >= 0
  }

  lemma {:induction false} InputTotalMonotone(ar: Archive, c: CoinSet, txid: TxId, ins: seq<Input>, j: nat, k: nat)
    requires j <= k <= |ins| && Backed(ar, c) && InputsSpendable(c, txid, ins, k)
    ensures 0 <= InputTotal(ar, ins, j) <= InputTotal(ar, ins, k)
  {
    if k > 0 {
      if j < k {
        InputTotalMonotone(ar, c, txid, ins, j, k - 1);
      } else {
        InputTotalMonotone(ar, c, txid, ins, k - 1, k - 1);
      }
    }
  }

  lemma {:induction false} InputSumIsTotal(ar: Archive, c: CoinSet, txid: TxId, ins: seq<Input>, k: nat)
    requires k <= |ins| && Backed(ar, c)
    ensures InputSum(ar, c, txid, ins, k).Ok?
            <==> InputsSpendable(c, txid, ins, k) && InputTotal(ar, ins, k) <= MAX_INT64
    ensures InputSum(ar, c, txid, ins, k).Ok? ==> InputSum(ar, c, txid, ins, k).value == InputTotal(ar, ins, k)
    ensures InputSum(ar, c, txid, ins, k).Ok? ==> InputTotal(ar, ins, k) >= 0
  {
    if k > 0 {
      InputSumIsTotal(ar, c, txid, ins, k - 1);
      if InputsSpendable(c, txid, ins, k) {
        InputTotalMonotone(ar, c, txid, ins, k - 1, k);
      }
    }
  }

  lemma {:induction false} SpendsShape(c: CoinSet, h: Hash, txid: TxId, ins: seq<Input>, k: nat)
    requires k <= |ins|
    ensures Spends(c, h, txid, ins, k).Keys == c.Keys
    ensures forall op :: op in c ==> Spends(c, h, txid, ins, k)[op].creation == c[op].creation
    ensures forall op :: op in c && c[op].spend.Some? ==> Spends(c, h, txid, ins, k)[op] == c[op]
    ensures forall op :: op in c && c[op].spend.None? && Spends(c, h, txid, ins, k)[op].spend.Some? ==>
              var sp := Spends(c, h, txid, ins, k)[op].spend.value;
              sp.txid == txid && sp.block == h && sp.vin < k && ins[sp.vin].prev == Some(op)
    ensures forall j :: 0 <= j < k && ins[j].prev.Some? && ins[j].prev.value in c ==>
              Spends(c, h, txid, ins, k)[ins[j].prev.value].spend.Some?
  {
    if k > 0 {
      SpendsShape(c, h, txid, ins, k - 1);
    }
  }

  /** Marking inputs spent succeeds exactly on spendable, pairwise distinct prevouts:
      checkPrevout alone would let a transaction name the same prevout twice. */
  lemma {:induction false} MarkInputsIff(c: CoinSet, h: Hash, txid: TxId, ins: seq<Input>, k: nat)
    requires k <= |ins|
    ensures MarkInputs(c, h, txid, ins, k).Ok? <==> InputsSpendable(c, txid, ins, k) && PrevoutsDistinct(ins, k)
    ensures MarkInputs(c, h, txid, ins, k).Ok? ==> MarkInputs(c, h, txid, ins, k).value == Spends(c, h, txid, ins, k)
  {
    if k > 0 {
      hide MarkChecked, Spends;
      MarkInputsIff(c, h, txid, ins, k - 1);
      if InputsSpendable(c, txid, ins, k - 1) && PrevoutsDistinct(ins, k - 1) && ins[k - 1].prev.Some? {
        MarkInputStep(c, h, txid, ins, k);
      }
    }
  }

  /** Before input k - 1 is marked, its prevout is as it was unless an earlier input
      named it too. */
  lemma NextPrevout(c: CoinSet, h: Hash, txid: TxId, ins: seq<Input>, k: nat)
    requires 0 < k <= |ins| && ins[k - 1].prev.Some? && PrevoutsDistinct(ins, k - 1) && InputsSpendable(c, txid, ins, k - 1)
    ensures var before, op := Spends(c, h, txid, ins, k - 1), ins[k - 1].prev.value;
            && (op in before <==> op in c)
            && (op in c && PrevoutsDistinct(ins, k) ==> before[op] == c[op])
            && (!PrevoutsDistinct(ins, k) ==> op in c && before[op].spend.Some? && !(before[op].spend.value.txid == txid && before[op].spend.value.vin == k - 1))
  {
    SpendsShape(c, h, txid, ins, k - 1);
    var prev, before := ins[k - 1].prev, Spends(c, h, txid, ins, k - 1);
    if !PrevoutsDistinct(ins, k) {
      var i :| 0 <= i < k - 1 && ins[i].prev == prev;
      assert Spendable(c, ins[i].prev.value, txid, i);
    }
  }

  lemma MarkInputStep(c: CoinSet, h: Hash, txid: TxId, ins: seq<Input>, k: nat)
    requires 0 < k <= |ins| && ins[k - 1].prev.Some?
    requires InputsSpendable(c, txid, ins, k - 1) && PrevoutsDistinct(ins, k - 1)
    ensures var before := Spends(c, h, txid, ins, k - 1);
            var op, sp := ins[k - 1].prev.value, Spend(txid, k - 1, h);
            && (MarkChecked(before, op, sp).Ok? <==> InputsSpendable(c, txid, ins, k) && PrevoutsDistinct(ins, k))
            && (MarkChecked(before, op, sp).Ok? ==> MarkChecked(before, op, sp).value == Spends(c, h, txid, ins, k))
  {
    hide PrevoutsDistinct;
    NextPrevout(c, h, txid, ins, k);
  }

  // --- outputs ---

  ghost predicate Creatable(c: CoinSet, h: Hash, txid: TxId, outs: seq<OutBody>, genesis: bool, k: nat)
    requires k <= |outs|
  {
    forall i :: 0 <= i < k ==> CreatableAt(c, h, OutPoint(txid, i), outs[i], genesis)
  }

  ghost predicate CreatableAt(c: CoinSet, h: Hash, op: OutPoint, out: OutBody, genesis: bool) {
    !Excluded(out, genesis) && op in c ==> c[op].creation == h
  }

  lemma {:induction false} CreatesShape(c: CoinSet, h: Hash, txid: TxId, outs: seq<OutBody>, genesis: bool, k: nat)
    requires k <= |outs|
    ensures forall op :: op in c ==> op in Creates(c, h, txid, outs, genesis, k) && Creates(c, h, txid, outs, genesis, k)[op] == c[op]
    ensures forall op :: op in Creates(c, h, txid, outs, genesis, k) && op !in c ==>
              op.txid == txid && op.vout < k && !Excluded(outs[op.vout], genesis)
              && Creates(c, h, txid, outs, genesis, k)[op] == Coin(h, None)
    ensures forall i :: 0 <= i < k && !Excluded(outs[i], genesis) ==> OutPoint(txid, i) in Creates(c, h, txid, outs, genesis, k)
  {
    if k > 0 {
      CreatesShape(c, h, txid, outs, genesis, k - 1);
    }
  }

  /** The destination rows agree with what the block supplies, or can be made to. */
  ghost predicate AddressesFit(m: map<OutPoint, Address>, txid: TxId, outs: seq<Output>, isNew: bool, k: nat)
    requires k <= |outs|
  {
    forall i :: 0 <= i < k ==> AddressFits(m, OutPoint(txid, i), outs[i].address, isNew)
  }

  ghost predicate AddressFits(m: map<OutPoint, Address>, op: OutPoint, address: Address, isNew: bool) {
    op in m ==> if address != "" then m[op] == address else isNew
  }

  function AddressesAfter(m: map<OutPoint, Address>, txid: TxId, outs: seq<Output>, k: nat): map<OutPoint, Address>
    requires k <= |outs|
  {
    if k == 0 then m
    else
      var p := AddressesAfter(m, txid, outs, k - 1);
      if outs[k - 1].address == "" then p else p[OutPoint(txid, k - 1) := outs[k - 1].address]
  }

  predicate Supplies(txid: TxId, outs: seq<Output>, k: nat, op: OutPoint)
    requires k <= |outs|
  {
    op.txid == txid && op.vout < k && outs[op.vout].address != ""
  }

  lemma {:induction false} AddressesShape(m: map<OutPoint, Address>, txid: TxId, outs: seq<Output>, k: nat)
    requires k <= |outs|
    ensures forall op :: Supplies(txid, outs, k, op) ==>
              op in AddressesAfter(m, txid, outs, k) && AddressesAfter(m, txid, outs, k)[op] == outs[op.vout].address
    ensures forall op :: !Supplies(txid, outs, k, op) ==>
              (op in AddressesAfter(m, txid, outs, k) <==> op in m)
              && (op in m ==> AddressesAfter(m, txid, outs, k)[op] == m[op])
  {
    if k > 0 {
      AddressesShape(m, txid, outs, k - 1);
      forall op
        ensures Supplies(txid, outs, k, op)
                <==> Supplies(txid, outs, k - 1, op) || (op == OutPoint(txid, k - 1) && outs[k - 1].address != "")
      {
      }
    }
  }

  lemma {:induction false} PersistOutputsIff(s: OutStep, h: Hash, txid: TxId, outs: seq<Output>, genesis: bool, isNew: bool, k: nat)
    requires k <= |outs|
    ensures PersistOutputs(s, h, txid, outs, genesis, isNew, k).Ok?
            <==> AddressesFit(s.outAddrs, txid, outs, isNew, k) && Creatable(s.coins, h, txid, Bodies(outs), genesis, k)
    ensures PersistOutputs(s, h, txid, outs, genesis, isNew, k).Ok? ==>
              PersistOutputs(s, h, txid, outs, genesis, isNew, k).value
              == OutStep(AddressesAfter(s.outAddrs, txid, outs, k), Creates(s.coins, h, txid, Bodies(outs), genesis, k))
  {
    hide PersistOutput, AddressFits, CreatableAt, Excluded;
    if k > 0 {
      PersistOutputsIff(s, h, txid, outs, genesis, isNew, k - 1);
      if PersistOutputs(s, h, txid, outs, genesis, isNew, k - 1).Ok? {
        PersistOutputStep(s, h, txid, outs, genesis, isNew, k);
      }
    }
  }

  lemma PersistAddressStep(m: map<OutPoint, Address>, txid: TxId, outs: seq<Output>, isNew: bool, k: nat)
    requires 0 < k <= |outs|
    ensures var before, op, address := AddressesAfter(m, txid, outs, k - 1), OutPoint(txid, k - 1), outs[k - 1].address;
            var r := PersistAddress(before, op, address, isNew);
            && (r.Ok? <==> AddressFits(m, op, address, isNew))
            && (r.Ok? ==> r.value == AddressesAfter(m, txid, outs, k))
  {
    AddressesShape(m, txid, outs, k - 1);
    var op, before := OutPoint(txid, k - 1), AddressesAfter(m, txid, outs, k - 1);
    assert !Supplies(txid, outs, k - 1, op);
    if op in m && before[op] == outs[k - 1].address {
      assert before[op := outs[k - 1].address] == before;
    }
  }

  lemma CreateStep(c: CoinSet, h: Hash, txid: TxId, outs: seq<OutBody>, genesis: bool, k: nat)
    requires 0 < k <= |outs|
    ensures var before, op := Creates(c, h, txid, outs, genesis, k - 1), OutPoint(txid, k - 1);
            var r := if Excluded(outs[k - 1], genesis) then Ok(before) else CreateChecked(before, op, h);
            && (r.Ok? <==> CreatableAt(c, h, op, outs[k - 1], genesis))
            && (r.Ok? ==> r.value == Creates(c, h, txid, outs, genesis, k))
  {
    hide Excluded;
    CreatesShape(c, h, txid, outs, genesis, k - 1);
  }

  lemma PersistOutputStep(s: OutStep, h: Hash, txid: TxId, outs: seq<Output>, genesis: bool, isNew: bool, k: nat)
    requires 0 < k <= |outs|
    ensures var p := OutStep(AddressesAfter(s.outAddrs, txid, outs, k - 1), Creates(s.coins, h, txid, Bodies(outs), genesis, k - 1));
            var op, out := OutPoint(txid, k - 1), outs[k - 1];
            var r := PersistOutput(p, h, op, out, genesis, isNew);
            && (r.Ok? <==> AddressFits(s.outAddrs, op, out.address, isNew) && CreatableAt(s.coins, h, op, out.body, genesis))
            && (r.Ok? ==> r.value == OutStep(AddressesAfter(s.outAddrs, txid, outs, k), Creates(s.coins, h, txid, Bodies(outs), genesis, k)))
  {
    hide Excluded, CreateChecked, PersistAddress, AddressesAfter, Creates, CreatableAt, AddressFits;
    PersistAddressStep(s.outAddrs, txid, outs, isNew, k);
    CreateStep(s.coins, h, txid, Bodies(outs), genesis, k);
  }

  // --- the whole transaction ---

  /** The coin-set half of acceptance, in terms of the coins before the transaction. */
  ghost predicate TxValid(c: CoinSet, h: Hash, txid: TxId, row: TxRow, genesis: bool) {
    && Creatable(c, h, txid, row.outputs, genesis, |row.outputs|)
    && (!row.isCoinbase ==>
          InputsSpendable(c, txid, row.inputs, |row.inputs|) && PrevoutsDistinct(row.inputs, |row.inputs|))
  }

  lemma SpendableAfterCreates(c: CoinSet, h: Hash, txid: TxId, row: TxRow, genesis: bool)
    requires InputsSpendable(c, txid, row.inputs, |row.inputs|)
    ensures InputsSpendable(Creates(c, h, txid, row.outputs, genesis, |row.outputs|), txid, row.inputs, |row.inputs|)
  {
    CreatesShape(c, h, txid, row.outputs, genesis, |row.outputs|);
  }

  /** The fee an accepted row carries: what its inputs are worth minus what its
      outputs are worth, or none for a coinbase. */
  ghost predicate FeeOk(ar: Archive, row: TxRow) {
    if row.isCoinbase then row.fee == None
    else
      var inTotal, outTotal := InputTotal(ar, row.inputs, |row.inputs|), OutputTotal(row.outputs, |row.outputs|);
      && inTotal <= MAX_INT64 && outTotal <= MAX_INT64
      && 0 <= inTotal - outTotal
      && row.fee.Some? && row.fee.value == inTotal - outTotal
  }

  lemma TxFeeIff(ar: Archive, c: CoinSet, txn: Transaction, row: TxRow)
    requires Backed(ar, c) && NonNegativeOutputs(Bodies(txn.outputs))
    requires row == RowOf(txn, row.fee)
    ensures (TxFee(ar, c, txn) == Ok(row.fee))
            <==> FeeOk(ar, row) && (!row.isCoinbase ==> InputsSpendable(c, txn.txid, row.inputs, |row.inputs|))
  {
    if !txn.isCoinbase {
      InputSumIsTotal(ar, c, txn.txid, txn.inputs, |txn.inputs|);
      OutputSumIsTotal(row.outputs, |row.outputs|);
      OutputTotalMonotone(row.outputs, 0, |row.outputs|);
      if InputsSpendable(c, txn.txid, row.inputs, |row.inputs|) {
        InputTotalMonotone(ar, c, txn.txid, row.inputs, 0, |row.inputs|);
      }
    }
  }

  /** Where the transaction sits in the block's occurrence rows. */
  ghost predicate OccurOk(ar: Archive, h: Hash, i: nat, txid: TxId) {
    var rows := TxIdsOf(ar, h);
    if i < |rows| then rows[i] == txid else txid !in rows
  }

  /** Acceptance of a transaction whose row would be `row`. */
  ghost predicate Acceptable(ar: Archive, c: CoinSet, h: Hash, i: nat, txn: Transaction, row: TxRow, genesis: bool) {
    && row == RowOf(txn, row.fee)
    && FeeOk(ar, row)
    && TxValid(c, h, txn.txid, row, genesis)
    && OccurOk(ar, h, i, txn.txid)
    && NonNegativeOutputs(row.outputs)
    && (if txn.txid in ar.txs then ar.txs[txn.txid] == row else WellFormedHash(txn.txid))
    && AddressesFit(ar.outAddrs, txn.txid, txn.outputs, txn.txid !in ar.txs, |txn.outputs|)
  }

  function OccurAfter(ar: Archive, h: Hash, i: nat, txid: TxId): Archive {
    var rows := TxIdsOf(ar, h);
    if i < |rows| then ar else ar.(blockTxs := ar.blockTxs[h := rows + [txid]])
  }

  /** The tables after an accepted transaction. */
  function ArchiveAfter(ar: Archive, h: Hash, i: nat, txn: Transaction, row: TxRow): Archive {
    var ar1 := OccurAfter(ar, h, i, txn.txid);
    Archive(ar.blocks, ar1.blockTxs, ar.txs[txn.txid := row], AddressesAfter(ar.outAddrs, txn.txid, txn.outputs, |txn.outputs|))
  }

  function TouchedBy(ar: Archive, txn: Transaction): set<Address> {
    OutAddresses(txn.outputs, |txn.outputs|)
    + if txn.isCoinbase then {} else InAddresses(ar.outAddrs, txn.inputs, |txn.inputs|)
  }

  lemma ApplyTxOnlyIf(ar: Archive, c: CoinSet, h: Hash, i: nat, txn: Transaction, genesis: bool)
    requires Backed(ar, c)
    requires forall x :: x in ar.txs ==> NonNegativeOutputs(ar.txs[x].outputs)
    requires ApplyTx(ar, c, h, i, txn, genesis).Ok?
    ensures var s := ApplyTx(ar, c, h, i, txn, genesis).value;
            var row := RowOf(txn, s.fee);
            && Acceptable(ar, c, h, i, txn, row, genesis)
            && s.ar == ArchiveAfter(ar, h, i, txn, row)
            && s.coins == TxEffect(c, h, txn.txid, row, genesis)
            && s.touched == TouchedBy(s.ar, txn)
  {
    hide Persist, TxFee, PersistOutputs, MarkInputs, Creates, Spends, AddressesAfter, FeeOk, OccurOk, NonNegativeOutputs, InAddresses, OutAddresses;
    var s := ApplyTx(ar, c, h, i, txn, genesis).value;
    var row := RowOf(txn, s.fee);
    var isNew := txn.txid !in ar.txs;
    PersistOk(ar, h, i, txn.txid, row);
    TxFeeIff(ar, c, txn, row);
    var ar1 := Persist(ar, h, i, txn.txid, row).value;
    PersistOutputsIff(OutStep(ar1.outAddrs, c), h, txn.txid, txn.outputs, genesis, isNew, |txn.outputs|);
    if !txn.isCoinbase {
      MarkInputsIff(Creates(c, h, txn.txid, row.outputs, genesis, |row.outputs|), h, txn.txid, txn.inputs, |txn.inputs|);
    }
  }

  lemma PersistOk(ar: Archive, h: Hash, i: nat, txid: TxId, row: TxRow)
    requires forall x :: x in ar.txs ==> NonNegativeOutputs(ar.txs[x].outputs)
    ensures Persist(ar, h, i, txid, row).Ok?
            <==> OccurOk(ar, h, i, txid) && NonNegativeOutputs(row.outputs)
                 && (if txid in ar.txs then ar.txs[txid] == row else WellFormedHash(txid))
    ensures Persist(ar, h, i, txid, row).Ok? ==>
              Persist(ar, h, i, txid, row).value
              == OccurAfter(ar, h, i, txid).(txs := ar.txs[txid := row])
  {
    if txid in ar.txs && ar.txs[txid] == row {
      assert ar.txs[txid := row] == ar.txs;
    }
  }

  lemma ApplyTxIf(ar: Archive, c: CoinSet, h: Hash, i: nat, txn: Transaction, row: TxRow, genesis: bool)
    requires Backed(ar, c)
    requires forall x :: x in ar.txs ==> NonNegativeOutputs(ar.txs[x].outputs)
    requires Acceptable(ar, c, h, i, txn, row, genesis)
    ensures ApplyTx(ar, c, h, i, txn, genesis).Ok? && ApplyTx(ar, c, h, i, txn, genesis).value.fee == row.fee
  {
    hide Persist, TxFee, PersistOutputs, MarkInputs, Creates, Spends, AddressesAfter, FeeOk, OccurOk, NonNegativeOutputs, InAddresses, OutAddresses;
    var isNew := txn.txid !in ar.txs;
    TxFeeIff(ar, c, txn, row);
    PersistOk(ar, h, i, txn.txid, row);
    var ar1 := Persist(ar, h, i, txn.txid, row).value;
    PersistOutputsIff(OutStep(ar1.outAddrs, c), h, txn.txid, txn.outputs, genesis, isNew, |txn.outputs|);
    if !txn.isCoinbase {
      SpendableAfterCreates(c, h, txn.txid, row, genesis);
      MarkInputsIff(Creates(c, h, txn.txid, row.outputs, genesis, |row.outputs|), h, txn.txid, txn.inputs, |txn.inputs|);
    }
  }
}
