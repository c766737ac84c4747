/** What one pass of applyTransaction does to the tables (internal/store/apply.go). */
module TxSpec {
  import opened Wrappers
  import opened Errors
  import opened Int64
  import opened Chain
  import opened Tables
  import opened Coins

  function CheckPrevout(ar: Archive, c: CoinSet, op: OutPoint, txid: TxId, vin: nat): Result<int64, Error> {
    if op !in c || !HasOutput(ar, op) then Err(MissingPrevout)
    else
      match c[op].spend
      case None => Ok(Value(ar, op))
      case Some(sp) => if sp.txid == txid && sp.vin == vin then Ok(Value(ar, op)) else Err(DoubleSpend)
  }

  function InputSum(ar: Archive, c: CoinSet, txid: TxId, ins: seq<Input>, k: nat): Result<int64, Error>
    requires k <= |ins|
  {
    if k == 0 then Ok(0)
    else
      var sum :- InputSum(ar, c, txid, ins, k - 1);
      if ins[k - 1].prev.None? then Err(NullPreviousOut)
      else
        var value :- CheckPrevout(ar, c, ins[k - 1].prev.value, txid, k - 1);
        var next := AddChecked(sum, value);
        if next.None? then Err(AmountOverflow) else Ok(next.value)
  }

  function OutputSum(outs: seq<OutBody>, k: nat): Result<int64, Error>
    requires k <= |outs|
  {
    if k == 0 then Ok(0)
    else
      var sum :- OutputSum(outs, k - 1);
      var next := AddChecked(sum, outs[k - 1].value);
      if next.None? then Err(AmountOverflow) else Ok(next.value)
  }

  function TxFee(ar: Archive, c: CoinSet, txn: Transaction): Result<Option<int64>, Error> {
    if txn.isCoinbase then Ok(None)
    else
      var inSum :- InputSum(ar, c, txn.txid, txn.inputs, |txn.inputs|);
      var outSum :- OutputSum(Bodies(txn.outputs), |txn.outputs|);
      var fee := Wrap(inSum - outSum);
      if fee < 0 then Err(NegativeFee) else Ok(Some(fee))
  }

  function RowOf(txn: Transaction, fee: Option<int64>): TxRow {
    TxRow(txn.meta, txn.isCoinbase, fee, txn.inputs, Bodies(txn.outputs))
  }

  /** The transactions row alone, before inputs and outputs are compared. */
  predicate SameHeader(a: TxRow, b: TxRow) {
    a.meta == b.meta && a.isCoinbase == b.isCoinbase && a.fee == b.fee
  }

  /** Insert or verify the block_transactions row (h, i). */
  function Occur(ar: Archive, h: Hash, i: nat, txid: TxId): Result<Archive, Error> {
    var rows := TxIdsOf(ar, h);
    if i < |rows| then
      if rows[i] == txid then Ok(ar) else Err(ImmutableConflict)
    else if txid in rows then Err(DatabaseConstraint)
    else Ok(ar.(blockTxs := ar.blockTxs[h := rows + [txid]]))
  }

  /** Insert or verify the transaction's own rows. */
  function Persist(ar: Archive, h: Hash, i: nat, txid: TxId, row: TxRow): Result<Archive, Error> {
    if txid in ar.txs then
      if !SameHeader(ar.txs[txid], row) then Err(ImmutableConflict)
      else
        var ar1 :- Occur(ar, h, i, txid);
        if ar.txs[txid] != row then Err(ImmutableConflict) else Ok(ar1)
    else if !WellFormedHash(txid) then Err(DatabaseConstraint)
    else
      var ar1 :- Occur(ar, h, i, txid);
      if exists j :: 0 <= j < |row.outputs| && row.outputs[j].value < 0 then Err(DatabaseConstraint)
      else Ok(ar1.(txs := ar1.txs[txid := row]))
  }

  /** Insert or verify the destination row. An output that was stored without a
      destination may gain one here; one stored with a destination may not lose it. */
  function PersistAddress(m: map<OutPoint, Address>, op: OutPoint, address: Address, isNew: bool)
    : Result<map<OutPoint, Address>, Error>
  {
    if address != "" then
      if op in m then if m[op] == address then Ok(m) else Err(ImmutableConflict)
      else Ok(m[op := address])
    else if !isNew && op in m then Err(ImmutableConflict)
    else Ok(m)
  }

  function CreateChecked(c: CoinSet, op: OutPoint, h: Hash): Result<CoinSet, Error> {
    if op in c && c[op].creation != h then Err(ImmutableConflict) else Ok(Create(c, op, h))
  }

  function MarkChecked(c: CoinSet, op: OutPoint, sp: Spend): Result<CoinSet, Error> {
    if op !in c then Err(RowVanished)
    else if c[op].spend.Some? && (c[op].spend.value.txid != sp.txid || c[op].spend.value.vin != sp.vin) then Err(DoubleSpend)
    else Ok(MarkSpent(c, op, sp))
  }

  datatype OutStep = OutStep(outAddrs: map<OutPoint, Address>, coins: CoinSet)

  function PersistOutput(s: OutStep, h: Hash, op: OutPoint, out: Output, genesis: bool, isNew: bool): Result<OutStep, Error> {
    var m :- PersistAddress(s.outAddrs, op, out.address, isNew);
    if Excluded(out.body, genesis) then Ok(OutStep(m, s.coins))
    else
      var c :- CreateChecked(s.coins, op, h);
      Ok(OutStep(m, c))
  }

  function PersistOutputs(s: OutStep, h: Hash, txid: TxId, outs: seq<Output>, genesis: bool, isNew: bool, k: nat): Result<OutStep, Error>
    requires k <= |outs|
  {
    if k == 0 then Ok(s)
    else
      var p :- PersistOutputs(s, h, txid, outs, genesis, isNew, k - 1);
      PersistOutput(p, h, OutPoint(txid, k - 1), outs[k - 1], genesis, isNew)
  }

  function MarkInputs(c: CoinSet, h: Hash, txid: TxId, ins: seq<Input>, k: nat): Result<CoinSet, Error>
    requires k <= |ins|
  {
    if k == 0 then Ok(c)
    else
      var p :- MarkInputs(c, h, txid, ins, k - 1);
      if ins[k - 1].prev.None? then Err(NullPreviousOut)
      else MarkChecked(p, ins[k - 1].prev.value, Spend(txid, k - 1, h))
  }

  function OutAddresses(outs: seq<Output>, k: nat): set<Address>
    requires k <= |outs|
  {
    set i | 0 <= i < k && outs[i].address != "" :: outs[i].address
  }

  function InAddresses(m: map<OutPoint, Address>, ins: seq<Input>, k: nat): set<Address>
    requires k <= |ins|
  {
    set j | 0 <= j < k && ins[j].prev.Some? && ins[j].prev.value in m && m[ins[j].prev.value] != "" :: m[ins[j].prev.value]
  }

  datatype TxStep = TxStep(ar: Archive, coins: CoinSet, fee: Option<int64>, touched: set<Address>)

  function ApplyTx(ar: Archive, c: CoinSet, h: Hash, i: nat, txn: Transaction, genesis: bool): Result<TxStep, Error> {
    var fee :- TxFee(ar, c, txn);
    var isNew := txn.txid !in ar.txs;
    var ar1 :- Persist(ar, h, i, txn.txid, RowOf(txn, fee));
    var s :- PersistOutputs(OutStep(ar1.outAddrs, c), h, txn.txid, txn.outputs, genesis, isNew, |txn.outputs|);
    var ar2 := ar1.(outAddrs := s.outAddrs);
    var outAddrs := OutAddresses(txn.outputs, |txn.outputs|);
    if txn.isCoinbase then Ok(TxStep(ar2, s.coins, fee, outAddrs))
    else
      var c' :- MarkInputs(s.coins, h, txn.txid, txn.inputs, |txn.inputs|);
      Ok(TxStep(ar2, c', fee, outAddrs + InAddresses(s.outAddrs, txn.inputs, |txn.inputs|)))
  }

  /** State of ApplyBlock's transaction loop. */
  datatype Loop = Loop(ar: Archive, coins: CoinSet, fee: int64, touched: set<Address>)

  function ApplyTxs(ar: Archive, c: CoinSet, b: Block, k: nat): Result<Loop, Error>
    requires k <= |b.txs|
  {
    if k == 0 then Ok(Loop(ar, c, 0, {}))
    else
      var p :- ApplyTxs(ar, c, b, k - 1);
      var s :- ApplyTx(p.ar, p.coins, b.hash, k - 1, b.txs[k - 1], b.height == 0);
      var fee := AddChecked(p.fee, if s.fee.Some? then s.fee.value else 0);
      if fee.None? then Err(AmountOverflow)
      else Ok(Loop(s.ar, s.coins, fee.value, p.touched + s.touched))
  }
}
