/** validateBlockShape and checkCanonicalContinuity (internal/store/apply.go): the
    checks that need no table. */
module Shape {
  import opened Wrappers
  import opened Errors
  import opened Int64
  import opened Chain
  import opened Tables

  function CheckInput(inp: Input, i: nat): Result<(), Error> {
    if inp.index != i then Err(ImmutableConflict)
    else if inp.prev.None? then
      if |inp.coinbase| == 0 || |inp.scriptSig| != 0 then Err(InvalidTransactionShape) else Ok(())
    else if |inp.coinbase| != 0 then Err(InvalidTransactionShape)
    else Ok(())
  }

  /** The first failure among the first k inputs. */
  function CheckInputs(ins: seq<Input>, k: nat): (r: Result<(), Error>)
    requires k <= |ins|
    ensures r.Ok? <==> forall i :: 0 <= i < k ==> CheckInput(ins[i], i).Ok?
  {
    if k == 0 then Ok(())
    else
      var _ :- CheckInputs(ins, k - 1);
      CheckInput(ins[k - 1], k - 1)
  }

  function CheckOutputs(outs: seq<Output>, k: nat): (r: Result<(), Error>)
    requires k <= |outs|
    ensures r.Ok? <==> forall i :: 0 <= i < k ==> outs[i].body.index == i
  {
    if k == 0 then Ok(())
    else
      var _ :- CheckOutputs(outs, k - 1);
      if outs[k - 1].body.index != k - 1 then Err(ImmutableConflict) else Ok(())
  }

  predicate StructurallyCoinbase(ins: seq<Input>) {
    |ins| == 1 && ins[0].prev.None?
  }

  function CheckTransaction(txn: Transaction, idx: nat): Result<(), Error> {
    if |txn.inputs| == 0 || |txn.outputs| == 0 then Err(InvalidTransactionShape)
    else
      var _ :- CheckInputs(txn.inputs, |txn.inputs|);
      var _ :- CheckOutputs(txn.outputs, |txn.outputs|);
      if txn.isCoinbase != StructurallyCoinbase(txn.inputs) then Err(InvalidTransactionShape)
      else if idx == 0 && !txn.isCoinbase then Err(InvalidTransactionShape)
      else if idx > 0 && txn.isCoinbase then Err(InvalidTransactionShape)
      else Ok(())
  }

  function CheckTransactions(txs: seq<Transaction>, k: nat): (r: Result<(), Error>)
    requires k <= |txs|
    ensures r.Ok? <==> forall i :: 0 <= i < k ==> CheckTransaction(txs[i], i).Ok?
  {
    if k == 0 then Ok(())
    else
      var _ :- CheckTransactions(txs, k - 1);
      CheckTransaction(txs[k - 1], k - 1)
  }

  function CheckBlock(b: Block): (r: Result<(), Error>)
    ensures r.Ok? <==> |b.txs| == b.txCount && |b.txs| > 0
                       && forall i :: 0 <= i < |b.txs| ==> CheckTransaction(b.txs[i], i).Ok?
  {
    if |b.txs| != b.txCount then Err(IncompleteBlock)
    else if |b.txs| == 0 then Err(InvalidTransactionShape)
    else CheckTransactions(b.txs, |b.txs|)
  }

  /** What an accepted transaction looks like: positional indices, consistent input
      kinds, and a coinbase exactly at index 0. */
  ghost predicate WellShaped(isCoinbase: bool, ins: seq<Input>, outs: seq<OutBody>) {
    && |ins| > 0 && |outs| > 0
    && (forall i :: 0 <= i < |ins| ==> CheckInput(ins[i], i).Ok?)
    && (forall i :: 0 <= i < |outs| ==> outs[i].index == i)
    && isCoinbase == StructurallyCoinbase(ins)
  }

  lemma TransactionShape(txn: Transaction, idx: nat)
    ensures CheckTransaction(txn, idx).Ok?
            <==> WellShaped(txn.isCoinbase, txn.inputs, Bodies(txn.outputs)) && (txn.isCoinbase <==> idx == 0)
  {
    if CheckTransaction(txn, idx).Ok? {
      forall i | 0 <= i < |txn.outputs|
        ensures Bodies(txn.outputs)[i].index == i
      {
      }
    }
    if forall i :: 0 <= i < |txn.outputs| ==> Bodies(txn.outputs)[i].index == i {
      forall i | 0 <= i < |txn.outputs|
        ensures txn.outputs[i].body.index == i
      {
        assert Bodies(txn.outputs)[i].index == i;
      }
    }
  }

  /** Exact tip replay, immediate child of the tip, or anything at all on a store
      that holds no block yet. Go computes the child height with wrap-around. */
  function CheckContinuity(b: Block, cp: Checkpoint): Result<(), Error> {
    if cp.hash == "" then Ok(())
    else if b.hash == cp.hash && b.height == cp.height then Ok(())
    else if b.height == Wrap(cp.height + 1) && b.prev == cp.hash then Ok(())
    else Err(NonSequentialBlock)
  }

  method ValidateBlockShape(b: Block) returns (r: Result<(), Error>)
    ensures r == CheckBlock(b)
  {
    if |b.txs| != b.txCount {
      return Err(IncompleteBlock);
    }
    if |b.txs| == 0 {
      return Err(InvalidTransactionShape);
    }
    var idx := 0;
    while idx < |b.txs|
      invariant 0 <= idx <= |b.txs|
      invariant CheckTransactions(b.txs, idx).Ok?
    {
      var txn := b.txs[idx];
      var t := ValidateTransactionShape(txn, idx);
      if t.Err? {
        CheckTransactionsStops(b.txs, idx + 1, |b.txs|);
        return t;
      }
      idx := idx + 1;
    }
    return Ok(());
  }

  lemma {:induction false} CheckTransactionsStops(txs: seq<Transaction>, k: nat, n: nat)
    requires k <= n <= |txs| && CheckTransactions(txs, k).Err?
    ensures CheckTransactions(txs, n) == CheckTransactions(txs, k)
  {
    if k < n {
      CheckTransactionsStops(txs, k, n - 1);
    }
  }

  lemma {:induction false} CheckInputsStops(ins: seq<Input>, k: nat, n: nat)
    requires k <= n <= |ins| && CheckInputs(ins, k).Err?
    ensures CheckInputs(ins, n) == CheckInputs(ins, k)
  {
    if k < n {
      CheckInputsStops(ins, k, n - 1);
    }
  }

  lemma {:induction false} CheckOutputsStops(outs: seq<Output>, k: nat, n: nat)
    requires k <= n <= |outs| && CheckOutputs(outs, k).Err?
    ensures CheckOutputs(outs, n) == CheckOutputs(outs, k)
  {
    if k < n {
      CheckOutputsStops(outs, k, n - 1);
    }
  }

  method ValidateTransactionShape(txn: Transaction, idx: nat) returns (r: Result<(), Error>)
    ensures r == CheckTransaction(txn, idx)
  {
    if |txn.inputs| == 0 || |txn.outputs| == 0 {
      return Err(InvalidTransactionShape);
    }
    var i := 0;
    while i < |txn.inputs|
      invariant 0 <= i <= |txn.inputs|
      invariant CheckInputs(txn.inputs, i).Ok?
    {
      var c := CheckInput(txn.inputs[i], i);
      if c.Err? {
        CheckInputsStops(txn.inputs, i + 1, |txn.inputs|);
        return c;
      }
      i := i + 1;
    }
    i := 0;
    while i < |txn.outputs|
      invariant 0 <= i <= |txn.outputs|
      invariant CheckOutputs(txn.outputs, i).Ok?
    {
      if txn.outputs[i].body.index != i {
        CheckOutputsStops(txn.outputs, i + 1, |txn.outputs|);
        return Err(ImmutableConflict);
      }
      i := i + 1;
    }
    var structurally := |txn.inputs| == 1 && txn.inputs[0].prev.None?;
    if txn.isCoinbase != structurally
       || (idx == 0 && !txn.isCoinbase)
       || (idx > 0 && txn.isCoinbase) {
      return Err(InvalidTransactionShape);
    }
    return Ok(());
  }
}
