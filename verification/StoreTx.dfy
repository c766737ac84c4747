/** An open SQL transaction on the explorer's tables: the statements of
    internal/store/apply.go, executed one by one against the table fields. */
module StoreTx {
  import opened Wrappers
  import opened Errors
  import opened Int64
  import opened Chain
  import opened Tables
  import opened Coins
  import opened Accounting
  import Shape
  import TxSpec
  import StoreSpec
  import opened Cache
  import opened Distribution
  import DistributionDelta
  import Recompute

  // --- a failed prefix decides the whole loop ---

  lemma {:induction false} InputSumStops(ar: Archive, c: CoinSet, txid: TxId, ins: seq<Input>, k: nat, n: nat)
    requires k <= n <= |ins| && TxSpec.InputSum(ar, c, txid, ins, k).Err?
    ensures TxSpec.InputSum(ar, c, txid, ins, n) == TxSpec.InputSum(ar, c, txid, ins, k)
  {
    if k < n {
      InputSumStops(ar, c, txid, ins, k, n - 1);
    }
  }

  lemma {:induction false} OutputSumStops(outs: seq<OutBody>, k: nat, n: nat)
    requires k <= n <= |outs| && TxSpec.OutputSum(outs, k).Err?
    ensures TxSpec.OutputSum(outs, n) == TxSpec.OutputSum(outs, k)
  {
    if k < n {
      OutputSumStops(outs, k, n - 1);
    }
  }

  lemma {:induction false} PersistOutputsStops(
    s: TxSpec.OutStep, h: Hash, txid: TxId, outs: seq<Output>, genesis: bool, isNew: bool, k: nat, n: nat)
    requires k <= n <= |outs| && TxSpec.PersistOutputs(s, h, txid, outs, genesis, isNew, k).Err?
    ensures TxSpec.PersistOutputs(s, h, txid, outs, genesis, isNew, n) == TxSpec.PersistOutputs(s, h, txid, outs, genesis, isNew, k)
  {
    if k < n {
      PersistOutputsStops(s, h, txid, outs, genesis, isNew, k, n - 1);
    }
  }

  lemma {:induction false} MarkInputsStops(c: CoinSet, h: Hash, txid: TxId, ins: seq<Input>, k: nat, n: nat)
    requires k <= n <= |ins| && TxSpec.MarkInputs(c, h, txid, ins, k).Err?
    ensures TxSpec.MarkInputs(c, h, txid, ins, n) == TxSpec.MarkInputs(c, h, txid, ins, k)
  {
    if k < n {
      MarkInputsStops(c, h, txid, ins, k, n - 1);
    }
  }

  lemma OutAddressesStep(outs: seq<Output>, v: nat)
    requires v < |outs|
    ensures TxSpec.OutAddresses(outs, v + 1)
            == TxSpec.OutAddresses(outs, v) + if outs[v].address != "" then {outs[v].address} else {}
  {
  }

  lemma NoOutAddresses(outs: seq<Output>)
    ensures TxSpec.OutAddresses(outs, 0) == {}
  {
  }

  function Destination(m: map<OutPoint, Address>, op: OutPoint): Address {
    if op in m then m[op] else ""
  }

  lemma InAddressesStep(m: map<OutPoint, Address>, ins: seq<Input>, j: nat)
    requires j < |ins| && ins[j].prev.Some?
    ensures TxSpec.InAddresses(m, ins, j + 1)
            == TxSpec.InAddresses(m, ins, j)
               + if Destination(m, ins[j].prev.value) != "" then {Destination(m, ins[j].prev.value)} else {}
  {
  }

  class Tx {
    var ar: Archive
    var canonical: set<Hash>
    var coins: CoinSet
    var addresses: map<Address, AddressRow>
    var buckets: seq<BucketRow>
    var anchor: Checkpoint
    var accounting: map<Hash, BlockFacts>
    var rollup: map<Hash, RollupRow>
    var checkpoint: Checkpoint

    /** The addresses whose cached row has to be recomputed. */
    var touched: set<Address>

    constructor Begin(db: Database)
      ensures View() == db && touched == {}
    {
      ar, canonical, coins, addresses, buckets := db.ar, db.canonical, db.coins, db.addresses, db.buckets;
      anchor, accounting, rollup, checkpoint := db.anchor, db.accounting, db.rollup, db.checkpoint;
      touched := {};
    }

    /** What COMMIT would publish. */
    function View(): Database
      reads this
    {
      Database(ar, canonical, coins, addresses, buckets, anchor, accounting, rollup, checkpoint)
    }

    /** Insert the header or verify it, and promote an orphan. */
    method ApplyBlockHeader(b: Block) returns (r: Result<bool, Error>)
      modifies this`ar, this`canonical
      ensures match StoreSpec.ApplyHeader(old(ar), old(canonical), b)
              case Ok(hd) => r == Ok(hd.isNew) && ar == hd.ar && canonical == hd.canonical
              case Err(e) => r == Err(e)
    {
      if b.hash !in ar.blocks {
        if !StoreSpec.InsertableHeader(ar, b) || StoreSpec.HeightTaken(ar, canonical, b.height) {
          return Err(DatabaseConstraint);
        }
        ar := ar.(blocks := ar.blocks[b.hash := StoreSpec.HeaderRow(b)]);
        canonical := canonical + {b.hash};
        return Ok(true);
      }
      if ar.blocks[b.hash] != StoreSpec.HeaderRow(b) {
        return Err(ImmutableConflict);
      }
      if b.hash !in canonical {
        if StoreSpec.HeightTaken(ar, canonical, b.height) {
          return Err(DatabaseConstraint);
        }
        canonical := canonical + {b.hash};
      }
      return Ok(false);
    }

    method CheckPrevout(op: OutPoint, txid: TxId, vin: nat) returns (r: Result<int64, Error>)
      ensures r == TxSpec.CheckPrevout(ar, coins, op, txid, vin)
    {
      if op !in coins || !HasOutput(ar, op) {
        return Err(MissingPrevout);
      }
      var value := ar.txs[op.txid].outputs[op.vout].value;
      if coins[op].spend.Some? {
        var spender := coins[op].spend.value;
        if spender.txid == txid && spender.vin == vin {
          return Ok(value);
        }
        return Err(DoubleSpend);
      }
      return Ok(value);
    }

    /** The UPDATE affects an unspent row only; zero affected rows are re-read. */
    method MarkSpent(op: OutPoint, sp: Spend) returns (r: Result<Address, Error>)
      modifies this`coins
      ensures match TxSpec.MarkChecked(old(coins), op, sp)
              case Ok(c) => r == Ok(Destination(ar.outAddrs, op)) && coins == c
              case Err(e) => r == Err(e) && coins == old(coins)
    {
      if op in coins && coins[op].spend.None? {
        coins := coins[op := coins[op].(spend := Some(sp))];
      } else {
        if op !in coins {
          return Err(RowVanished);
        }
        var spender := coins[op].spend.value;
        if spender.txid != sp.txid || spender.vin != sp.vin {
          return Err(DoubleSpend);
        }
      }
      return Ok(Destination(ar.outAddrs, op));
    }

    /** Inputs and outputs of a stored transaction are compared one by one. */
    method VerifyRow(stored: TxRow, row: TxRow) returns (same: bool)
      ensures same <==> stored.inputs == row.inputs && stored.outputs == row.outputs
    {
      if |stored.inputs| != |row.inputs| || |stored.outputs| != |row.outputs| {
        return false;
      }
      var i := 0;
      while i < |row.inputs|
        invariant 0 <= i <= |row.inputs|
        invariant forall j :: 0 <= j < i ==> stored.inputs[j] == row.inputs[j]
      {
        if stored.inputs[i] != row.inputs[i] {
          return false;
        }
        i := i + 1;
      }
      i := 0;
      while i < |row.outputs|
        invariant 0 <= i <= |row.outputs|
        invariant forall j :: 0 <= j < i ==> stored.outputs[j] == row.outputs[j]
      {
        if stored.outputs[i] != row.outputs[i] {
          return false;
        }
        i := i + 1;
      }
      return true;
    }

    /** The transaction's row, its occurrence in the block, its inputs and output bodies. */
    method PersistTransaction(h: Hash, i: nat, txid: TxId, row: TxRow) returns (r: Result<bool, Error>)
      modifies this`ar
      ensures match TxSpec.Persist(old(ar), h, i, txid, row)
              case Ok(ar1) => r == Ok(txid !in old(ar).txs) && ar == ar1
              case Err(e) => r == Err(e)
    {
      var isNew := txid !in ar.txs;
      if isNew {
        if !WellFormedHash(txid) {
          return Err(DatabaseConstraint);
        }
      } else if !TxSpec.SameHeader(ar.txs[txid], row) {
        return Err(ImmutableConflict);
      }
      var rows := TxIdsOf(ar, h);
      if i < |rows| {
        if rows[i] != txid {
          return Err(ImmutableConflict);
        }
      } else if txid in rows {
        return Err(DatabaseConstraint);
      } else {
        ar := ar.(blockTxs := ar.blockTxs[h := rows + [txid]]);
      }
      if !isNew {
        var same := VerifyRow(ar.txs[txid], row);
        return if same then Ok(false) else Err(ImmutableConflict);
      }
      var v := 0;
      while v < |row.outputs|
        invariant 0 <= v <= |row.outputs|
        invariant forall j :: 0 <= j < v ==> row.outputs[j].value >= 0
      {
        if row.outputs[v].value < 0 {
          return Err(DatabaseConstraint);
        }
        v := v + 1;
      }
      ar := ar.(txs := ar.txs[txid := row]);
      return Ok(true);
    }

    /** The destination row, and the coin unless the output is excluded. */
    method ApplyOutput(h: Hash, op: OutPoint, out: Output, genesis: bool, isNew: bool) returns (r: Result<Address, Error>)
      modifies this`ar, this`coins
      ensures match TxSpec.PersistOutput(TxSpec.OutStep(old(ar).outAddrs, old(coins)), h, op, out, genesis, isNew)
              case Ok(s) => r == Ok(out.address) && ar == old(ar).(outAddrs := s.outAddrs) && coins == s.coins
              case Err(e) => r == Err(e)
    {
      if out.address != "" {
        if op !in ar.outAddrs {
          ar := ar.(outAddrs := ar.outAddrs[op := out.address]);
        } else if ar.outAddrs[op] != out.address {
          return Err(ImmutableConflict);
        }
      } else if !isNew {
        if op in ar.outAddrs {
          return Err(ImmutableConflict);
        }
      }
      if !Excluded(out.body, genesis) {
        if op !in coins {
          coins := coins[op := Coin(h, None)];
        } else if coins[op].creation != h {
          return Err(ImmutableConflict);
        }
      }
      return Ok(out.address);
    }

    /** The value of every input, each resolved through checkPrevout. */
    method SumInputValues(txid: TxId, ins: seq<Input>) returns (r: Result<int64, Error>)
      ensures r == TxSpec.InputSum(ar, coins, txid, ins, |ins|)
    {
      var sum: int64 := 0;
      var j := 0;
      while j < |ins|
        invariant 0 <= j <= |ins|
        invariant TxSpec.InputSum(ar, coins, txid, ins, j) == Ok(sum)
      {
        if ins[j].prev.None? {
          InputSumStops(ar, coins, txid, ins, j + 1, |ins|);
          return Err(NullPreviousOut);
        }
        var value := CheckPrevout(ins[j].prev.value, txid, j);
        if value.Err? {
          InputSumStops(ar, coins, txid, ins, j + 1, |ins|);
          return Err(value.error);
        }
        var next := AddChecked(sum, value.value);
        if next.None? {
          InputSumStops(ar, coins, txid, ins, j + 1, |ins|);
          return Err(AmountOverflow);
        }
        sum := next.value;
        j := j + 1;
      }
      return Ok(sum);
    }

    /** sumOutputValues: the exact total, or an overflow instead of a wrapped one. */
    static method SumOutputValues(outs: seq<Output>) returns (r: Result<int64, Error>)
      ensures r == TxSpec.OutputSum(Bodies(outs), |outs|)
    {
      var sum: int64 := 0;
      var v := 0;
      while v < |outs|
        invariant 0 <= v <= |outs|
        invariant TxSpec.OutputSum(Bodies(outs), v) == Ok(sum)
      {
        var next := AddChecked(sum, outs[v].body.value);
        if next.None? {
          OutputSumStops(Bodies(outs), v + 1, |outs|);
          return Err(AmountOverflow);
        }
        sum := next.value;
        v := v + 1;
      }
      return Ok(sum);
    }

    /** inputSum - outputSum. */
    method ComputeFee(txn: Transaction) returns (r: Result<Option<int64>, Error>)
      ensures r == TxSpec.TxFee(ar, coins, txn)
    {
      if txn.isCoinbase {
        return Ok(None);
      }
      var inputSum := SumInputValues(txn.txid, txn.inputs);
      if inputSum.Err? {
        return Err(inputSum.error);
      }
      var outputSum := SumOutputValues(txn.outputs);
      if outputSum.Err? {
        return Err(outputSum.error);
      }
      var inSum: int, outSum: int := inputSum.value, outputSum.value;
      var fee := Wrap(inSum - outSum);
      if fee < 0 {
        return Err(NegativeFee);
      }
      return Ok(Some(fee));
    }

    /** Every output in order; the paid addresses are touched. */
    method ApplyOutputs(h: Hash, txid: TxId, outs: seq<Output>, genesis: bool, isNew: bool) returns (r: Result<(), Error>)
      modifies this`ar, this`coins, this`touched
      ensures match TxSpec.PersistOutputs(TxSpec.OutStep(old(ar).outAddrs, old(coins)), h, txid, outs, genesis, isNew, |outs|)
              case Ok(s) =>
                r == Ok(()) && ar == old(ar).(outAddrs := s.outAddrs) && coins == s.coins
                && touched == old(touched) + TxSpec.OutAddresses(outs, |outs|)
              case Err(e) => r == Err(e)
    {
      hide TxSpec.PersistOutput, TxSpec.OutAddresses;
      ghost var start := TxSpec.OutStep(ar.outAddrs, coins);
      NoOutAddresses(outs);
      var v := 0;
      while v < |outs|
        invariant 0 <= v <= |outs|
        invariant TxSpec.PersistOutputs(start, h, txid, outs, genesis, isNew, v) == Ok(TxSpec.OutStep(ar.outAddrs, coins))
        invariant ar == old(ar).(outAddrs := ar.outAddrs)
        invariant touched == old(touched) + TxSpec.OutAddresses(outs, v)
      {
        var address := ApplyOutput(h, OutPoint(txid, v), outs[v], genesis, isNew);
        if address.Err? {
          PersistOutputsStops(start, h, txid, outs, genesis, isNew, v + 1, |outs|);
          return Err(address.error);
        }
        if address.value != "" {
          touched := touched + {address.value};
        }
        OutAddressesStep(outs, v);
        v := v + 1;
      }
      return Ok(());
    }

    /** Every input in order is marked as the spender of its previous output; the
        addresses spent from are touched. */
    method MarkInputs(h: Hash, txid: TxId, ins: seq<Input>) returns (r: Result<(), Error>)
      modifies this`coins, this`touched
      ensures match TxSpec.MarkInputs(old(coins), h, txid, ins, |ins|)
              case Ok(c) => r == Ok(()) && coins == c && touched == old(touched) + TxSpec.InAddresses(ar.outAddrs, ins, |ins|)
              case Err(e) => r == Err(e)
    {
      var j := 0;
      while j < |ins|
        invariant 0 <= j <= |ins|
        invariant TxSpec.MarkInputs(old(coins), h, txid, ins, j) == Ok(coins)
        invariant touched == old(touched) + TxSpec.InAddresses(ar.outAddrs, ins, j)
      {
        if ins[j].prev.None? {
          MarkInputsStops(old(coins), h, txid, ins, j + 1, |ins|);
          return Err(NullPreviousOut);
        }
        var op := ins[j].prev.value;
        var address := MarkSpent(op, Spend(txid, j, h));
        if address.Err? {
          MarkInputsStops(old(coins), h, txid, ins, j + 1, |ins|);
          return Err(address.error);
        }
        if address.value != "" {
          touched := touched + {address.value};
        }
        InAddressesStep(ar.outAddrs, ins, j);
        j := j + 1;
      }
      return Ok(());
    }

    /** applyTransaction: fee, rows, outputs, then spends. */
    method ApplyTransaction(h: Hash, i: nat, txn: Transaction, genesis: bool) returns (r: Result<Option<int64>, Error>)
      modifies this`ar, this`coins, this`touched
      ensures match TxSpec.ApplyTx(old(ar), old(coins), h, i, txn, genesis)
              case Ok(s) => r == Ok(s.fee) && ar == s.ar && coins == s.coins && touched == old(touched) + s.touched
              case Err(e) => r == Err(e)
    {
      hide TxSpec.TxFee, TxSpec.Persist, TxSpec.PersistOutputs, TxSpec.MarkInputs, TxSpec.InAddresses, TxSpec.OutAddresses;
      var fee := ComputeFee(txn);
      if fee.Err? {
        return Err(fee.error);
      }
      var isNew := PersistTransaction(h, i, txn.txid, TxSpec.RowOf(txn, fee.value));
      if isNew.Err? {
        return Err(isNew.error);
      }
      var outputs := ApplyOutputs(h, txn.txid, txn.outputs, genesis, isNew.value);
      if outputs.Err? {
        return Err(outputs.error);
      }
      if !txn.isCoinbase {
        var spends := MarkInputs(h, txn.txid, txn.inputs);
        if spends.Err? {
          return Err(spends.error);
        }
      }
      return Ok(fee.value);
    }

    /** ApplyBlock's transaction loop, with the checked fee total. */
    method ApplyTransactions(b: Block) returns (r: Result<int64, Error>)
      modifies this`ar, this`coins, this`touched
      ensures match TxSpec.ApplyTxs(old(ar), old(coins), b, |b.txs|)
              case Ok(lp) => r == Ok(lp.fee) && ar == lp.ar && coins == lp.coins && touched == old(touched) + lp.touched
              case Err(e) => r == Err(e)
    {
      hide TxSpec.ApplyTx;
      var genesis := b.height == 0;
      var feeTotal: int64 := 0;
      var i := 0;
      ghost var seen: set<Address> := {};
      while i < |b.txs|
        invariant 0 <= i <= |b.txs|
        invariant TxSpec.ApplyTxs(old(ar), old(coins), b, i) == Ok(TxSpec.Loop(ar, coins, feeTotal, seen))
        invariant touched == old(touched) + seen
      {
        var fee := ApplyTransaction(b.hash, i, b.txs[i], genesis);
        if fee.Err? {
          ApplyTxsStops(old(ar), old(coins), b, i + 1, |b.txs|);
          return Err(fee.error);
        }
        var sum := AddChecked(feeTotal, if fee.value.Some? then fee.value.value else 0);
        if sum.None? {
          ApplyTxsStops(old(ar), old(coins), b, i + 1, |b.txs|);
          return Err(AmountOverflow);
        }
        feeTotal := sum.value;
        i := i + 1;
        seen := TxSpec.ApplyTxs(old(ar), old(coins), b, i).value.touched;
      }
      return Ok(feeTotal);
    }

    /** The cached row is deleted or overwritten with a fresh aggregation. */
    method RecomputeAddress(a: Address) returns (r: Result<int64, Error>)
      modifies this`addresses
      ensures if SliceFits(SliceOf(ar, coins, a)) then
                && addresses == Refresh(old(addresses), ar, coins, {a})
                && InRange(BalanceIn(addresses, a)) && r == Ok(BalanceIn(addresses, a))
              else r == Err(DatabaseConstraint)
    {
      hide SliceOf, Summary, Refresh;
      Recompute.RefreshIs(addresses, ar, coins, a);
      var row := Recompute.Aggregate(SliceOf(ar, coins, a));
      if row.None? {
        addresses := addresses - {a};
        return Ok(0);
      }
      if !FitsColumns(row.value) {
        return Err(DatabaseConstraint);
      }
      addresses := addresses[a := row.value];
      return Ok(row.value.balance);
    }

    /** recomputeAddressTracked: the balance is read before and after, and the
        transition is observed. */
    method RecomputeAddressTracked(a: Address, deltas: DistributionDelta.Delta, ghost m0: map<Address, AddressRow>)
      returns (r: Result<(), Error>)
      requires BalancesFit(addresses) && deltas.Describes(m0, addresses)
      modifies this`addresses, deltas
      ensures if SliceFits(SliceOf(ar, coins, a)) then
                && r == Ok(())
                && addresses == Refresh(old(addresses), ar, coins, {a})
                && BalancesFit(addresses) && deltas.Describes(m0, addresses)
              else r == Err(DatabaseConstraint)
    {
      hide SliceFits, CountDelta, BalanceDelta, Wrap, CountShare, BalanceShare, SliceOf, Summary, DistributionDelta.At;
      ghost var was := addresses;
      Recompute.RefreshIs(addresses, ar, coins, a);
      var before: int64 := if a in addresses then addresses[a].balance else 0;
      var now := RecomputeAddress(a);
      if now.Err? {
        return Err(now.error);
      }
      assert DifferOnlyAt(was, addresses, a);
      deltas.Observe(before, now.value);
      forall i: nat | i < 8
        ensures DistributionDelta.At(deltas.count, i) == CountDelta(m0, addresses, i)
        ensures DistributionDelta.At(deltas.balance, i) == BalanceDelta(m0, addresses, i)
      {
        DistributionDelta.TransitionDelta(m0, was, addresses, a, i);
      }
      return Ok(());
    }

    /** Every touched address once, in whatever order the map yields them. */
    method RecomputeTouched(deltas: DistributionDelta.Delta) returns (r: Result<(), Error>)
      requires BalancesFit(addresses) && deltas.count == map[] && deltas.balance == map[]
      modifies this`addresses, deltas
      ensures match StoreSpec.RefreshChecked(old(addresses), ar, coins, touched)
              case Ok(m) => r == Ok(()) && addresses == m && deltas.Describes(old(addresses), m)
              case Err(e) => r == Err(e)
    {
      hide StoreSpec.RefreshChecked, SliceFits, CountDelta, BalanceDelta, SliceOf, Refresh, AllFit, BalancesFit;
      ghost var m0, done := addresses, {};
      var rest := touched;
      NothingRefreshed(m0, ar, coins);
      NothingToFit(ar, coins);
      while rest != {}
        invariant done + rest == touched
        invariant addresses == Refresh(m0, ar, coins, done)
        invariant AllFit(ar, coins, done)
        invariant BalancesFit(addresses) && deltas.Describes(m0, addresses)
        decreases |rest|
      {
        var a :| a in rest;
        FitsOrFails(m0, ar, coins, done, touched, a);
        var tracked := RecomputeAddressTracked(a, deltas, m0);
        if tracked.Err? {
          return Err(tracked.error);
        }
        Recompute.RefreshOne(m0, ar, coins, done, a);
        rest := rest - {a};
        done := done + {a};
      }
      assert done == touched;
      AllFitted(m0, ar, coins, done);
      return Ok(());
    }

    /** applyDistributionDeltas: at most eight read-check-update rounds. */
    method PublishDeltas(deltas: DistributionDelta.Delta, ghost m: map<Address, AddressRow>, ghost n: map<Address, AddressRow>)
      returns (r: Result<(), Error>)
      requires |buckets| == 8 && deltas.Describes(m, n)
      modifies this`buckets
      ensures match BucketsAfter(old(buckets), m, n)
              case Ok(bs) => r == Ok(()) && buckets == bs
              case Err(e) => r == Err(e)
    {
      hide CountDelta, BalanceDelta, Wrap;
      var i := 0;
      while i < 8
        invariant 0 <= i <= 8 && |buckets| == 8
        invariant forall j :: 0 <= j < i ==>
                    && RowAccepts(old(buckets)[j], CountDelta(m, n, j), BalanceDelta(m, n, j))
                    && buckets[j] == ShiftRow(old(buckets)[j], CountDelta(m, n, j), BalanceDelta(m, n, j))
        invariant forall j :: i <= j < 8 ==> buckets[j] == old(buckets)[j]
      {
        var countDelta, balanceDelta := DistributionDelta.At(deltas.count, i), DistributionDelta.At(deltas.balance, i);
        assert countDelta == CountDelta(m, n, i) && balanceDelta == BalanceDelta(m, n, i);
        UntouchedRow(buckets[i]);
        if countDelta != 0 || balanceDelta != 0 {
          var next := ShiftRow(buckets[i], countDelta, balanceDelta);
          if next.count < 0 || next.balance < 0 {
            return Err(DistributionInvariant);
          }
          buckets := buckets[i := next];
        }
        i := i + 1;
      }
      return Ok(());
    }

    /** Recompute, publish the deltas, and move the anchor. */
    method RefreshCaches(tip: Checkpoint) returns (r: Result<(), Error>)
      requires BalancesFit(addresses) && |buckets| == 8
      modifies this`addresses, this`buckets, this`anchor
      ensures match StoreSpec.RefreshChecked(old(addresses), ar, coins, touched)
              case Err(e) => r == Err(e)
              case Ok(m) =>
                match BucketsAfter(old(buckets), old(addresses), m)
                case Err(e) => r == Err(e)
                case Ok(bs) => r == Ok(()) && addresses == m && buckets == bs && anchor == tip
    {
      hide StoreSpec.RefreshChecked, BucketsAfter;
      var deltas := new DistributionDelta.Delta();
      var recomputed := RecomputeTouched(deltas);
      if recomputed.Err? {
        return Err(recomputed.error);
      }
      var published := PublishDeltas(deltas, old(addresses), addresses);
      if published.Err? {
        return Err(published.error);
      }
      anchor := tip;
      return Ok(());
    }

    /** applyBlockAccounting: the coinbase is the first transaction. */
    method ApplyBlockAccounting(sch: SubsidySchedule, b: Block, feeTotal: int64) returns (r: Result<BlockFacts, Error>)
      requires Sound(sch) && |b.txs| > 0
      modifies this`accounting
      ensures match StoreSpec.FactsOfBlock(sch, b, feeTotal)
              case Err(e) => r == Err(e)
              case Ok(facts) =>
                match StoreSpec.InsertOrVerify(old(accounting), b.hash, facts)
                case Err(e) => r == Err(e)
                case Ok(m) => r == Ok(facts) && accounting == m
    {
      var coinbase := SumOutputValues(b.txs[0].outputs);
      if coinbase.Err? {
        return Err(coinbase.error);
      }
      var facts := ComputeBlockFacts(sch, b.height, feeTotal, coinbase.value);
      if facts.Err? {
        return Err(facts.error);
      }
      if b.hash in accounting {
        if accounting[b.hash] != facts.value {
          return Err(ImmutableConflict);
        }
      } else {
        accounting := accounting[b.hash := facts.value];
      }
      return Ok(facts.value);
    }

    /** localExcludedOutputValue: the two nested loops share one checked total. */
    static method LocalExcludedOutputValue(b: Block) returns (r: Result<int64, Error>)
      ensures r == StoreSpec.ExcludedSums(b.txs, b.height == 0, |b.txs|)
    {
      var genesis := b.height == 0;
      var total: int64 := 0;
      var i := 0;
      while i < |b.txs|
        invariant 0 <= i <= |b.txs|
        invariant StoreSpec.ExcludedSums(b.txs, genesis, i) == Ok(total)
      {
        var outs := b.txs[i].outputs;
        ghost var before := total;
        var v := 0;
        while v < |outs|
          invariant 0 <= v <= |outs|
          invariant StoreSpec.ExcludedSum(before, Bodies(outs), genesis, v) == Ok(total)
        {
          if Excluded(outs[v].body, genesis) {
            var sum := AddChecked(total, outs[v].body.value);
            if sum.None? {
              ExcludedSumStops(before, Bodies(outs), genesis, v + 1, |outs|);
              ExcludedSumsStops(b.txs, genesis, i + 1, |b.txs|);
              return Err(AmountOverflow);
            }
            total := sum.value;
          }
          v := v + 1;
        }
        i := i + 1;
      }
      return Ok(total);
    }

    /** applySupplyRollup. */
    method ApplySupplyRollup(b: Block, before: Checkpoint, facts: BlockFacts) returns (r: Result<(), Error>)
      modifies this`rollup
      ensures match StoreSpec.ApplyRollup(ar, canonical, old(rollup), b, before, facts)
              case Ok(m) => r == Ok(()) && rollup == m
              case Err(e) => r == Err(e)
    {
      var parent := StoreSpec.ZERO_ROLLUP;
      if b.height != 0 {
        if b.prev !in rollup {
          if before.hash == "" {
            return Ok(());
          }
          if !StoreSpec.GenesisRollupExists(ar, canonical, rollup) {
            return Ok(());
          }
          return Err(RollupParentMissing);
        }
        parent := rollup[b.prev];
      }
      var excluded := LocalExcludedOutputValue(b);
      if excluded.Err? {
        return Err(excluded.error);
      }
      var row := ExtendedRow(parent, excluded.value, facts);
      if row.Err? {
        return Err(row.error);
      }
      if b.hash in rollup {
        if rollup[b.hash] != row.value {
          return Err(ImmutableConflict);
        }
      } else {
        if !StoreSpec.RollupChecks(row.value) {
          return Err(DatabaseConstraint);
        }
        rollup := rollup[b.hash := row.value];
      }
      return Ok(());
    }

    /** The cumulative arithmetic, each step checked. */
    static method ExtendedRow(parent: RollupRow, excluded: int64, facts: BlockFacts) returns (r: Result<RollupRow, Error>)
      ensures r == StoreSpec.ExtendRollup(parent, excluded, facts)
    {
      var subsidy := AddChecked(parent.subsidy, facts.subsidy);
      if subsidy.None? { return Err(AmountOverflow); }
      var fee := AddChecked(parent.fee, facts.fee);
      if fee.None? { return Err(AmountOverflow); }
      var coinbase := AddChecked(parent.coinbase, facts.coinbase);
      if coinbase.None? { return Err(AmountOverflow); }
      var unclaimed := AddChecked(parent.unclaimed, facts.unclaimed);
      if unclaimed.None? { return Err(AmountOverflow); }
      var cumExcluded := AddChecked(parent.cumExcluded, excluded);
      if cumExcluded.None? { return Err(AmountOverflow); }
      var net := SubChecked(coinbase.value, fee.value);
      if net.None? { return Err(AmountOverflow); }
      var utxoValue := SubChecked(net.value, cumExcluded.value);
      if utxoValue.None? { return Err(AmountOverflow); }
      if utxoValue.value < 0 {
        return Err(RollupInvariant);
      }
      return Ok(RollupRow(excluded, subsidy.value, fee.value, coinbase.value, unclaimed.value, cumExcluded.value, utxoValue.value));
    }

    /** The block's shape, its continuity, its header and its stored transaction count. */
    method AdmitBlock(b: Block) returns (r: Result<bool, Error>)
      modifies this`ar, this`canonical
      ensures match StoreSpec.Admit(old(View()), b)
              case Ok(hd) => r == Ok(hd.isNew) && ar == hd.ar && canonical == hd.canonical
              case Err(e) => r == Err(e)
    {
      var shape := Shape.ValidateBlockShape(b);
      if shape.Err? {
        return Err(shape.error);
      }
      var continuity := Shape.CheckContinuity(b, checkpoint);
      if continuity.Err? {
        return Err(continuity.error);
      }
      var isNew := ApplyBlockHeader(b);
      if isNew.Err? {
        return isNew;
      }
      if !isNew.value && |TxIdsOf(ar, b.hash)| != |b.txs| {
        return Err(ImmutableConflict);
      }
      return isNew;
    }

    /** Everything after the transaction loop; the checkpoint is the final write. */
    method PublishBlock(sch: SubsidySchedule, b: Block, feeTotal: int64, ghost lp: TxSpec.Loop) returns (r: Result<(), Error>)
      requires Sound(sch) && |b.txs| > 0 && |buckets| == 8 && BalancesFit(addresses)
      requires lp == TxSpec.Loop(ar, coins, feeTotal, touched)
      modifies this`addresses, this`buckets, this`anchor, this`accounting, this`rollup, this`checkpoint
      ensures match StoreSpec.Publish(sch, old(View()), b, canonical, lp)
              case Ok(db) => r == Ok(()) && View() == db
              case Err(e) => r == Err(e)
    {
      hide StoreSpec.RefreshChecked, BucketsAfter, StoreSpec.FactsOfBlock, StoreSpec.ApplyRollup, StoreSpec.InsertOrVerify;
      var before := checkpoint;
      var tip := Checkpoint(HeightOf(ar, b.hash), b.hash);
      var caches := RefreshCaches(tip);
      if caches.Err? {
        return Err(caches.error);
      }
      var facts := ApplyBlockAccounting(sch, b, feeTotal);
      if facts.Err? {
        return Err(facts.error);
      }
      var supply := ApplySupplyRollup(b, before, facts.value);
      if supply.Err? {
        return Err(supply.error);
      }
      checkpoint := tip;
      return Ok(());
    }

    /** The body of ApplyBlock between BEGIN and COMMIT. */
    method ApplyBlock(sch: SubsidySchedule, b: Block) returns (r: Result<(), Error>)
      requires Sound(sch) && |buckets| == 8 && BalancesFit(addresses) && touched == {}
      modifies this
      ensures match StoreSpec.ApplyBlock(sch, old(View()), b)
              case Ok(db) => r == Ok(()) && View() == db
              case Err(e) => r == Err(e)
    {
      hide StoreSpec.Admit, StoreSpec.Publish, TxSpec.ApplyTxs, BalancesFit;
      var isNew := AdmitBlock(b);
      if isNew.Err? {
        return Err(isNew.error);
      }
      AdmittedBlockHasTransactions(old(View()), b);
      ghost var db := old(View());
      assert StoreSpec.Admit(db, b).Ok?;
      assert ar == StoreSpec.Admit(db, b).value.ar && coins == db.coins;
      var feeTotal := ApplyTransactions(b);
      if feeTotal.Err? {
        return Err(feeTotal.error);
      }
      ghost var lp := TxSpec.ApplyTxs(StoreSpec.Admit(db, b).value.ar, db.coins, b, |b.txs|);
      assert lp.Ok?;
      assert lp.value == TxSpec.Loop(ar, coins, feeTotal.value, touched);
      PublishReads(sch, old(View()), View(), b, canonical, TxSpec.Loop(ar, coins, feeTotal.value, touched));
      r := PublishBlock(sch, b, feeTotal.value, TxSpec.Loop(ar, coins, feeTotal.value, touched));
    }

    /** Two statements on utxo_state, each returning the destinations of the rows it
        changed, and the canonical flags. */
    method UndoOrphans(orphans: set<Hash>)
      requires touched == {}
      modifies this`coins, this`touched, this`canonical
      ensures coins == Undo(old(coins), orphans) && canonical == old(canonical) - orphans
      ensures touched == StoreSpec.RolledBackAddresses(ar, old(coins), orphans)
    {
      OrphanStatements(ar, coins, orphans);
      if orphans != {} {
        touched := touched + DestinationsOf(ar, set op | op in coins && coins[op].creation in orphans);
        coins := DeleteCreated(coins, orphans);
        touched := touched + DestinationsOf(ar, set op | op in coins && SpentIn(coins[op], orphans));
        coins := RestoreSpent(coins, orphans);
        canonical := canonical - orphans;
      }
    }

    /** The body of RollbackTo between BEGIN and COMMIT. */
    method RollbackTo(ancestor: Hash) returns (r: Result<(), Error>)
      requires |buckets| == 8 && BalancesFit(addresses) && touched == {}
      modifies this
      ensures match StoreSpec.RollbackTo(old(View()), ancestor)
              case Ok(db) => r == Ok(()) && View() == db
              case Err(e) => r == Err(e)
    {
      hide StoreSpec.RefreshChecked, BucketsAfter, BalancesFit, Undo, StoreSpec.RolledBackAddresses;
      if ancestor !in canonical || ancestor !in ar.blocks {
        return Err(AncestorNotFound);
      }
      var orphans := set h | h in canonical && HeightOf(ar, h) > HeightOf(ar, ancestor);
      UndoOrphans(orphans);
      var tip := Checkpoint(HeightOf(ar, ancestor), ancestor);
      var caches := RefreshCaches(tip);
      if caches.Err? {
        return Err(caches.error);
      }
      checkpoint := tip;
      return Ok(());
    }
  }

  /** The rest of ApplyBlock reads only the tables the loop did not write. */
  lemma PublishReads(sch: SubsidySchedule, db: Database, mid: Database, b: Block, canonical: set<Hash>, lp: TxSpec.Loop)
    requires Sound(sch) && |db.buckets| == 8 && |b.txs| > 0
    requires mid.addresses == db.addresses && mid.buckets == db.buckets && mid.accounting == db.accounting
    requires mid.rollup == db.rollup && mid.checkpoint == db.checkpoint
    ensures StoreSpec.Publish(sch, mid, b, canonical, lp) == StoreSpec.Publish(sch, db, b, canonical, lp)
  {
    hide StoreSpec.RefreshChecked, BucketsAfter, StoreSpec.FactsOfBlock, StoreSpec.ApplyRollup;
  }

  predicate SpentIn(coin: Coin, orphans: set<Hash>) {
    coin.spend.Some? && coin.spend.value.block in orphans
  }

  function DestinationsOf(ar: Archive, ops: set<OutPoint>): set<Address> {
    set op | op in ops && op in ar.outAddrs :: ar.outAddrs[op]
  }

  function DeleteCreated(c: CoinSet, orphans: set<Hash>): CoinSet {
    map op | op in c && c[op].creation !in orphans :: c[op]
  }

  function RestoreSpent(c: CoinSet, orphans: set<Hash>): CoinSet {
    map op | op in c :: if SpentIn(c[op], orphans) then c[op].(spend := None) else c[op]
  }

  /** The two statements together undo the orphans and touch exactly the owners of the
      rows they changed. */
  lemma OrphanStatements(ar: Archive, c: CoinSet, orphans: set<Hash>)
    ensures RestoreSpent(DeleteCreated(c, orphans), orphans) == Undo(c, orphans)
    ensures var left := DeleteCreated(c, orphans);
            DestinationsOf(ar, set op | op in c && c[op].creation in orphans)
            + DestinationsOf(ar, set op | op in left && SpentIn(left[op], orphans))
            == StoreSpec.RolledBackAddresses(ar, c, orphans)
    ensures orphans == {} ==> Undo(c, orphans) == c && StoreSpec.RolledBackAddresses(ar, c, orphans) == {}
  {
    var left := DeleteCreated(c, orphans);
    var created, restored := set op | op in c && c[op].creation in orphans, set op | op in left && SpentIn(left[op], orphans);
    forall a
      ensures a in DestinationsOf(ar, created) + DestinationsOf(ar, restored) <==> a in StoreSpec.RolledBackAddresses(ar, c, orphans)
    {
      if a in DestinationsOf(ar, created) {
        var op :| op in created && op in ar.outAddrs && ar.outAddrs[op] == a;
      }
      if a in DestinationsOf(ar, restored) {
        var op :| op in restored && op in ar.outAddrs && ar.outAddrs[op] == a;
        assert op in c;
      }
      if a in StoreSpec.RolledBackAddresses(ar, c, orphans) {
        var op :| op in c && op in ar.outAddrs && (c[op].creation in orphans || SpentIn(c[op], orphans)) && ar.outAddrs[op] == a;
        assert op in created || op in restored;
      }
    }
  }

  lemma AdmittedBlockHasTransactions(db: Database, b: Block)
    ensures StoreSpec.Admit(db, b).Ok? ==> |b.txs| > 0
  {
  }

  lemma {:induction false} ExcludedSumStops(total: int64, outs: seq<OutBody>, genesis: bool, k: nat, n: nat)
    requires k <= n <= |outs| && StoreSpec.ExcludedSum(total, outs, genesis, k).Err?
    ensures StoreSpec.ExcludedSum(total, outs, genesis, n) == StoreSpec.ExcludedSum(total, outs, genesis, k)
  {
    if k < n {
      ExcludedSumStops(total, outs, genesis, k, n - 1);
    }
  }

  lemma {:induction false} ExcludedSumsStops(txs: seq<Transaction>, genesis: bool, k: nat, n: nat)
    requires k <= n <= |txs| && StoreSpec.ExcludedSums(txs, genesis, k).Err?
    ensures StoreSpec.ExcludedSums(txs, genesis, n) == StoreSpec.ExcludedSums(txs, genesis, k)
  {
    if k < n {
      ExcludedSumsStops(txs, genesis, k, n - 1);
    }
  }

  ghost predicate AllFit(ar: Archive, c: CoinSet, s: set<Address>) {
    forall a :: a in s ==> SliceFits(SliceOf(ar, c, a))
  }

  lemma NothingToFit(ar: Archive, c: CoinSet)
    ensures AllFit(ar, c, {})
  {
  }

  /** One address decides: it fits as well, or the whole refresh fails. */
  lemma FitsOrFails(m: map<Address, AddressRow>, ar: Archive, c: CoinSet, done: set<Address>, touched: set<Address>, a: Address)
    requires AllFit(ar, c, done) && a in touched
    ensures if SliceFits(SliceOf(ar, c, a)) then AllFit(ar, c, done + {a})
            else StoreSpec.RefreshChecked(m, ar, c, touched) == Err(DatabaseConstraint)
  {
  }

  lemma AllFitted(m: map<Address, AddressRow>, ar: Archive, c: CoinSet, touched: set<Address>)
    requires AllFit(ar, c, touched)
    ensures StoreSpec.RefreshChecked(m, ar, c, touched) == Ok(Refresh(m, ar, c, touched))
  {
  }

  lemma NothingRefreshed(m: map<Address, AddressRow>, ar: Archive, c: CoinSet)
    ensures Refresh(m, ar, c, {}) == m
    ensures forall i: nat :: i < 8 ==> CountDelta(m, m, i) == 0 && BalanceDelta(m, m, i) == 0
  {
    Recompute.RefreshNone(m, ar, c);
    forall i: nat | i < 8
      ensures CountDelta(m, m, i) == 0 && BalanceDelta(m, m, i) == 0
    {
      DistributionDelta.EmptyDescribes(m, i);
    }
  }

  lemma UntouchedRow(row: BucketRow)
    ensures ShiftRow(row, 0, 0) == row
  {
  }

  /** balance_satoshis is a BIGINT column. */
  ghost predicate BalancesFit(m: map<Address, AddressRow>) {
    forall a :: a in m ==> InRange(m[a].balance)
  }

  lemma {:induction false} ApplyTxsStops(ar: Archive, c: CoinSet, b: Block, k: nat, n: nat)
    requires k <= n <= |b.txs| && TxSpec.ApplyTxs(ar, c, b, k).Err?
    ensures TxSpec.ApplyTxs(ar, c, b, n) == TxSpec.ApplyTxs(ar, c, b, k)
  {
    hide TxSpec.ApplyTx;
    if k < n {
      ApplyTxsStops(ar, c, b, k, n - 1);
    }
  }
}
