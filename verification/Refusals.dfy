/** Which fault a refused block really has: a missing or spent previous output, a negative
    fee, a coinbase that claims too much. */
module Refusals {
  import opened Wrappers
  import opened Errors
  import opened Int64
  import opened Chain
  import opened Tables
  import opened Accounting
  import opened Shape
  import opened Coins
  import opened TxSpec
  import opened TxFacts
  import opened Cache
  import opened Distribution
  import opened StoreSpec
  import opened BlockLoop
  import opened Coherence
  import opened ApplyProof
  import opened InternalErrors
  import Lifecycle
  import opened Promotion
  import opened Acceptance

  // --- the first input that cannot be spent ---

  /** The inputs before j are spendable and what they are worth fits; j names an outpoint. */
  ghost predicate ReachesInput(ar: Archive, c: CoinSet, txid: TxId, ins: seq<Input>, j: nat) {
    j < |ins| && InputsSpendable(c, txid, ins, j) && InputTotal(ar, ins, j) <= MAX_INT64 && ins[j].prev.Some?
  }

  /** The first input that cannot be spent names an outpoint that is not there. */
  ghost predicate Missing(ar: Archive, c: CoinSet, txid: TxId, ins: seq<Input>, j: nat) {
    ReachesInput(ar, c, txid, ins, j) && ins[j].prev.value !in c
  }

  ghost predicate SpentBy(c: CoinSet, op: OutPoint, txid: TxId, vin: nat) {
    op in c && c[op].spend.Some? && c[op].spend.value.txid == txid && c[op].spend.value.vin == vin
  }

  /** The first input that cannot be spent names a coin that another input spent. */
  ghost predicate Taken(ar: Archive, c: CoinSet, txid: TxId, ins: seq<Input>, j: nat) {
    && ReachesInput(ar, c, txid, ins, j) && ins[j].prev.value in c
    && c[ins[j].prev.value].spend.Some? && !SpentBy(c, ins[j].prev.value, txid, j)
  }

  /** checkPrevout's answer for one input, given that those before it passed. */
  lemma OneInput(ar: Archive, c: CoinSet, txid: TxId, ins: seq<Input>, k: nat)
    requires 0 < k <= |ins| && Backed(ar, c) && InputSum(ar, c, txid, ins, k - 1).Ok?
    ensures InputSum(ar, c, txid, ins, k) == Err(MissingPrevout)
            <==> Missing(ar, c, txid, ins, k - 1)
    ensures InputSum(ar, c, txid, ins, k) == Err(DoubleSpend)
            <==> Taken(ar, c, txid, ins, k - 1)
  {
    InputSumIsTotal(ar, c, txid, ins, k - 1);
  }

  lemma {:induction false} InputSumStops(ar: Archive, c: CoinSet, txid: TxId, ins: seq<Input>, k: nat)
    requires k <= |ins| && Backed(ar, c)
    ensures InputSum(ar, c, txid, ins, k) == Err(MissingPrevout)
            <==> exists j :: 0 <= j < k && Missing(ar, c, txid, ins, j)
    ensures InputSum(ar, c, txid, ins, k) == Err(DoubleSpend)
            <==> exists j :: 0 <= j < k && Taken(ar, c, txid, ins, j)
  {
    hide Missing, Taken, InputsSpendable, InputTotal;
    if k > 0 {
      InputSumStops(ar, c, txid, ins, k - 1);
      if InputSum(ar, c, txid, ins, k - 1).Ok? {
        OneInput(ar, c, txid, ins, k);
        forall j | 0 <= j < k - 1
          ensures !Missing(ar, c, txid, ins, j) && !Taken(ar, c, txid, ins, j)
        {
          NoneBadBefore(ar, c, txid, ins, k - 1, j);
        }
      } else {
        NotBadAfter(ar, c, txid, ins, k);
      }
    }
  }

  lemma NoneBadBefore(ar: Archive, c: CoinSet, txid: TxId, ins: seq<Input>, k: nat, j: nat)
    requires j < k <= |ins| && Backed(ar, c) && InputSum(ar, c, txid, ins, k).Ok?
    ensures !Missing(ar, c, txid, ins, j) && !Taken(ar, c, txid, ins, j)
  {
    InputSumIsTotal(ar, c, txid, ins, k);
    assert Spendable(c, ins[j].prev.value, txid, j);
  }

  /** After a failed sum no later input is the first bad one. */
  lemma NotBadAfter(ar: Archive, c: CoinSet, txid: TxId, ins: seq<Input>, k: nat)
    requires 0 < k <= |ins| && Backed(ar, c) && InputSum(ar, c, txid, ins, k - 1).Err?
    ensures !Missing(ar, c, txid, ins, k - 1) && !Taken(ar, c, txid, ins, k - 1)
  {
    InputSumIsTotal(ar, c, txid, ins, k - 1);
  }

  // --- one transaction ---

  ghost predicate SomeMissing(ar: Archive, c: CoinSet, txn: Transaction) {
    exists j :: 0 <= j < |txn.inputs| && Missing(ar, c, txn.txid, txn.inputs, j)
  }

  ghost predicate SomeTaken(ar: Archive, c: CoinSet, txn: Transaction) {
    exists j :: 0 <= j < |txn.inputs| && Taken(ar, c, txn.txid, txn.inputs, j)
  }

  lemma FeeStops(ar: Archive, c: CoinSet, txn: Transaction)
    requires Backed(ar, c)
    ensures TxFee(ar, c, txn) == Err(MissingPrevout)
            <==> !txn.isCoinbase && SomeMissing(ar, c, txn)
    ensures TxFee(ar, c, txn) == Err(DoubleSpend)
            <==> !txn.isCoinbase && SomeTaken(ar, c, txn)
    ensures TxFee(ar, c, txn) == Err(NegativeFee) ==> !txn.isCoinbase && Underpaid(ar, txn)
  {
    hide Missing, Taken, InputSum, OutputSum, InputTotal, OutputTotal, Wrap;
    var ins, outs := txn.inputs, Bodies(txn.outputs);
    InputSumStops(ar, c, txn.txid, ins, |ins|);
    InputSumIsTotal(ar, c, txn.txid, ins, |ins|);
    SumErrors(ar, c, txn.txid, ins, outs, |outs|);
    SumErrors(ar, c, txn.txid, ins, outs, |ins|);
    if OutputSum(outs, |outs|).Ok? {
      OutputSumIsTotal(outs, |outs|);
    }
  }

  /** The inputs are worth less than the outputs, in Go's arithmetic. */
  ghost predicate Underpaid(ar: Archive, txn: Transaction) {
    Wrap(InputTotal(ar, txn.inputs, |txn.inputs|) - OutputTotal(Bodies(txn.outputs), |txn.outputs|)) < 0
  }

  ghost predicate RepeatsInput(ins: seq<Input>) {
    exists i, j :: 0 <= i < j < |ins| && ins[i].prev == ins[j].prev
  }

  /** What each of the two spending errors says about a transaction, and that no row
      vanishes between the check and the update. */
  lemma TxStops(ar: Archive, c: CoinSet, h: Hash, i: nat, txn: Transaction, genesis: bool)
    requires Backed(ar, c)
    ensures var r := ApplyTx(ar, c, h, i, txn, genesis);
            && (r == Err(MissingPrevout) <==> !txn.isCoinbase && SomeMissing(ar, c, txn))
            && (!txn.isCoinbase && SomeTaken(ar, c, txn) ==> r == Err(DoubleSpend))
            && (r == Err(DoubleSpend) ==> !txn.isCoinbase && (SomeTaken(ar, c, txn) || RepeatsInput(txn.inputs)))
            && (r == Err(NegativeFee) ==> !txn.isCoinbase && Underpaid(ar, txn))
            && r != Err(RowVanished)
  {
    hide SomeMissing, SomeTaken, TxFee, PersistOutputs, MarkInputs, Underpaid, RepeatsInput;
    FeeStops(ar, c, txn);
    FeeErrors(ar, c, txn);
    if TxFee(ar, c, txn).Ok? {
      var p := Persist(ar, h, i, txn.txid, RowOf(txn, TxFee(ar, c, txn).value));
      if p.Ok? {
        var start, n := OutStep(p.value.outAddrs, c), |txn.outputs|;
        OutputErrors(start, h, txn.txid, txn.outputs, genesis, txn.txid !in ar.txs, n);
        var s := PersistOutputs(start, h, txn.txid, txn.outputs, genesis, txn.txid !in ar.txs, n);
        if s.Ok? && !txn.isCoinbase {
          MarkStops(ar, c, h, txn, genesis, start, s.value);
        }
      }
    }
  }

  /** Once every input alone is spendable, marking fails only on a repeated one. */
  lemma {:induction false} MarkStops(ar: Archive, c: CoinSet, h: Hash, txn: Transaction, genesis: bool, start: OutStep, s: OutStep)
    requires Backed(ar, c) && TxFee(ar, c, txn).Ok? && !txn.isCoinbase && start.coins == c
    requires PersistOutputs(start, h, txn.txid, txn.outputs, genesis, txn.txid !in ar.txs, |txn.outputs|) == Ok(s)
    ensures var r := MarkInputs(s.coins, h, txn.txid, txn.inputs, |txn.inputs|);
            r.Err? ==> r == Err(DoubleSpend) && RepeatsInput(txn.inputs)
  {
    hide PersistOutputs, MarkInputs, InputTotal, Creates, Spendable;
    var ins := txn.inputs;
    InputSumIsTotal(ar, c, txn.txid, ins, |ins|);
    PersistOutputsIff(start, h, txn.txid, txn.outputs, genesis, txn.txid !in ar.txs, |txn.outputs|);
    SpendableAfterCreates(c, h, txn.txid, RowOf(txn, None), genesis);
    MarkInputsIff(s.coins, h, txn.txid, ins, |ins|);
    Lifecycle.OnlyRepeatsFail(s.coins, h, txn.txid, ins, |ins|);
  }

  // --- the loop ---

  lemma {:induction false} LoopFails(ar: Archive, c: CoinSet, b: Block, n: nat, e: Error) returns (k: nat, lp: Loop)
    requires n <= |b.txs| && ApplyTxs(ar, c, b, n) == Err(e)
    ensures k < n && ApplyTxs(ar, c, b, k) == Ok(lp)
    ensures e == AmountOverflow || ApplyTx(lp.ar, lp.coins, b.hash, k, b.txs[k], b.height == 0) == Err(e)
  {
    hide ApplyTx;
    if ApplyTxs(ar, c, b, n - 1).Err? {
      k, lp := LoopFails(ar, c, b, n - 1, e);
    } else {
      k, lp := n - 1, ApplyTxs(ar, c, b, n - 1).value;
    }
  }

  lemma {:induction false} LoopStopped(ar: Archive, c: CoinSet, b: Block, k: nat, n: nat, lp: Loop, e: Error)
    requires k < n <= |b.txs| && ApplyTxs(ar, c, b, k) == Ok(lp)
    requires ApplyTx(lp.ar, lp.coins, b.hash, k, b.txs[k], b.height == 0) == Err(e)
    ensures ApplyTxs(ar, c, b, n) == Err(e)
  {
    hide ApplyTx;
    if k + 1 < n {
      LoopStopped(ar, c, b, k, n - 1, lp, e);
    }
  }

  // --- the block ---

  /** The block is admitted and its first k transactions are acceptable. */
  ghost predicate Arrives(db: Database, b: Block, rows: seq<TxRow>, k: nat) {
    && WellFormed(b) && InPlace(db, b) && HeaderFits(db.ar, b) && k <= |b.txs|
    && AllAcceptable(WithHeader(db.ar, b), db.coins, b, rows, k) && FeesAt(rows, k) <= MAX_INT64
  }

  /** The tables and the coins that transaction k meets. */
  ghost function Before(db: Database, b: Block, rows: seq<TxRow>, k: nat): (Archive, CoinSet)
    requires k <= |b.txs| == |rows|
  {
    (TablesAt(WithHeader(db.ar, b), b, rows, k), CoinsAt(db.coins, b, rows, k))
  }

  ghost predicate MissingIn(db: Database, b: Block, rows: seq<TxRow>, k: nat) {
    && k < |b.txs| && Arrives(db, b, rows, k) && !b.txs[k].isCoinbase
    && var m := Before(db, b, rows, k); SomeMissing(m.0, m.1, b.txs[k])
  }

  ghost predicate TakenIn(db: Database, b: Block, rows: seq<TxRow>, k: nat) {
    && k < |b.txs| && Arrives(db, b, rows, k) && !b.txs[k].isCoinbase
    && var m := Before(db, b, rows, k); SomeTaken(m.0, m.1, b.txs[k])
  }

  ghost predicate RepeatedIn(db: Database, b: Block, rows: seq<TxRow>, k: nat) {
    k < |b.txs| && Arrives(db, b, rows, k) && !b.txs[k].isCoinbase && RepeatsInput(b.txs[k].inputs)
  }

  ghost predicate UnderpaidIn(db: Database, b: Block, rows: seq<TxRow>, k: nat) {
    k < |b.txs| && Arrives(db, b, rows, k) && !b.txs[k].isCoinbase && Underpaid(Before(db, b, rows, k).0, b.txs[k])
  }

  /** All transactions are acceptable, and the coinbase pays more than subsidy and fees. */
  ghost predicate OverclaimedAs(sch: SubsidySchedule, db: Database, b: Block, rows: seq<TxRow>)
    requires Sound(sch)
  {
    && Arrives(db, b, rows, |b.txs|) && b.height >= 0
    && OutputTotal(Bodies(b.txs[0].outputs), |b.txs[0].outputs|) > SubsidyAt(sch, b.height) + FeesAt(rows, |b.txs|)
  }

  lemma StartsLoop(sch: SubsidySchedule, db: Database, chain: seq<Hash>, b: Block, hd: Header)
    requires Sound(sch) && Coherent(sch, db, chain) && Admit(db, b) == Ok(hd)
    ensures WellFormed(b) && InPlace(db, b) && HeaderFits(db.ar, b) && hd.ar == WithHeader(db.ar, b)
    ensures LoopStart(hd.ar, db.coins, b) && Admitted(db, b, hd)
  {
    hide Coherent, Admit, CheckBlock, CheckContinuity, ApplyHeader, WellFormed, InPlace, HeaderFits;
    AdmitIff(db, b, hd);
    AdmittedFits(sch, db, chain, b, hd);
    HeaderOf(sch, db, chain, b, hd);
    HeaderTables(db.ar, chain, b, hd);
    StartHolds(sch, db, chain, b, hd);
  }

  /** The loop fails with an error of its k-th transaction only if that transaction, met
      where it stands, has the fault. */
  lemma LoopFault(sch: SubsidySchedule, db: Database, chain: seq<Hash>, b: Block, hd: Header, e: Error)
    returns (rows: seq<TxRow>, k: nat)
    requires Sound(sch) && Coherent(sch, db, chain) && Admit(db, b) == Ok(hd)
    requires ApplyTxs(hd.ar, db.coins, b, |b.txs|) == Err(e)
    ensures k < |b.txs| && |rows| == |b.txs| && Arrives(db, b, rows, k) && e != RowVanished
    ensures e == MissingPrevout ==> MissingIn(db, b, rows, k)
    ensures e == DoubleSpend ==> TakenIn(db, b, rows, k) || RepeatedIn(db, b, rows, k)
    ensures e == NegativeFee ==> UnderpaidIn(db, b, rows, k)
  {
    hide Coherent, Admit, ApplyTxs, ApplyTx, AllAcceptable, WellFormed, InPlace, HeaderFits, LoopStart, LoopInv;
    hide SomeMissing, SomeTaken, RepeatsInput, Underpaid, TablesAt, CoinsAt, FeesAt, WithHeader;
    StartsLoop(sch, db, chain, b, hd);
    var lp: Loop;
    k, lp := LoopFails(hd.ar, db.coins, b, |b.txs|, e);
    rows := LoopOnlyIf(hd.ar, db.coins, b, k, lp);
    RowPerTx(hd.ar, db.coins, b, rows, k);
    LoopHolds(hd.ar, db.coins, b, k, lp);
    BackedAt(hd.ar, db.coins, b, k, lp);
    TxStops(lp.ar, lp.coins, b.hash, k, b.txs[k], b.height == 0);
  }

  lemma RowPerTx(ar: Archive, c: CoinSet, b: Block, rows: seq<TxRow>, k: nat)
    requires k <= |b.txs| && AllAcceptable(ar, c, b, rows, k)
    ensures |rows| == |b.txs|
  {
  }

  lemma LoopReachesFault(sch: SubsidySchedule, db: Database, chain: seq<Hash>, b: Block, rows: seq<TxRow>, k: nat) returns (hd: Header)
    requires Sound(sch) && Coherent(sch, db, chain) && (MissingIn(db, b, rows, k) || TakenIn(db, b, rows, k))
    ensures Admit(db, b) == Ok(hd)
    ensures ApplyTxs(hd.ar, db.coins, b, |b.txs|) == Err(if MissingIn(db, b, rows, k) then MissingPrevout else DoubleSpend)
  {
    hide Coherent, Admit, ApplyTxs, ApplyTx, AllAcceptable, WellFormed, InPlace, HeaderFits, LoopStart, LoopInv;
    hide SomeMissing, SomeTaken, TablesAt, CoinsAt, FeesAt, WithHeader, Admitted;
    hd := FitsIsAdmitted(sch, db, chain, b);
    StartsLoop(sch, db, chain, b, hd);
    RowPerTx(hd.ar, db.coins, b, rows, k);
    var lp := LoopIf(hd.ar, db.coins, b, rows, k);
    LoopHolds(hd.ar, db.coins, b, k, lp);
    BackedAt(hd.ar, db.coins, b, k, lp);
    TxStops(lp.ar, lp.coins, b.hash, k, b.txs[k], b.height == 0);
    var e := if MissingIn(db, b, rows, k) then MissingPrevout else DoubleSpend;
    LoopStopped(hd.ar, db.coins, b, k, |b.txs|, lp, e);
  }

  // --- the other stages ---

  lemma RollupRaises(ar: Archive, canonical: set<Hash>, rollup: map<Hash, RollupRow>, b: Block, before: Checkpoint, facts: BlockFacts)
    ensures Raises(ApplyRollup(ar, canonical, rollup, b, before, facts),
                   {RollupParentMissing, RollupInvariant, AmountOverflow, DatabaseConstraint, ImmutableConflict})
  {
    ExcludedSumsErrors(b.txs, b.height == 0, |b.txs|);
  }

  lemma PublishRaises(sch: SubsidySchedule, db: Database, b: Block, canonical: set<Hash>, lp: Loop)
    requires Sound(sch) && |db.buckets| == 8 && |b.txs| > 0
    ensures var r := Publish(sch, db, b, canonical, lp);
            && Raises(r, FACTS_ERRORS + {RollupParentMissing, RollupInvariant, DistributionInvariant, DatabaseConstraint, ImmutableConflict})
            && (r == Err(CoinbaseOverclaim) ==> FactsOfBlock(sch, b, lp.fee) == Err(CoinbaseOverclaim))
  {
    hide RefreshChecked, BucketsAfter, FactsOfBlock, ApplyRollup;
    FactsErrors(sch, b, lp.fee);
    var addresses := RefreshChecked(db.addresses, lp.ar, lp.coins, lp.touched);
    RefreshErrors(db.addresses, lp.ar, lp.coins, lp.touched);
    if addresses.Ok? {
      BucketsOnlyError(db.buckets, db.addresses, addresses.value);
      var facts := FactsOfBlock(sch, b, lp.fee);
      if facts.Ok? {
        RollupRaises(lp.ar, canonical, db.rollup, b, db.checkpoint, facts.value);
      }
    }
  }

  lemma OverclaimFault(sch: SubsidySchedule, db: Database, chain: seq<Hash>, b: Block, hd: Header, lp: Loop) returns (rows: seq<TxRow>)
    requires Sound(sch) && Coherent(sch, db, chain) && Admit(db, b) == Ok(hd) && |b.txs| > 0
    requires ApplyTxs(hd.ar, db.coins, b, |b.txs|) == Ok(lp) && FactsOfBlock(sch, b, lp.fee) == Err(CoinbaseOverclaim)
    ensures OverclaimedAs(sch, db, b, rows)
  {
    hide Coherent, Admit, ApplyTxs, AllAcceptable, WellFormed, InPlace, HeaderFits, LoopStart, TablesAt, CoinsAt;
    hide FeesAt, WithHeader, ComputeBlockFacts;
    StartsLoop(sch, db, chain, b, hd);
    rows := LoopOnlyIf(hd.ar, db.coins, b, |b.txs|, lp);
    RowPerTx(hd.ar, db.coins, b, rows, |b.txs|);
    var outs := Bodies(b.txs[0].outputs);
    SumErrors(db.ar, db.coins, "", [], outs, |outs|);
    OutputSumIsTotal(outs, |outs|);
  }

  /** What ApplyBlock's result is, stage by stage. */
  lemma StageOf(sch: SubsidySchedule, db: Database, b: Block)
    requires Sound(sch) && |db.buckets| == 8
    ensures Admit(db, b).Err? ==> ApplyBlock(sch, db, b) == Err(Admit(db, b).error)
    ensures Admit(db, b).Ok? ==>
              && |b.txs| > 0
              && var lp := ApplyTxs(Admit(db, b).value.ar, db.coins, b, |b.txs|);
              && (lp.Err? ==> ApplyBlock(sch, db, b) == Err(lp.error))
              && (lp.Ok? ==> ApplyBlock(sch, db, b) == Publish(sch, db, b, Admit(db, b).value.canonical, lp.value))
  {
    hide Admit, ApplyTxs, Publish, Admitted;
    if Admit(db, b).Ok? {
      AdmitIff(db, b, Admit(db, b).value);
      AdmittedHasTransactions(db, b, Admit(db, b).value);
    }
  }

  /** On every coherent store the first input that cannot be spent decides between the two
      spending errors, a repeated one is caught by marking, a negative fee is real, and no
      row ever vanishes within the SQL transaction. */
  lemma RefusedForSpending(sch: SubsidySchedule, db: Database, chain: seq<Hash>, b: Block)
    requires Sound(sch) && Coherent(sch, db, chain) && |db.buckets| == 8
    ensures var r := ApplyBlock(sch, db, b);
            && (r == Err(MissingPrevout) <==> exists rows, k :: MissingIn(db, b, rows, k))
            && ((exists rows, k :: TakenIn(db, b, rows, k)) ==> r == Err(DoubleSpend))
            && (r == Err(DoubleSpend) ==> exists rows, k :: TakenIn(db, b, rows, k) || RepeatedIn(db, b, rows, k))
            && (r == Err(NegativeFee) ==> exists rows, k :: UnderpaidIn(db, b, rows, k))
            && r != Err(RowVanished)
  {
    hide Coherent, Admit, ApplyTxs, ApplyBlock, Publish, FactsOfBlock, MissingIn, TakenIn, RepeatedIn, UnderpaidIn, Arrives;
    StageOf(sch, db, b);
    RefusedBefore(db, b);
    if rows, k :| MissingIn(db, b, rows, k) {
      var hd := LoopReachesFault(sch, db, chain, b, rows, k);
    }
    if rows, k :| TakenIn(db, b, rows, k) {
      OneFault(db, b, rows, k);
      var hd := LoopReachesFault(sch, db, chain, b, rows, k);
    }
    var hd := Admit(db, b);
    if hd.Ok? {
      var lp := ApplyTxs(hd.value.ar, db.coins, b, |b.txs|);
      if lp.Err? {
        var rows, k := LoopFault(sch, db, chain, b, hd.value, lp.error);
      } else {
        PublishRaises(sch, db, b, hd.value.canonical, lp.value);
      }
    }
  }

  /** No two inputs are both the first that cannot be spent. */
  lemma OneFault(db: Database, b: Block, rows: seq<TxRow>, k: nat)
    ensures MissingIn(db, b, rows, k) ==> !TakenIn(db, b, rows, k)
  {
    hide Arrives, TablesAt, CoinsAt, InputTotal, WithHeader;
  }

  /** A coinbase refused for claiming too much does, and a block called incomplete does not
      hold the transactions it declares. */
  lemma RefusedForClaims(sch: SubsidySchedule, db: Database, chain: seq<Hash>, b: Block)
    requires Sound(sch) && Coherent(sch, db, chain) && |db.buckets| == 8
    ensures var r := ApplyBlock(sch, db, b);
            && (r == Err(CoinbaseOverclaim) ==> exists rows :: OverclaimedAs(sch, db, b, rows))
            && (r == Err(IncompleteBlock) <==> |b.txs| != b.txCount)
  {
    hide Coherent, Admit, ApplyTxs, ApplyBlock, Publish, FactsOfBlock, OverclaimedAs;
    StageOf(sch, db, b);
    RefusedBefore(db, b);
    var hd := Admit(db, b);
    if hd.Ok? {
      LoopErrors(hd.value.ar, db.coins, b, |b.txs|);
      var lp := ApplyTxs(hd.value.ar, db.coins, b, |b.txs|);
      if lp.Ok? {
        PublishRaises(sch, db, b, hd.value.canonical, lp.value);
        if ApplyBlock(sch, db, b) == Err(CoinbaseOverclaim) {
          var rows := OverclaimFault(sch, db, chain, b, hd.value, lp.value);
        }
      }
    }
  }

  lemma RefusedBefore(db: Database, b: Block)
    ensures Raises(Admit(db, b), SHAPE_ERRORS + {NonSequentialBlock, DatabaseConstraint})
    ensures Admit(db, b) == Err(IncompleteBlock) <==> |b.txs| != b.txCount
  {
    hide CheckTransactions, CheckContinuity, ApplyHeader;
    AdmitErrors(db, b);
    TransactionsComplete(b);
    HeaderComplete(db, b);
  }

  lemma TransactionsComplete(b: Block)
    ensures CheckBlock(b) == Err(IncompleteBlock) <==> |b.txs| != b.txCount
  {
    ShapeErrors(b.txs, |b.txs|);
  }

  lemma HeaderComplete(db: Database, b: Block)
    ensures CheckContinuity(b, db.checkpoint) != Err(IncompleteBlock)
    ensures ApplyHeader(db.ar, db.canonical, b) != Err(IncompleteBlock)
  {
  }

  /** The errors that ApplyBlock and RollbackTo can report. */
  lemma StoreErrors(sch: SubsidySchedule, db: Database, b: Block)
    requires Sound(sch) && |db.buckets| == 8
    ensures Raises(ApplyBlock(sch, db, b),
                   SHAPE_ERRORS + LOOP_ERRORS + FACTS_ERRORS
                   + {NonSequentialBlock, RollupParentMissing, RollupInvariant, DistributionInvariant})
  {
    hide Admit, ApplyTxs, ApplyBlock, Publish, FactsOfBlock;
    StageOf(sch, db, b);
    AdmitErrors(db, b);
    if Admit(db, b).Ok? {
      var hd := Admit(db, b).value;
      LoopErrors(hd.ar, db.coins, b, |b.txs|);
      var lp := ApplyTxs(hd.ar, db.coins, b, |b.txs|);
      if lp.Ok? {
        PublishRaises(sch, db, b, hd.canonical, lp.value);
      }
    }
  }

  lemma RollbackErrors(db: Database, a: Hash)
    requires |db.buckets| == 8
    ensures Raises(RollbackTo(db, a), {AncestorNotFound, DatabaseConstraint, DistributionInvariant})
  {
    hide BucketsAfter, RefreshChecked;
    var orphans := Orphans(db.ar, db.canonical, a);
    var addresses := RefreshChecked(db.addresses, db.ar, Undo(db.coins, orphans), RolledBackAddresses(db.ar, db.coins, orphans));
    RefreshErrors(db.addresses, db.ar, Undo(db.coins, orphans), RolledBackAddresses(db.ar, db.coins, orphans));
    if addresses.Ok? {
      BucketsOnlyError(db.buckets, db.addresses, addresses.value);
    }
  }
}
