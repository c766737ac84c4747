/** When a txid identifies its outputs' destinations, the tables remember every block
    exactly as it was given: rebuilding applies the very same blocks, and rolling back is
    the exact inverse of applying. */
module Originals {
  import opened Wrappers
  import opened Chain
  import opened Tables
  import opened Accounting
  import opened TxFacts
  import opened StoreSpec
  import opened Integrity
  import opened BlockLoop
  import opened Coherence
  import opened ApplyProof
  import opened ApplyCoherence
  import opened Determined
  import opened Prefixes
  import opened Recovery
  import opened Inverse
  import opened Rebuild
  import opened PathIndependence
  import opened Branches

  // --- the hypothesis ---

  ghost predicate SameNames(t: Transaction, u: Transaction) {
    t.txid == u.txid ==>
      forall v :: 0 <= v < |t.outputs| && v < |u.outputs| ==> t.outputs[v].address == u.outputs[v].address
  }

  ghost predicate BlocksAgree(b: Block, c: Block) {
    forall p, q :: 0 <= p < |b.txs| && 0 <= q < |c.txs| ==> SameNames(b.txs[p], c.txs[q])
  }

  /** Wherever a txid appears in the history, its outputs have the same destinations. */
  ghost predicate Identified(ops: seq<Op>) {
    forall i, j :: 0 <= i < |ops| && 0 <= j < |ops| && ops[i].Apply? && ops[j].Apply? ==>
      BlocksAgree(ops[i].block, ops[j].block)
  }

  // --- blocks are stored as given ---

  /** The tables hold b in every detail. */
  ghost predicate AsGiven(ar: Archive, b: Block) {
    && b.hash in ar.blocks && ar.blocks[b.hash] == HeaderRow(b)
    && b.hash in ar.blockTxs && ar.blockTxs[b.hash] == Ids(b.txs)
    && StoredUpTo(ar, b.txs, |b.txs|)
  }

  /** Block h is stored as one of the first k calls gave it. */
  ghost predicate Given(ops: seq<Op>, k: nat, ar: Archive, h: Hash)
    requires k <= |ops|
  {
    exists i :: 0 <= i < k && ops[i].Apply? && ops[i].block.hash == h && AsGiven(ar, ops[i].block)
  }

  lemma DestinationStays(ar: Archive, ar': Archive, b: Block, t: Transaction, v: nat)
    requires Extends(ar, ar') && DestinationsFrom(ar, ar', b, |b.txs|) && v < |t.outputs|
    requires forall q :: 0 <= q < |b.txs| ==> SameNames(t, b.txs[q])
    requires AddressStored(ar.outAddrs, OutPoint(t.txid, v), t.outputs[v].address)
    ensures AddressStored(ar'.outAddrs, OutPoint(t.txid, v), t.outputs[v].address)
  {
    if t.outputs[v].address == "" {
      NotSupplied(b, t, v);
    }
  }

  lemma NotSupplied(b: Block, t: Transaction, v: nat)
    requires v < |t.outputs| && t.outputs[v].address == ""
    requires forall q :: 0 <= q < |b.txs| ==> SameNames(t, b.txs[q])
    ensures !SuppliedBy(b, |b.txs|, OutPoint(t.txid, v))
  {
    forall q | 0 <= q < |b.txs|
      ensures !Supplies(b.txs[q].txid, b.txs[q].outputs, |b.txs[q].outputs|, OutPoint(t.txid, v))
    {
      assert SameNames(t, b.txs[q]);
    }
  }

  lemma AsGivenStays(ar: Archive, ar': Archive, b: Block, c: Block)
    requires AsGiven(ar, c) && Extends(ar, ar') && DestinationsFrom(ar, ar', b, |b.txs|) && BlocksAgree(c, b)
    ensures AsGiven(ar', c)
  {
    forall p | 0 <= p < |c.txs|
      ensures Stored(ar', c.txs[p])
    {
      var t := c.txs[p];
      assert Stored(ar, t);
      forall v | 0 <= v < |t.outputs|
        ensures AddressStored(ar'.outAddrs, OutPoint(t.txid, v), t.outputs[v].address)
      {
        DestinationStays(ar, ar', b, t, v);
      }
    }
  }

  lemma AppliedAsGiven(sch: SubsidySchedule, db: Database, chain: seq<Hash>, b: Block, db': Database)
    requires Sound(sch) && Coherent(sch, db, chain) && |db.buckets| == 8 && ApplyBlock(sch, db, b) == Ok(db')
    ensures AsGiven(db'.ar, b)
  {
    hide ApplyBlock, StoredUpTo, DestinationsFrom, BlockRowOk, RowsOk, ChainValid, CoinsOk, AccountingOk, RollupOk, DerivedOk;
    ApplyAdds(sch, db, chain, b, db');
    ApplyCoherent(sch, db, chain, b, db');
    HeaderWritten(sch, db, chain, b, db');
  }

  lemma GivenStep(sch: SubsidySchedule, ops: seq<Op>, db: Database, chain: seq<Hash>, b: Block, db': Database, h: Hash)
    requires Sound(sch) && Coherent(sch, db, chain) && |db.buckets| == 8 && ApplyBlock(sch, db, b) == Ok(db')
    requires |ops| > 0 && ops[|ops| - 1] == Apply(b) && Identified(ops)
    requires h in db.ar.blocks ==> Given(ops, |ops| - 1, db.ar, h)
    requires h in db'.ar.blocks
    ensures Given(ops, |ops|, db'.ar, h)
  {
    hide ApplyBlock, Coherent, AsGiven, DestinationsFrom, StoredUpTo, BlocksAgree, Extends;
    ApplyAdds(sch, db, chain, b, db');
    ApplyCoherent(sch, db, chain, b, db');
    HeaderWritten(sch, db, chain, b, db');
    if h == b.hash {
      AppliedAsGiven(sch, db, chain, b, db');
    } else {
      var i :| 0 <= i < |ops| - 1 && ops[i].Apply? && ops[i].block.hash == h && AsGiven(db.ar, ops[i].block);
      AsGivenStays(db.ar, db'.ar, b, ops[i].block);
    }
  }

  /** After any such history, every stored block is stored as some call gave it. */
  lemma {:induction false} HistoryRemembered(sch: SubsidySchedule, ops: seq<Op>, h: Hash)
    requires Sound(sch) && Identified(ops) && h in Run(sch, ops).ar.blocks
    ensures Given(ops, |ops|, Run(sch, ops).ar, h)
  {
    hide ApplyBlock, RollbackTo, Coherent, AsGiven, BlocksAgree;
    if ops != [] {
      var init, op := ops[..|ops| - 1], ops[|ops| - 1];
      var db := Run(sch, init);
      var chain := RunCoherent(sch, init);
      assert Identified(init);
      if h in db.ar.blocks {
        HistoryRemembered(sch, init, h);
        GivenEarlier(ops, db.ar, h);
      }
      if op.Apply? && ApplyBlock(sch, db, op.block).Ok? {
        GivenStep(sch, ops, db, chain, op.block, ApplyBlock(sch, db, op.block).value, h);
      } else if op.Rollback? && RollbackTo(db, op.ancestor).Ok? {
        RollbackKeepsArchive(db, op.ancestor);
      }
    }
  }

  lemma GivenEarlier(ops: seq<Op>, ar: Archive, h: Hash)
    requires ops != [] && Given(ops[..|ops| - 1], |ops| - 1, ar, h)
    ensures Given(ops, |ops| - 1, ar, h) && Given(ops, |ops|, ar, h)
  {
    hide AsGiven;
    var init := ops[..|ops| - 1];
    var i :| 0 <= i < |init| && init[i].Apply? && init[i].block.hash == h && AsGiven(ar, init[i].block);
    assert ops[i] == init[i];
  }

  lemma RollbackKeepsArchive(db: Database, a: Hash)
    requires |db.buckets| == 8 && RollbackTo(db, a).Ok?
    ensures RollbackTo(db, a).value.ar == db.ar
  {
  }

  // --- rebuilding gives the same blocks ---

  lemma RebuiltTxIsGiven(ar: Archive, t: Transaction)
    requires Stored(ar, t)
    ensures RebuiltTx(ar, t.txid) == t
  {
    var row := ar.txs[t.txid];
    assert row.outputs == Bodies(t.outputs);
    forall v | 0 <= v < |t.outputs|
      ensures Output(row.outputs[v], StoredDestination(ar, OutPoint(t.txid, v))) == t.outputs[v]
    {
      assert AddressStored(ar.outAddrs, OutPoint(t.txid, v), t.outputs[v].address);
    }
    assert RebuiltOutputs(ar, t.txid) == t.outputs;
  }

  lemma RebuiltIsGiven(ar: Archive, b: Block)
    requires AsGiven(ar, b)
    ensures RebuiltBlock(ar, b.hash) == b
  {
    forall p | 0 <= p < |b.txs|
      ensures RebuiltTx(ar, Ids(b.txs)[p]) == b.txs[p]
    {
      assert Stored(ar, b.txs[p]);
      RebuiltTxIsGiven(ar, b.txs[p]);
    }
    assert RebuiltBlock(ar, b.hash).txs == b.txs;
  }

  /** Some call of the history offered b. */
  ghost predicate Offered(ops: seq<Op>, b: Block) {
    exists i :: 0 <= i < |ops| && ops[i] == Apply(b)
  }

  lemma CanonicalOffered(sch: SubsidySchedule, ops: seq<Op>, h: Hash)
    requires Sound(sch) && Identified(ops) && h in Run(sch, ops).ar.blocks
    ensures Offered(ops, RebuiltBlock(Run(sch, ops).ar, h))
  {
    hide Run, AsGiven, BlocksAgree, RebuiltBlock;
    HistoryRemembered(sch, ops, h);
    var ar := Run(sch, ops).ar;
    var i :| 0 <= i < |ops| && ops[i].Apply? && ops[i].block.hash == h && AsGiven(ar, ops[i].block);
    RebuiltIsGiven(ar, ops[i].block);
  }

  /** Path independence with the blocks the history itself applied: an empty store that is
      given those of the final canonical chain, once and in order, accepts them all and
      ends in the same derived state. */
  lemma SameBlocksSameState(sch: SubsidySchedule, ops: seq<Op>) returns (chain: seq<Hash>, bs: seq<Block>, s: Database)
    requires Sound(sch) && Identified(ops)
    ensures Coherent(sch, Run(sch, ops), chain)
    ensures |bs| == |chain| && forall i :: 0 <= i < |chain| ==> bs[i].hash == chain[i] && Offered(ops, bs[i])
    ensures ApplyAll(sch, EMPTY, bs) == Ok(s)
    ensures SameDerived(s, Run(sch, ops)) && SameLedger(s, Run(sch, ops), chain)
  {
    hide Coherent, PrefixesFit, ApplyAll, SameDerived, SameLedger, Run, Identified, Offered;
    chain := RunFits(sch, ops);
    s := RebuiltFromScratch(sch, Run(sch, ops), chain);
    bs := RebuiltChain(Run(sch, ops).ar, chain);
    forall i | 0 <= i < |chain|
      ensures bs[i].hash == chain[i] && Offered(ops, bs[i])
    {
      CanonicalOffered(sch, ops, chain[i]);
    }
  }

  // --- the exact inverse ---

  function Applied(bs: seq<Block>): (ops: seq<Op>)
    ensures |ops| == |bs| && forall i :: 0 <= i < |bs| ==> ops[i] == Apply(bs[i])
  {
    seq(|bs|, i requires 0 <= i < |bs| => Apply(bs[i]))
  }

  lemma IdentifiedPrefix(ops: seq<Op>, more: seq<Op>)
    requires Identified(ops + more)
    ensures Identified(ops)
  {
    hide BlocksAgree;
    var all := ops + more;
    forall i, j | 0 <= i < |ops| && 0 <= j < |ops| && ops[i].Apply? && ops[j].Apply?
      ensures BlocksAgree(ops[i].block, ops[j].block)
    {
      assert all[i] == ops[i] && all[j] == ops[j];
    }
  }

  lemma AgreesWithRun(ops: seq<Op>, bs: seq<Block>, i: nat, k: nat)
    requires Identified(ops + Applied(bs)) && i < |ops| && ops[i].Apply? && k < |bs|
    ensures BlocksAgree(ops[i].block, bs[k])
  {
    hide BlocksAgree;
    var all := ops + Applied(bs);
    assert all[i] == ops[i] && all[|ops| + k] == Apply(bs[k]);
  }

  /** A coin's creating block already named every destination its output has. */
  lemma ReplayIsQuiet(sch: SubsidySchedule, ops: seq<Op>, bs: seq<Block>, k: nat, op: OutPoint, a: Address)
    requires Sound(sch) && Identified(ops + Applied(bs)) && k < |bs|
    ensures !Gains(Run(sch, ops), bs[k], op, a)
  {
    hide Run, AsGiven, BlocksAgree, Identified, Names, Coherent, TxIdsOf;
    var db := Run(sch, ops);
    var chain := RunCoherent(sch, ops);
    if Gains(db, bs[k], op, a) {
      CoinsStored(sch, db, chain, op);
      IdentifiedPrefix(ops, Applied(bs));
      HistoryRemembered(sch, ops, db.coins[op].creation);
      var i :| 0 <= i < |ops| && ops[i].Apply? && ops[i].block.hash == db.coins[op].creation && AsGiven(db.ar, ops[i].block);
      AgreesWithRun(ops, bs, i, k);
      NamedAtCreation(db.ar, ops[i].block, bs[k], op, a);
    }
  }

  lemma CoinsStored(sch: SubsidySchedule, db: Database, chain: seq<Hash>, op: OutPoint)
    requires Sound(sch) && Coherent(sch, db, chain) && op in db.coins
    ensures var h := db.coins[op].creation;
            h in db.ar.blocks && op.txid in TxIdsOf(db.ar, h) && HasOutput(db.ar, op)
  {
    hide ArchiveOk, ChainOk, DerivedOk, AccountingOk, RollupOk;
    assert CoinOk(db.ar, op, db.coins[op]);
  }

  lemma NamedAtCreation(ar: Archive, c: Block, b: Block, op: OutPoint, a: Address)
    requires AsGiven(ar, c) && BlocksAgree(c, b) && op.txid in TxIdsOf(ar, c.hash) && HasOutput(ar, op)
    requires Names(b, op, a)
    ensures op in ar.outAddrs
  {
    var p :| 0 <= p < |c.txs| && Ids(c.txs)[p] == op.txid;
    assert Stored(ar, c.txs[p]);
    assert |c.txs[p].outputs| == |ar.txs[op.txid].outputs|;
    assert AddressStored(ar.outAddrs, OutPoint(op.txid, op.vout), c.txs[p].outputs[op.vout].address);
    var q :| 0 <= q < |b.txs| && Supplies(b.txs[q].txid, b.txs[q].outputs, |b.txs[q].outputs|, op);
    assert SameNames(c.txs[p], b.txs[q]);
  }

  /** With destinations identified, a rollback to the old tip restores every derived table
      exactly, after any run of accepted blocks on any reachable store. */
  lemma RollbackRestores(sch: SubsidySchedule, ops: seq<Op>, bs: seq<Block>, db1: Database)
    returns (chain: seq<Hash>, db2: Database)
    requires Sound(sch) && Identified(ops + Applied(bs)) && ApplyAll(sch, Run(sch, ops), bs) == Ok(db1)
    ensures Coherent(sch, Run(sch, ops), chain)
    ensures chain != [] ==> RollbackTo(db1, Run(sch, ops).checkpoint.hash) == Ok(db2) && SameDerived(Run(sch, ops), db2)
  {
    hide Coherent, PrefixesFit, ApplyAll, SameDerived, Run, RollbackTo, Identified, Gains, Invisible;
    chain := RunFits(sch, ops);
    db2 := db1;
    if chain != [] {
      db2 := RollbackInverse(sch, Run(sch, ops), chain, bs, db1);
      forall i, op, a | 0 <= i < |bs|
        ensures !Gains(Run(sch, ops), bs[i], op, a)
      {
        ReplayIsQuiet(sch, ops, bs, i, op, a);
      }
    }
  }
}
