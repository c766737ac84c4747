/** Rolling back always works, on every store that a history of calls can reach; and what
    a run of accepted blocks leaves of the chain below it. */
module Recovery {
  import opened Wrappers
  import opened Errors
  import opened Chain
  import opened Tables
  import opened Accounting
  import opened Coins
  import opened TxSpec
  import opened TxFacts
  import opened Cache
  import opened Distribution
  import opened StoreSpec
  import opened Integrity
  import opened BlockLoop
  import opened Coherence
  import opened RollbackProof
  import opened ApplyProof
  import opened ApplyCoherence
  import opened Conservation
  import opened Respending
  import opened Supply
  import opened Determined
  import opened Prefixes

  // --- acceptance ---

  lemma UndoPrecedes(ar: Archive, c: CoinSet, orphans: set<Hash>, a: Address)
    ensures Precedes(SliceOf(ar, Undo(c, orphans), a), SliceOf(ar, c, a))
  {
  }

  lemma SliceValues(ar: Archive, c: CoinSet, a: Address)
    requires Backed(ar, c)
    ensures forall op :: op in SliceOf(ar, c, a) ==> SliceOf(ar, c, a)[op].value >= 0
  {
  }

  lemma RolledBackSliceFits(m: map<Address, AddressRow>, ar: Archive, c: CoinSet, orphans: set<Hash>, a: Address)
    requires CacheCoherent(m, ar, c) && Backed(ar, c)
    ensures SliceFits(SliceOf(ar, Undo(c, orphans), a))
  {
    assert RowCoherent(m, ar, c, a);
    UndoPrecedes(ar, c, orphans, a);
    SliceValues(ar, c, a);
    FitsEarlier(SliceOf(ar, Undo(c, orphans), a), SliceOf(ar, c, a));
  }

  lemma RefreshAccepted(m: map<Address, AddressRow>, ar: Archive, c: CoinSet, orphans: set<Hash>)
    requires CacheCoherent(m, ar, c) && Backed(ar, c)
    ensures var touched := RolledBackAddresses(ar, c, orphans);
            && RefreshChecked(m, ar, Undo(c, orphans), touched) == Ok(Refresh(m, ar, Undo(c, orphans), touched))
            && CacheCoherent(Refresh(m, ar, Undo(c, orphans), touched), ar, Undo(c, orphans))
  {
    hide CacheCoherent, SliceFits, SliceOf, Refresh;
    var touched := RolledBackAddresses(ar, c, orphans);
    forall a | a in touched
      ensures SliceFits(SliceOf(ar, Undo(c, orphans), a))
    {
      RolledBackSliceFits(m, ar, c, orphans, a);
    }
    UndoTouches(ar, c, orphans);
    RefreshCoherent(m, ar, c, ar, Undo(c, orphans), touched);
  }

  lemma BothBacked(ar: Archive, c: CoinSet, orphans: set<Hash>)
    requires ArchiveOk(ar) && CoinsOk(ar, c)
    ensures Backed(ar, c) && Backed(ar, Undo(c, orphans))
  {
    CoinsBacked(ar, c);
  }

  /** A rollback is refused only when the ancestor is not canonical. */
  lemma RollbackAccepted(sch: SubsidySchedule, db: Database, chain: seq<Hash>, a: Hash)
    requires Sound(sch) && Coherent(sch, db, chain) && PrefixesFit(db.ar, chain)
    ensures |db.buckets| == 8
    ensures RollbackTo(db, a).Ok? <==> a in chain
    ensures RollbackTo(db, a).Err? ==> RollbackTo(db, a).error == AncestorNotFound
  {
    hide ArchiveOk, ChainValid, AccountingOk, RollupOk, CacheCoherent, RefreshChecked, BucketsAfter, CoinsOf, Undo, RolledBackAddresses, CoinsFit;
    BucketCount(sch, db, chain);
    if a in chain {
      var k :| 0 <= k < |chain| && chain[k] == a;
      var orphans := Orphans(db.ar, db.canonical, a);
      BothBacked(db.ar, db.coins, orphans);
      RefreshAccepted(db.addresses, db.ar, db.coins, orphans);
      OrphansAreSuffix(db.ar, chain, k);
      LinkedDistinct(db.ar, chain);
      UndoIsPrefix(db.ar, chain, k + 1);
      var refreshed := Refresh(db.addresses, db.ar, Undo(db.coins, orphans), RolledBackAddresses(db.ar, db.coins, orphans));
      UpdateAccepted(db.buckets, db.addresses, refreshed, db.ar, Undo(db.coins, orphans));
    }
  }

  /** On a chain counted from height 0 every prefix fits, however the store was reached. */
  lemma RootedFits(sch: SubsidySchedule, db: Database, chain: seq<Hash>)
    requires Sound(sch) && Coherent(sch, db, chain) && GenesisRooted(db.ar, chain)
    ensures PrefixesFit(db.ar, chain)
  {
    hide ArchiveOk, ChainValid, CoinsOk, AccountingOk, RollupOk, CacheCoherent, BucketsCoherent, BucketsAfter;
    hide CoinsOf, Undo, Unspent, CoinsFit, Refresh, RefreshChecked, RolledBackAddresses, Backed;
    BucketCount(sch, db, chain);
    LinkedDistinct(db.ar, chain);
    forall n: nat | n <= |chain|
      ensures CoinsFit(db.ar, CoinsOf(db.ar, chain[..n]))
    {
      var orphans := Elems(chain[n..]);
      var c := Undo(db.coins, orphans);
      UndoIsPrefix(db.ar, chain, n);
      BothBacked(db.ar, db.coins, orphans);
      RefreshAccepted(db.addresses, db.ar, db.coins, orphans);
      var m := Refresh(db.addresses, db.ar, c, RolledBackAddresses(db.ar, db.coins, orphans));
      UnspentFits(sch, db, chain, n);
      BucketsAccept(db.buckets, db.addresses, m, db.ar, c);
      BucketsAfterIff(db.buckets, db.addresses, m);
      AcceptedFits(BucketsAfter(db.buckets, db.addresses, m).value, m, db.ar, c);
    }
  }

  // --- runs of accepted blocks ---

  /** Applying blocks one after another, all of them accepted. */
  ghost function ApplyAll(sch: SubsidySchedule, db: Database, bs: seq<Block>): (r: Result<Database, Error>)
    requires Sound(sch) && |db.buckets| == 8
    ensures r.Ok? ==> |r.value.buckets| == 8
  {
    hide ApplyBlock;
    if bs == [] then Ok(db)
    else
      var p :- ApplyAll(sch, db, bs[..|bs| - 1]);
      ApplyBlock(sch, p, bs[|bs| - 1])
  }

  ghost predicate SuppliedBy(b: Block, k: nat, op: OutPoint)
    requires k <= |b.txs|
  {
    exists i :: 0 <= i < k && Supplies(b.txs[i].txid, b.txs[i].outputs, |b.txs[i].outputs|, op)
  }

  ghost predicate DestinationsFrom(ar0: Archive, ar: Archive, b: Block, k: nat)
    requires k <= |b.txs|
  {
    forall op :: op in ar.outAddrs && op !in ar0.outAddrs ==> SuppliedBy(b, k, op)
  }

  lemma DestinationsFromStep(ar0: Archive, ar: Archive, b: Block, k: nat, row: TxRow)
    requires k < |b.txs| && DestinationsFrom(ar0, ar, b, k)
    ensures DestinationsFrom(ar0, ArchiveAfter(ar, b.hash, k, b.txs[k], row), b, k + 1)
  {
    var txn := b.txs[k];
    var ar' := ArchiveAfter(ar, b.hash, k, txn, row);
    AddressesShape(ar.outAddrs, txn.txid, txn.outputs, |txn.outputs|);
    forall op | op in ar'.outAddrs && op !in ar0.outAddrs
      ensures SuppliedBy(b, k + 1, op)
    {
      if op in ar.outAddrs {
        assert SuppliedBy(b, k, op);
      } else {
        assert Supplies(b.txs[k].txid, b.txs[k].outputs, |b.txs[k].outputs|, op);
      }
    }
  }

  lemma LoopDestinationsStep(ar0: Archive, c0: CoinSet, b: Block, k: nat, before: Loop, lp: Loop)
    requires 0 < k <= |b.txs| && LoopStart(ar0, c0, b)
    requires ApplyTxs(ar0, c0, b, k - 1) == Ok(before) && ApplyTxs(ar0, c0, b, k) == Ok(lp)
    requires DestinationsFrom(ar0, before.ar, b, k - 1)
    ensures DestinationsFrom(ar0, lp.ar, b, k)
  {
    hide ApplyTx, ApplyTxs, LoopStart, RowsOk, CoinsOk, SlicesAgreeOff, Grown, Occurred, StoredUpTo, BlockEffect, DestinationsFrom, Acceptable;
    LoopHolds(ar0, c0, b, k - 1, before);
    var row := RoundOnlyIf(ar0, c0, b, k - 1, before, lp);
    DestinationsFromStep(ar0, before.ar, b, k - 1, row);
  }

  /** New destinations are those the block itself names. */
  lemma {:induction false} LoopDestinations(ar0: Archive, c0: CoinSet, b: Block, k: nat, lp: Loop)
    requires k <= |b.txs| && LoopStart(ar0, c0, b) && ApplyTxs(ar0, c0, b, k) == Ok(lp)
    ensures DestinationsFrom(ar0, lp.ar, b, k)
  {
    hide ApplyTx, LoopStart, DestinationsFrom;
    if k == 0 {
      NoDestinationsYet(ar0, b);
    } else {
      var before := LoopResumes(ar0, c0, b, k);
      LoopDestinations(ar0, c0, b, k - 1, before);
      LoopDestinationsStep(ar0, c0, b, k, before, lp);
    }
  }

  lemma NoDestinationsYet(ar: Archive, b: Block)
    ensures DestinationsFrom(ar, ar, b, 0)
  {
  }

  /** Coins are never created for outputs that no script can spend. */
  lemma {:induction false} AdmissibleInBlock(ar: Archive, c: CoinSet, h: Hash, genesis: bool, ids: seq<TxId>, k: nat, op: OutPoint)
    requires k <= |ids| && op in BlockEffect(ar.txs, c, h, genesis, ids, k)
    ensures op in c || (HasOutput(ar, op) && !Excluded(ar.txs[op.txid].outputs[op.vout], genesis))
  {
    if k > 0 {
      var p := BlockEffect(ar.txs, c, h, genesis, ids, k - 1);
      if ids[k - 1] in ar.txs {
        TxEffectCoin(p, h, ids[k - 1], ar.txs[ids[k - 1]], genesis, op);
      }
      if op in p {
        AdmissibleInBlock(ar, c, h, genesis, ids, k - 1, op);
      }
    }
  }

  lemma {:induction false} CoinsAdmissible(ar: Archive, chain: seq<Hash>, op: OutPoint)
    requires op in CoinsOf(ar, chain)
    ensures HasOutput(ar, op) && !Excluded(ar.txs[op.txid].outputs[op.vout], false)
  {
    var init, h := chain[..|chain| - 1], chain[|chain| - 1];
    AdmissibleInBlock(ar, CoinsOf(ar, init), h, HeightOf(ar, h) == 0, TxIdsOf(ar, h), |TxIdsOf(ar, h)|, op);
    if op in CoinsOf(ar, init) {
      CoinsAdmissible(ar, init, op);
    }
  }

  /** A transaction that created a coin of the first n blocks occurs in no later block. */
  lemma CreatorNotRepeated(ar: Archive, chain: seq<Hash>, n: nat, j: nat, op: OutPoint)
    requires ArchiveOk(ar) && ChainOk(ar, chain) && CoinsOk(ar, CoinsOf(ar, chain))
    requires n <= j < |chain| && op in CoinsOf(ar, chain[..n])
    ensures op.txid !in TxIdsOf(ar, chain[j])
  {
    hide ArchiveOk, ChainValid, CoinsOk, CoinsMet;
    CoinsAdmissible(ar, chain[..n], op);
    LaterIsNotGenesis(ar, chain, 0, j);
    var ids := TxIdsOf(ar, chain[j]);
    forall i | 0 <= i < |ids|
      ensures ids[i] != op.txid
    {
      NewAtSite(ar, chain, j, i);
      MetGrows(ar, chain, n, j, i);
    }
  }

  lemma ExtendsSameBlock(ar: Archive, ar': Archive, h: Hash)
    requires ArchiveOk(ar) && Extends(ar, ar') && h in ar.blocks
    ensures SameBlock(ar, ar', h)
  {
    assert BlockRowOk(ar, h);
    assert h in ar.blockTxs;
    CompleteSame(ar, ar', h);
  }

  lemma ExtendsSameChain(ar: Archive, ar': Archive, chain: seq<Hash>)
    requires ArchiveOk(ar) && Linked(ar, chain) && Extends(ar, ar')
    ensures SameChainRows(ar, ar', chain)
  {
    forall h | h in chain
      ensures SameBlock(ar, ar', h)
    {
      ExtendsSameBlock(ar, ar', h);
    }
  }

  lemma RollupOnlyGrows(ar: Archive, canonical: set<Hash>, rollup: map<Hash, RollupRow>, b: Block, before: Checkpoint,
                        facts: BlockFacts, rollup': map<Hash, RollupRow>)
    requires ApplyRollup(ar, canonical, rollup, b, before, facts) == Ok(rollup')
    ensures SubMap(rollup, rollup')
  {
  }

  /** What an accepted block adds to the tables that rollbacks never touch. */
  lemma ApplyAdds(sch: SubsidySchedule, db: Database, chain: seq<Hash>, b: Block, db': Database)
    requires Sound(sch) && Coherent(sch, db, chain) && ApplyBlock(sch, db, b) == Ok(db')
    ensures SubMap(db.accounting, db'.accounting) && SubMap(db.rollup, db'.rollup)
    ensures DestinationsFrom(db.ar, db'.ar, b, |b.txs|) && StoredUpTo(db'.ar, b.txs, |b.txs|)
    ensures TxIdsOf(db'.ar, b.hash) == Ids(b.txs)
  {
    hide StoredUpTo, ApplyBlock, ApplyTxs, ApplyRollup, Coherent, LoopDone, Admitted, RefreshChecked, BucketsAfter, DestinationsFrom;
    BucketCount(sch, db, chain);
    var hd, lp, facts := ApplyReached(sch, db, chain, b, db');
    LoopAdds(sch, db, chain, b, hd, lp);
    RollupOnlyGrows(lp.ar, hd.canonical, db.rollup, b, db.checkpoint, facts, db'.rollup);
  }

  lemma LoopAdds(sch: SubsidySchedule, db: Database, chain: seq<Hash>, b: Block, hd: Header, lp: Loop)
    requires Sound(sch) && LoopDone(sch, db, chain, b, hd, lp) && Admitted(db, b, hd)
    requires ApplyTxs(hd.ar, db.coins, b, |b.txs|) == Ok(lp)
    ensures DestinationsFrom(db.ar, lp.ar, b, |b.txs|) && StoredUpTo(lp.ar, b.txs, |b.txs|)
    ensures TxIdsOf(lp.ar, b.hash) == Ids(b.txs)
  {
    hide StoredUpTo, ApplyTxs, DerivedOk, RollupOk, AccountingOk, RowsOk, CoinsOk, ChainValid;
    StartHolds(sch, db, chain, b, hd);
    LoopDestinations(hd.ar, db.coins, b, |b.txs|, lp);
    OccurrencesComplete(hd.ar, b, lp.ar);
  }

  /** What a run of accepted blocks on tip chain[|chain| - 1] leaves untouched. */
  ghost predicate BuiltOn(db: Database, chain: seq<Hash>, db': Database, chain': seq<Hash>) {
    && chain <= chain'
    && Extends(db.ar, db'.ar)
    && SubMap(db.accounting, db'.accounting) && SubMap(db.rollup, db'.rollup)
  }

  lemma StepOnBase(sch: SubsidySchedule, db: Database, chain: seq<Hash>, p: Database, mid: seq<Hash>, b: Block, db': Database)
    requires Sound(sch) && Coherent(sch, p, mid) && BuiltOn(db, chain, p, mid) && ApplyBlock(sch, p, b) == Ok(db')
    ensures Coherent(sch, db', NextChain(mid, b)) && BuiltOn(db, chain, db', NextChain(mid, b))
  {
    hide Coherent, ApplyBlock, DestinationsFrom;
    ApplyCoherent(sch, p, mid, b, db');
    ApplyAdds(sch, p, mid, b, db');
  }

  lemma {:induction false} RunOnBase(sch: SubsidySchedule, db: Database, chain: seq<Hash>, bs: seq<Block>, db': Database)
    returns (chain': seq<Hash>)
    requires Sound(sch) && Coherent(sch, db, chain) && |db.buckets| == 8 && ApplyAll(sch, db, bs) == Ok(db')
    ensures Coherent(sch, db', chain') && BuiltOn(db, chain, db', chain')
    ensures PrefixesFit(db.ar, chain) ==> PrefixesFit(db'.ar, chain')
  {
    hide Coherent, ApplyBlock, PrefixesFit;
    if bs == [] {
      chain' := chain;
    } else {
      var p := ApplyAll(sch, db, bs[..|bs| - 1]).value;
      var mid := RunOnBase(sch, db, chain, bs[..|bs| - 1], p);
      StepOnBase(sch, db, chain, p, mid, bs[|bs| - 1], db');
      if PrefixesFit(db.ar, chain) {
        ApplyKeepsFits(sch, p, mid, bs[|bs| - 1], db');
      }
      chain' := NextChain(mid, bs[|bs| - 1]);
    }
  }

  // --- destinations of the base chain's coins ---

  lemma GainedNowhere(ar: Archive, ar': Archive, b: Block, n: nat, chain': seq<Hash>, j: nat, op: OutPoint)
    requires DestinationsFrom(ar, ar', b, |b.txs|) && SubMap(ar.outAddrs, ar'.outAddrs) && TxIdsOf(ar', b.hash) == Ids(b.txs)
    requires ArchiveOk(ar') && ChainOk(ar', chain') && CoinsOk(ar', CoinsOf(ar', chain'))
    requires n <= j < |chain'| && chain'[j] == b.hash && op in CoinsOf(ar', chain'[..n])
    ensures SameDestination(ar, ar', op)
  {
    hide ArchiveOk, ChainOk, CoinsOk, CoinsOf;
    CreatorNotRepeated(ar', chain', n, j, op);
    SupplierOccurs(b, op);
  }

  lemma SupplierOccurs(b: Block, op: OutPoint)
    ensures SuppliedBy(b, |b.txs|, op) ==> op.txid in Ids(b.txs)
  {
    if SuppliedBy(b, |b.txs|, op) {
      var i :| 0 <= i < |b.txs| && Supplies(b.txs[i].txid, b.txs[i].outputs, |b.txs[i].outputs|, op);
      assert Ids(b.txs)[i] == op.txid;
    }
  }

  lemma NextTip(mid: seq<Hash>, b: Block)
    ensures NextChain(mid, b) != [] && NextChain(mid, b)[|NextChain(mid, b)| - 1] == b.hash
    ensures mid <= NextChain(mid, b)
  {
  }

  lemma SameCoinsLater(sch: SubsidySchedule, db: Database, chain: seq<Hash>, p: Database, mid: seq<Hash>, db': Database)
    requires Sound(sch) && Coherent(sch, db, chain) && BuiltOn(db, chain, p, mid) && Extends(p.ar, db'.ar)
    ensures CoinsOf(db'.ar, chain) == db.coins
  {
    hide ChainValid, CoinsOk, AccountingOk, RollupOk, CacheCoherent, BucketsCoherent, BlockRowOk, RowsOk;
    ExtendsSameChain(db.ar, db'.ar, chain);
    CoinsOfSame(db.ar, db'.ar, chain);
  }

  // --- what fits, fits after any history ---

  lemma PrefixStays(sch: SubsidySchedule, db: Database, chain: seq<Hash>, b: Block, db': Database, n: nat)
    requires Sound(sch) && Coherent(sch, db, chain) && |db.buckets| == 8 && ApplyBlock(sch, db, b) == Ok(db')
    requires n < |NextChain(chain, b)| && n <= |chain| && CoinsFit(db.ar, CoinsOf(db.ar, chain[..n]))
    ensures CoinsFit(db'.ar, CoinsOf(db'.ar, NextChain(chain, b)[..n]))
  {
    hide ArchiveOk, ChainValid, CoinsOk, AccountingOk, RollupOk, CacheCoherent, BucketsCoherent, ApplyBlock;
    hide DestinationsFrom, StoredUpTo, CoinsOf, CoinsFit;
    ApplyCoherent(sch, db, chain, b, db');
    ApplyAdds(sch, db, chain, b, db');
    var chain' := NextChain(chain, b);
    NextTip(chain, b);
    var prefix := chain[..n];
    assert chain'[..n] == prefix;
    ChainOkPrefix(db.ar, chain, n);
    ExtendsSameChain(db.ar, db'.ar, prefix);
    PrefixCoinsOk(db.ar, chain, n);
    SameChainFold(db.ar, db'.ar, prefix);
    forall op | op in CoinsOf(db.ar, prefix)
      ensures SameDestination(db.ar, db'.ar, op)
    {
      GainedNowhere(db.ar, db'.ar, b, n, chain', |chain'| - 1, op);
    }
    FitsElsewhere(db.ar, db'.ar, prefix);
  }

  /** An accepted block is named in no earlier prefix, so those keep their destinations. */
  lemma ApplyKeepsFits(sch: SubsidySchedule, db: Database, chain: seq<Hash>, b: Block, db': Database)
    requires Sound(sch) && Coherent(sch, db, chain) && |db.buckets| == 8 && ApplyBlock(sch, db, b) == Ok(db')
    requires PrefixesFit(db.ar, chain)
    ensures PrefixesFit(db'.ar, NextChain(chain, b))
  {
    hide ArchiveOk, ChainOk, CoinsOk, AccountingOk, RollupOk, CacheCoherent, BucketsCoherent, ApplyBlock, CoinsOf, CoinsFit;
    ApplyCoherent(sch, db, chain, b, db');
    var chain' := NextChain(chain, b);
    forall n: nat | n <= |chain'|
      ensures CoinsFit(db'.ar, CoinsOf(db'.ar, chain'[..n]))
    {
      if n < |chain'| {
        PrefixStays(sch, db, chain, b, db', n);
      } else {
        assert chain'[..n] == chain';
        AcceptedFits(db'.buckets, db'.addresses, db'.ar, db'.coins);
      }
    }
  }

  lemma StepFits(sch: SubsidySchedule, db: Database, chain: seq<Hash>, op: Op) returns (chain': seq<Hash>)
    requires Sound(sch) && Coherent(sch, db, chain) && |db.buckets| == 8 && PrefixesFit(db.ar, chain)
    ensures Coherent(sch, Step(sch, db, op), chain') && PrefixesFit(Step(sch, db, op).ar, chain')
  {
    hide Coherent, ApplyBlock, RollbackTo, PrefixesFit;
    chain' := chain;
    match op
    case Apply(b) =>
      if ApplyBlock(sch, db, b).Ok? {
        var next := ApplyBlock(sch, db, b).value;
        ApplyCoherent(sch, db, chain, b, next);
        ApplyKeepsFits(sch, db, chain, b, next);
        chain' := NextChain(chain, b);
      }
    case Rollback(a) =>
      if RollbackTo(db, a).Ok? {
        var k := RollbackCoherent(sch, db, chain, a, RollbackTo(db, a).value);
        ShorterFits(db.ar, chain, k + 1);
        chain' := chain[..k + 1];
      }
  }

  /** After any history, whatever height it starts at, the store is coherent and every
      prefix of its chain could be published again. */
  lemma {:induction false} RunFits(sch: SubsidySchedule, ops: seq<Op>) returns (chain: seq<Hash>)
    requires Sound(sch)
    ensures Coherent(sch, Run(sch, ops), chain) && PrefixesFit(Run(sch, ops).ar, chain)
  {
    hide Coherent, PrefixesFit, Step;
    if ops == [] {
      chain := [];
      EmptyIsCoherent(sch);
      NothingFits(EMPTY.ar);
    } else {
      var before := RunFits(sch, ops[..|ops| - 1]);
      chain := StepFits(sch, Run(sch, ops[..|ops| - 1]), before, ops[|ops| - 1]);
    }
  }
}
