/** No branch is ever lost: where a txid identifies its outputs' destinations, every block
    that was ever stored can become the tip again, by one rollback and its own blocks. */
module Returns {
  import opened Wrappers
  import opened Chain
  import opened Tables
  import opened Accounting
  import opened Coins
  import opened Cache
  import opened Distribution
  import opened StoreSpec
  import opened Integrity
  import opened BlockLoop
  import opened Coherence
  import opened RollbackProof
  import opened ApplyProof
  import opened ApplyCoherence
  import opened Respending
  import opened Determined
  import opened Prefixes
  import opened Recovery
  import opened Inverse
  import opened Rebuild
  import opened Readmission
  import opened PathIndependence
  import opened Branches
  import opened Originals
  import opened Reorgs

  /** The branch of h starts at the root, and every prefix of it fits. */
  ghost predicate Revives(ar: Archive, root: Hash, h: Hash, branch: seq<Hash>) {
    Branch(ar, h, branch) && branch[0] == root && CoinsOk(ar, CoinsOf(ar, branch)) && PrefixesFit(ar, branch)
  }

  /** Every stored block can be reached from the first canonical one. */
  ghost predicate AllRevive(ar: Archive, chain: seq<Hash>) {
    forall h :: h in ar.blocks ==> chain != [] && exists branch :: Revives(ar, chain[0], h, branch)
  }

  lemma CoinsStayOk(ar: Archive, ar': Archive, c: CoinSet)
    requires ArchiveOk(ar) && Extends(ar, ar') && CoinsOk(ar, c)
    ensures CoinsOk(ar', c)
  {
    hide RowsOk;
    forall op | op in c
      ensures CoinOk(ar', op, c[op])
    {
      assert CoinOk(ar, op, c[op]);
      assert c[op].creation in ar.blockTxs;
    }
  }

  lemma PrefixFitsStill(ar: Archive, ar': Archive, branch: seq<Hash>, n: nat)
    requires ArchiveOk(ar) && ChainOk(ar, branch) && Extends(ar, ar') && CoinsOk(ar, CoinsOf(ar, branch))
    requires SameDestinations(ar, ar', CoinsOf(ar, branch)) && n <= |branch|
    requires CoinsFit(ar, CoinsOf(ar, branch[..n]))
    ensures CoinsFit(ar', CoinsOf(ar', branch[..n]))
  {
    hide ArchiveOk, ChainValid, CoinsOk, CoinsOf, CoinsFit, Extends, SameDestination;
    ChainOkPrefix(ar, branch, n);
    ExtendsSameChain(ar, ar', branch[..n]);
    PrefixCoinsOk(ar, branch, n);
    ChainGrows(ar, branch, n, |branch|);
    assert branch[..|branch|] == branch;
    FitsElsewhere(ar, ar', branch[..n]);
  }

  lemma StillRevives(ar: Archive, ar': Archive, root: Hash, h: Hash, branch: seq<Hash>)
    requires ArchiveOk(ar) && Extends(ar, ar') && Revives(ar, root, h, branch)
    requires SameDestinations(ar, ar', CoinsOf(ar, branch))
    ensures Revives(ar', root, h, branch)
  {
    hide ArchiveOk, ChainOk, CoinsOk, CoinsOf, CoinsFit, Extends, SameDestinations;
    BranchStays(ar, ar', h, branch);
    CoinsStayOk(ar, ar', CoinsOf(ar, branch));
    SameBranchCoins(ar, ar', branch);
    forall n: nat | n <= |branch|
      ensures CoinsFit(ar', CoinsOf(ar', branch[..n]))
    {
      PrefixFitsStill(ar, ar', branch, n);
    }
  }

  lemma SameBranchCoins(ar: Archive, ar': Archive, branch: seq<Hash>)
    requires ArchiveOk(ar) && ChainOk(ar, branch) && Extends(ar, ar')
    ensures CoinsOf(ar', branch) == CoinsOf(ar, branch)
  {
    hide ArchiveOk, ChainValid, Extends;
    ExtendsSameChain(ar, ar', branch);
    SameChainFold(ar, ar', branch);
  }

  /** The block that creates a coin already named the destination of its output, so no
      later block of the history can add one. */
  lemma NothingToName(sch: SubsidySchedule, ops: seq<Op>, b: Block, ar': Archive, c: CoinSet, op: OutPoint)
    requires Sound(sch) && Identified(ops + [Apply(b)])
    requires var ar := Run(sch, ops).ar;
             CoinsOk(ar, c) && op in c && Extends(ar, ar') && DestinationsFrom(ar, ar', b, |b.txs|)
    ensures SameDestination(Run(sch, ops).ar, ar', op)
  {
    hide Run, AsGiven, BlocksAgree, Identified, Names, SuppliedBy;
    var ar := Run(sch, ops).ar;
    assert CoinOk(ar, op, c[op]);
    var h := c[op].creation;
    IdentifiedPrefix(ops, [Apply(b)]);
    HistoryRemembered(sch, ops, h);
    var i :| 0 <= i < |ops| && ops[i].Apply? && ops[i].block.hash == h && AsGiven(ar, ops[i].block);
    AgreesWithNext(ops, b, i);
    if op !in ar.outAddrs && op in ar'.outAddrs {
      var a := SuppliedIsNamed(b, op);
      NamedAtCreation(ar, ops[i].block, b, op, a);
    }
  }

  lemma AgreesWithNext(ops: seq<Op>, b: Block, i: nat)
    requires Identified(ops + [Apply(b)]) && i < |ops| && ops[i].Apply?
    ensures BlocksAgree(ops[i].block, b)
  {
    hide BlocksAgree;
    var all := ops + [Apply(b)];
    assert all[i] == ops[i] && all[|ops|] == Apply(b);
  }

  lemma OwnBranchRevives(sch: SubsidySchedule, db: Database, chain: seq<Hash>, b: Block, db': Database)
    requires Sound(sch) && Coherent(sch, db, chain) && |db.buckets| == 8 && PrefixesFit(db.ar, chain)
    requires ApplyBlock(sch, db, b) == Ok(db')
    ensures Revives(db'.ar, NextChain(chain, b)[0], b.hash, NextChain(chain, b))
  {
    hide ArchiveOk, ChainOk, CoinsOk, AccountingOk, RollupOk, CacheCoherent, BucketsCoherent, CoinsOf, PrefixesFit, ApplyBlock, Extends;
    ApplyCoherent(sch, db, chain, b, db');
    ApplyKeepsFits(sch, db, chain, b, db');
    NextTip(chain, b);
  }

  lemma AppliedRevives(sch: SubsidySchedule, ops: seq<Op>, chain: seq<Hash>, b: Block, db': Database)
    requires Sound(sch) && Identified(ops + [Apply(b)]) && ApplyBlock(sch, Run(sch, ops), b) == Ok(db')
    requires var db := Run(sch, ops); Coherent(sch, db, chain) && PrefixesFit(db.ar, chain) && AllRevive(db.ar, chain)
    ensures AllRevive(db'.ar, NextChain(chain, b))
  {
    hide ArchiveOk, ChainOk, CoinsOk, DerivedOk, AccountingOk, RollupOk, CoinsOf, PrefixesFit, ApplyBlock, Extends;
    hide Run, Identified, DestinationsFrom, StoredUpTo;
    hide SameDestination, Revives;
    var db := Run(sch, ops);
    ApplyCoherent(sch, db, chain, b, db');
    ApplyAdds(sch, db, chain, b, db');
    HeaderWritten(sch, db, chain, b, db');
    OwnBranchRevives(sch, db, chain, b, db');
    NextTip(chain, b);
    forall h | h in db'.ar.blocks
      ensures exists branch :: Revives(db'.ar, NextChain(chain, b)[0], h, branch)
    {
      if h in db.ar.blocks {
        var branch :| Revives(db.ar, chain[0], h, branch);
        BranchKept(sch, ops, chain, b, db', h, branch);
      }
    }
  }

  lemma BranchKept(sch: SubsidySchedule, ops: seq<Op>, chain: seq<Hash>, b: Block, db': Database, h: Hash, branch: seq<Hash>)
    requires Sound(sch) && Identified(ops + [Apply(b)])
    requires var db := Run(sch, ops);
             && ArchiveOk(db.ar) && chain != [] && Revives(db.ar, chain[0], h, branch)
             && Extends(db.ar, db'.ar) && DestinationsFrom(db.ar, db'.ar, b, |b.txs|)
    ensures Revives(db'.ar, chain[0], h, branch)
  {
    hide ArchiveOk, ChainOk, CoinsOk, CoinsOf, PrefixesFit, Run, Identified, DestinationsFrom, Extends, SameDestination;
    var ar := Run(sch, ops).ar;
    forall op | op in CoinsOf(ar, branch)
      ensures SameDestination(ar, db'.ar, op)
    {
      NothingToName(sch, ops, b, db'.ar, CoinsOf(ar, branch), op);
    }
    StillRevives(ar, db'.ar, chain[0], h, branch);
  }

  lemma {:induction false} EveryBranchRevives(sch: SubsidySchedule, ops: seq<Op>) returns (chain: seq<Hash>)
    requires Sound(sch) && Identified(ops)
    ensures var db := Run(sch, ops); Coherent(sch, db, chain) && PrefixesFit(db.ar, chain) && AllRevive(db.ar, chain)
  {
    hide Coherent, PrefixesFit, ApplyBlock, RollbackTo, Revives, Identified;
    if ops == [] {
      chain := RunFits(sch, ops);
    } else {
      var init, op := ops[..|ops| - 1], ops[|ops| - 1];
      var db := Run(sch, init);
      assert ops == init + [op];
      IdentifiedPrefix(init, [op]);
      var before := EveryBranchRevives(sch, init);
      chain := before;
      if op.Apply? && ApplyBlock(sch, db, op.block).Ok? {
        var db' := ApplyBlock(sch, db, op.block).value;
        AppliedRevives(sch, init, before, op.block, db');
        ApplyCoherent(sch, db, before, op.block, db');
        ApplyKeepsFits(sch, db, before, op.block, db');
        chain := NextChain(before, op.block);
      } else if op.Rollback? && RollbackTo(db, op.ancestor).Ok? {
        RollbackKeepsArchive(db, op.ancestor);
        var k := RollbackCoherent(sch, db, before, op.ancestor, RollbackTo(db, op.ancestor).value);
        ShorterFits(db.ar, before, k + 1);
        chain := before[..k + 1];
      }
    }
  }

  /** The blocks of the branch above its first n, as they are stored. */
  ghost function BlocksAbove(ar: Archive, branch: seq<Hash>, n: nat): (bs: seq<Block>)
    requires n <= |branch| && forall h :: h in branch ==> h in ar.blocks
    ensures |bs| == |branch| - n && forall i :: 0 <= i < |bs| ==> bs[i] == RebuiltBlock(ar, branch[n + i])
  {
    RebuiltChain(ar, branch)[n..]
  }

  lemma {:induction false} RunFollows(ar: Archive, branch: seq<Hash>, n: nat, k: nat)
    requires Distinct(branch) && 0 < n <= k <= |branch| && forall h :: h in branch ==> h in ar.blocks
    ensures RunChain(branch[..n], BlocksAbove(ar, branch, n)[..k - n]) == branch[..k]
  {
    hide NextChain, RebuiltTx, BlocksAbove, Distinct;
    var bs := BlocksAbove(ar, branch, n);
    if k > n {
      RunFollows(ar, branch, n, k - 1);
      assert bs[..k - n][..k - 1 - n] == bs[..k - 1 - n];
      NextChainIs(branch, k - 1, bs[k - 1 - n]);
    }
  }

  lemma RunToTheTop(ar: Archive, branch: seq<Hash>, n: nat)
    requires Linked(ar, branch) && 0 < n <= |branch|
    ensures forall h :: h in branch ==> h in ar.blocks
    ensures RunChain(branch[..n], BlocksAbove(ar, branch, n)) == branch
  {
    LinkedDistinct(ar, branch);
    RunFollows(ar, branch, n, |branch|);
    assert branch[..|branch|] == branch;
    assert BlocksAbove(ar, branch, n)[..|branch| - n] == BlocksAbove(ar, branch, n);
  }

  lemma OfferedAsGiven(sch: SubsidySchedule, ops: seq<Op>, h: Hash)
    requires Sound(sch) && Identified(ops) && h in Run(sch, ops).ar.blocks
    ensures var ar := Run(sch, ops).ar; AsGiven(ar, RebuiltBlock(ar, h)) && Offered(ops, RebuiltBlock(ar, h))
  {
    hide Run, AsGiven, BlocksAgree, RebuiltBlock;
    HistoryRemembered(sch, ops, h);
    var ar := Run(sch, ops).ar;
    var i :| 0 <= i < |ops| && ops[i].Apply? && ops[i].block.hash == h && AsGiven(ar, ops[i].block);
    RebuiltIsGiven(ar, ops[i].block);
  }

  /** After any such history, for every block h ever stored and every block that its branch
      shares with the canonical chain: the shared block can be rolled back to, the blocks of
      the branch above it, as the history offered them, are all accepted in order, and h is
      the tip again. They share at least the first block. */
  lemma AnyBranchReturns(sch: SubsidySchedule, ops: seq<Op>, h: Hash)
    returns (chain: seq<Hash>, branch: seq<Hash>)
    requires Sound(sch) && Identified(ops) && h in Run(sch, ops).ar.blocks
    ensures Coherent(sch, Run(sch, ops), chain) && Branch(Run(sch, ops).ar, h, branch)
    ensures chain != [] && chain[0] == branch[0]
    ensures forall k :: 0 <= k < |chain| && k < |branch| && chain[k] == branch[k] ==> ReturnsFrom(sch, ops, branch, k)
  {
    hide Coherent, Revives, Run, Identified, Branch, PrefixesFit, ReturnsFrom;
    chain := EveryBranchRevives(sch, ops);
    branch :| Revives(Run(sch, ops).ar, chain[0], h, branch);
    RevivesBranch(Run(sch, ops).ar, chain[0], h, branch);
    forall k | 0 <= k < |chain| && k < |branch| && chain[k] == branch[k]
      ensures ReturnsFrom(sch, ops, branch, k)
    {
      BranchReturns(sch, ops, chain, h, branch, k + 1);
    }
  }

  lemma RevivesBranch(ar: Archive, root: Hash, h: Hash, branch: seq<Hash>)
    requires Revives(ar, root, h, branch)
    ensures Branch(ar, h, branch) && branch != [] && branch[0] == root && PrefixesFit(ar, branch)
  {
  }

  /** Rolling back to the fork and offering the rest of the branch, as it was offered
      before, leads to the branch's tip and stores nothing new. */
  ghost predicate ReturnsFrom(sch: SubsidySchedule, ops: seq<Op>, branch: seq<Hash>, k: nat)
    requires Sound(sch)
  {
    var db := Run(sch, ops);
    && k < |branch| && (forall g :: g in branch ==> g in db.ar.blocks)
    && RollbackTo(db, branch[k]).Ok?
    && var bs := BlocksAbove(db.ar, branch, k + 1);
    && (forall i :: 0 <= i < |bs| ==> Offered(ops, bs[i]))
    && var r := ApplyAll(sch, RollbackTo(db, branch[k]).value, bs);
    && r.Ok? && Coherent(sch, r.value, branch)
    && r.value.ar == db.ar && r.value.accounting == db.accounting && r.value.rollup == db.rollup
  }

  lemma SameBelow(sch: SubsidySchedule, db: Database, chain: seq<Hash>, h: Hash, branch: seq<Hash>, n: nat)
    requires Sound(sch) && Coherent(sch, db, chain) && Branch(db.ar, h, branch)
    requires 0 < n <= |chain| && n <= |branch| && chain[n - 1] == branch[n - 1]
    ensures chain[..n] == branch[..n] && ArchiveOk(db.ar) && ChainOk(db.ar, branch)
  {
    hide ArchiveOk, ChainValid, CoinsOk, AccountingOk, RollupOk, DerivedOk;
    ChainOkPrefix(db.ar, chain, n);
    ChainOkPrefix(db.ar, branch, n);
    BranchUnique(db.ar, chain[..n], branch[..n]);
  }

  lemma CutAt(sch: SubsidySchedule, db: Database, chain: seq<Hash>, n: nat) returns (mid: Database)
    requires Sound(sch) && Coherent(sch, db, chain) && PrefixesFit(db.ar, chain) && 0 < n <= |chain| && |db.buckets| == 8
    ensures RollbackTo(db, chain[n - 1]) == Ok(mid) && Coherent(sch, mid, chain[..n])
    ensures mid.ar == db.ar && mid.accounting == db.accounting && mid.rollup == db.rollup
  {
    hide ArchiveOk, ChainValid, CoinsOk, AccountingOk, RollupOk, DerivedOk, PrefixesFit, RefreshChecked, Undo;
    RollbackAccepted(sch, db, chain, chain[n - 1]);
    mid := RollbackTo(db, chain[n - 1]).value;
    var k := RollbackCoherent(sch, db, chain, chain[n - 1], mid);
    LinkedDistinct(db.ar, chain);
    assert k == n - 1;
  }

  lemma BranchReturns(sch: SubsidySchedule, ops: seq<Op>, chain: seq<Hash>, h: Hash, branch: seq<Hash>, n: nat)
    requires Sound(sch) && Identified(ops)
    requires var db := Run(sch, ops);
             && Coherent(sch, db, chain) && PrefixesFit(db.ar, chain)
             && Branch(db.ar, h, branch) && PrefixesFit(db.ar, branch)
    requires 0 < n <= |chain| && n <= |branch| && chain[n - 1] == branch[n - 1]
    ensures ReturnsFrom(sch, ops, branch, n - 1)
  {
    hide Coherent, Run, Identified, PrefixesFit, Offered, AsGiven, ArchiveOk, ChainValid, RebuiltBlock, RollbackTo, ApplyAll, Linked;
    var db := Run(sch, ops);
    SameBelow(sch, db, chain, h, branch, n);
    RunToTheTop(db.ar, branch, n);
    var mid := CutAt(sch, db, chain, n);
    var bs := BlocksAbove(db.ar, branch, n);
    forall i | 0 <= i < |bs|
      ensures AsGiven(db.ar, bs[i]) && Offered(ops, bs[i])
    {
      OfferedAsGiven(sch, ops, branch[n + i]);
    }
    var top := StoredRun(sch, mid, branch[..n], bs);
  }
}
