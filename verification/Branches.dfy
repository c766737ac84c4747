/** Every stored block, canonical or orphaned, heads exactly one branch, and every block of
    that branch is acceptable to the coins of the blocks below it. */
module Branches {
  import opened Wrappers
  import opened Chain
  import opened Tables
  import opened Accounting
  import opened Coins
  import opened StoreSpec
  import opened Integrity
  import opened BlockLoop
  import opened Coherence
  import opened RollbackProof
  import opened ApplyProof
  import opened ApplyCoherence
  import opened Recovery

  /** Following prev_hash from h down gives this chain, and it is valid throughout. */
  ghost predicate Branch(ar: Archive, h: Hash, chain: seq<Hash>) {
    chain != [] && chain[|chain| - 1] == h && ChainOk(ar, chain)
  }

  ghost predicate BranchesOk(ar: Archive) {
    forall h :: h in ar.blocks ==> exists chain :: Branch(ar, h, chain)
  }

  lemma {:induction false} BranchUnique(ar: Archive, chain: seq<Hash>, other: seq<Hash>)
    requires ArchiveOk(ar) && Linked(ar, chain) && Linked(ar, other) && chain != [] && other != []
    requires chain[|chain| - 1] == other[|other| - 1]
    ensures chain == other
  {
    hide RowsOk;
    var m, n := |chain| - 1, |other| - 1;
    assert BlockRowOk(ar, chain[m]);
    if m == 0 {
      OnlyOne(ar, chain, other);
    } else if n == 0 {
      OnlyOne(ar, other, chain);
    } else {
      assert chain[m - 1] == other[n - 1];
      ShorterLinked(ar, chain);
      ShorterLinked(ar, other);
      BranchUnique(ar, chain[..m], other[..n]);
      assert chain == chain[..m] + [chain[m]] && other == other[..n] + [other[n]];
    }
  }

  lemma ShorterLinked(ar: Archive, chain: seq<Hash>)
    requires Linked(ar, chain) && chain != []
    ensures Linked(ar, chain[..|chain| - 1])
  {
  }

  /** A block that names no parent, or itself, has nothing below it. */
  lemma OnlyOne(ar: Archive, chain: seq<Hash>, other: seq<Hash>)
    requires ArchiveOk(ar) && Linked(ar, chain) && Linked(ar, other) && other != []
    requires |chain| == 1 && chain[0] == other[|other| - 1]
    ensures |other| == 1
  {
    hide ArchiveOk;
    if |other| > 1 {
      ParentOfLast(ar, other);
    }
  }

  lemma ParentOfLast(ar: Archive, chain: seq<Hash>)
    requires ArchiveOk(ar) && Linked(ar, chain) && |chain| > 1
    ensures var tip := chain[|chain| - 1]; tip in ar.blocks && ar.blocks[tip].prev != "" && ar.blocks[tip].prev != tip
  {
    hide RowsOk;
    assert BlockRowOk(ar, chain[|chain| - 2]);
  }

  lemma NoBranches()
    ensures BranchesOk(EMPTY.ar)
  {
  }

  lemma BranchStays(ar: Archive, ar': Archive, h: Hash, chain: seq<Hash>)
    requires ArchiveOk(ar) && Extends(ar, ar') && Branch(ar, h, chain)
    ensures Branch(ar', h, chain)
  {
    hide ArchiveOk, ChainValid, SameBlock;
    ExtendsSameChain(ar, ar', chain);
    ChainValidSame(ar, ar', chain);
    LinkedStays(ar, ar', chain);
  }

  lemma LinkedStays(ar: Archive, ar': Archive, chain: seq<Hash>)
    requires Linked(ar, chain) && SubMap(ar.blocks, ar'.blocks)
    ensures Linked(ar', chain)
  {
  }

  lemma ApplyKeepsBranches(sch: SubsidySchedule, db: Database, chain: seq<Hash>, b: Block, db': Database)
    requires Sound(sch) && Coherent(sch, db, chain) && |db.buckets| == 8 && ApplyBlock(sch, db, b) == Ok(db')
    requires BranchesOk(db.ar)
    ensures BranchesOk(db'.ar)
  {
    hide ArchiveOk, ChainOk, CoinsOk, AccountingOk, RollupOk, DerivedOk, ApplyBlock, Extends;
    ApplyCoherent(sch, db, chain, b, db');
    NextTip(chain, b);
    HeaderWritten(sch, db, chain, b, db');
    forall h | h in db'.ar.blocks
      ensures exists branch :: Branch(db'.ar, h, branch)
    {
      if h == b.hash {
        assert Branch(db'.ar, h, NextChain(chain, b));
      } else {
        var branch :| Branch(db.ar, h, branch);
        BranchStays(db.ar, db'.ar, h, branch);
      }
    }
  }

  lemma HeaderWritten(sch: SubsidySchedule, db: Database, chain: seq<Hash>, b: Block, db': Database)
    requires Sound(sch) && Coherent(sch, db, chain) && |db.buckets| == 8 && ApplyBlock(sch, db, b) == Ok(db')
    ensures b.hash in db'.ar.blocks && db'.ar.blocks[b.hash] == HeaderRow(b)
    ensures db'.ar.blocks.Keys == db.ar.blocks.Keys + {b.hash}
  {
    hide ApplyBlock, Coherent, HeaderFacts, LoopTables, LoopCoins;
    var hd, lp, facts := ApplyReached(sch, db, chain, b, db');
    BlockKeys(db.ar, chain, b, hd, lp.ar);
  }

  /** After any history every stored block heads a valid branch. */
  lemma {:induction false} RunBranches(sch: SubsidySchedule, ops: seq<Op>)
    requires Sound(sch)
    ensures BranchesOk(Run(sch, ops).ar)
  {
    hide Coherent, BranchesOk, ApplyBlock, RollbackTo;
    if ops == [] {
      NoBranches();
    } else {
      var init, op := ops[..|ops| - 1], ops[|ops| - 1];
      var db := Run(sch, init);
      RunBranches(sch, init);
      var chain := RunCoherent(sch, init);
      if op.Apply? && ApplyBlock(sch, db, op.block).Ok? {
        ApplyKeepsBranches(sch, db, chain, op.block, ApplyBlock(sch, db, op.block).value);
      } else if op.Rollback? && RollbackTo(db, op.ancestor).Ok? {
        var k := RollbackCoherent(sch, db, chain, op.ancestor, RollbackTo(db, op.ancestor).value);
      }
    }
  }

  /** A stored block on the tip, or the tip itself, continues the canonical chain by its
      own branch. */
  lemma BranchContinues(ar: Archive, chain: seq<Hash>, h: Hash)
    requires ArchiveOk(ar) && BranchesOk(ar) && ChainOk(ar, chain) && chain != [] && h in ar.blocks
    requires h !in chain && ar.blocks[h].prev == chain[|chain| - 1]
    ensures ChainOk(ar, chain + [h])
  {
    hide ArchiveOk, Linked, ChainValid;
    var branch :| Branch(ar, h, branch);
    var n := |branch| - 1;
    NotARoot(ar, chain, h, branch);
    ShorterLinked(ar, branch);
    BranchUnique(ar, branch[..n], chain);
    assert branch == branch[..n] + [h];
  }

  lemma NotARoot(ar: Archive, chain: seq<Hash>, h: Hash, branch: seq<Hash>)
    requires ArchiveOk(ar) && Linked(ar, chain) && Linked(ar, branch) && chain != [] && branch != []
    requires branch[|branch| - 1] == h && h in ar.blocks && h !in chain && ar.blocks[h].prev == chain[|chain| - 1]
    ensures |branch| > 1 && branch[|branch| - 2] == chain[|chain| - 1]
  {
    hide RowsOk;
    assert BlockRowOk(ar, chain[|chain| - 1]);
    assert chain[|chain| - 1] in chain;
  }
}
