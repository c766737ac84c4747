/** What a synchronization pass is allowed to do to the canonical chain, and what it
    must reach when Core does not move. */
module Syncing {
  import opened Wrappers
  import opened Chain
  import opened Tables
  import opened Accounting
  import opened TxSpec
  import Integrity
  import Cache
  import Distribution
  import opened StoreSpec
  import opened BlockLoop
  import opened Coherence
  import opened ApplyProof
  import opened ApplyCoherence
  import opened Core

  const MAX_AUTOMATIC_REORG_DEPTH := 100

  /** One committed mutation: a block appended, or at most 100 blocks cut off. */
  ghost predicate Lawful(before: seq<Hash>, after: seq<Hash>) {
    || (|after| == |before| + 1 && before <= after)
    || (after != [] && after <= before && |before| - |after| <= 100)
  }

  ghost predicate LawfulTrace(trace: seq<seq<Hash>>) {
    forall i :: 0 < i < |trace| ==> Lawful(trace[i - 1], trace[i])
  }

  lemma TraceGrows(trace: seq<seq<Hash>>, after: seq<Hash>)
    requires trace != [] && LawfulTrace(trace) && Lawful(trace[|trace| - 1], after)
    ensures LawfulTrace(trace + [after])
  {
  }

  /** A block offered at the next height is appended, never taken for a replay. */
  lemma NextHeightAppends(sch: SubsidySchedule, db: Database, chain: seq<Hash>, b: Block, db': Database)
    requires Sound(sch) && Coherent(sch, db, chain) && |db.buckets| == 8 && ApplyBlock(sch, db, b) == Ok(db')
    requires chain != [] ==> b.height == db.checkpoint.height + 1
    ensures NextChain(chain, b) == chain + [b.hash]
  {
    hide ApplyBlock, Coherent, HeaderFacts, LoopInv, Published;
    var hd, lp, facts := ApplyReached(sch, db, chain, b, db');
    ReplayHeight(sch, db, chain, b, hd);
  }

  lemma ReplayHeight(sch: SubsidySchedule, db: Database, chain: seq<Hash>, b: Block, hd: Header)
    requires Sound(sch) && Coherent(sch, db, chain) && HeaderFacts(db.ar, chain, b, hd)
    ensures IsReplay(chain, b) ==> b.height == db.checkpoint.height
  {
  }

  // --- convergence ---

  /** Applying core[k..] in order on db is accepted, block by block. */
  ghost predicate AcceptsFrom(sch: SubsidySchedule, db: Database, core: seq<Block>, k: nat)
    requires Sound(sch) && |db.buckets| == 8 && k <= |core|
    decreases |core| - k
  {
    k == |core|
    || (ApplyBlock(sch, db, core[k]).Ok? && AcceptsFrom(sch, ApplyBlock(sch, db, core[k]).value, core, k + 1))
  }

  /** Where the local chain is on Core's chain. */
  ghost predicate Meets(chain: seq<Hash>, core: seq<Block>, a: nat) {
    a < |chain| && a < |core| && chain[a] == core[a].hash
  }

  /** The highest height at which the two chains agree. */
  ghost predicate ForkAt(chain: seq<Hash>, core: seq<Block>, a: nat) {
    Meets(chain, core, a) && forall i: nat :: Meets(chain, core, i) ==> i <= a
  }

  /** The database a reorganization to height a leaves. */
  ghost function AtFork(db: Database, chain: seq<Hash>, a: nat): (r: Database)
    requires |db.buckets| == 8 && a < |chain|
    ensures |r.buckets| == 8
  {
    if a == |chain| - 1 then db
    else
      match RollbackTo(db, chain[a])
      case Ok(next) => next
      case Err(_) => db
  }

  /** A block hash identifies the block's header, in the tables as in Core. */
  ghost predicate HashesIdentify(ar: Archive, core: seq<Block>) {
    forall i :: 0 <= i < |core| && core[i].hash in ar.blocks ==> ar.blocks[core[i].hash] == HeaderRow(core[i])
  }

  /** Core's blocks above the fork are applicable there. */
  ghost predicate TailAccepted(sch: SubsidySchedule, db: Database, chain: seq<Hash>, core: seq<Block>)
    requires Sound(sch) && |db.buckets| == 8
  {
    && (chain == [] ==> AcceptsFrom(sch, db, core, 0))
    && (forall a: nat :: ForkAt(chain, core, a) && |chain| - 1 - a <= 100 ==>
          AcceptsFrom(sch, AtFork(db, chain, a), core, a + 1))
  }

  /** The local store can follow Core: it is empty or was indexed from genesis, hashes
      mean the same on both sides, and Core's blocks above the fork are applicable. */
  ghost predicate CanFollow(sch: SubsidySchedule, db: Database, chain: seq<Hash>, core: seq<Block>)
    requires Sound(sch)
  {
    hide Coherent;
    && Coherent(sch, db, chain) && |db.buckets| == 8
    && LinkedBlocks(core) && HashesIdentify(db.ar, core)
    && (chain == [] || GenesisRooted(db.ar, chain))
    && TailAccepted(sch, db, chain, core)
  }

  /** Within reach of the automatic reorganization policy. */
  ghost predicate Reachable(chain: seq<Hash>, core: seq<Block>) {
    chain == [] || exists a: nat :: Meets(chain, core, a) && |chain| - 1 - a <= 100
  }

  lemma ChainHeight(sch: SubsidySchedule, db: Database, chain: seq<Hash>, i: nat)
    requires Sound(sch) && Coherent(sch, db, chain) && GenesisRooted(db.ar, chain) && i < |chain|
    ensures chain[i] in db.ar.blocks && db.ar.blocks[chain[i]].height == i == HeightOf(db.ar, chain[i])
    ensures i > 0 ==> db.ar.blocks[chain[i]].prev == chain[i - 1]
    ensures db.checkpoint.height == |chain| - 1 && db.checkpoint.hash == chain[|chain| - 1]
  {
    hide ArchiveOk, ChainValid, Integrity.CoinsOk, AccountingOk, RollupOk, Cache.CacheCoherent, Distribution.BucketsCoherent;
    assert db.ar.blocks[chain[|chain| - 1]].height == |chain| - 1;
  }

  /** Chains that agree at one height agree below it. */
  lemma {:induction false} AgreeBelow(sch: SubsidySchedule, db: Database, chain: seq<Hash>, core: seq<Block>, a: nat, i: nat)
    requires Sound(sch) && Coherent(sch, db, chain) && GenesisRooted(db.ar, chain)
    requires LinkedBlocks(core) && HashesIdentify(db.ar, core) && Meets(chain, core, a) && i <= a
    ensures Meets(chain, core, i)
    decreases a - i
  {
    hide Coherent;
    if i < a {
      AgreeBelow(sch, db, chain, core, a, i + 1);
      ChainHeight(sch, db, chain, i + 1);
    }
  }

  lemma CommonPrefix(sch: SubsidySchedule, db: Database, chain: seq<Hash>, core: seq<Block>, a: nat)
    requires Sound(sch) && Coherent(sch, db, chain) && GenesisRooted(db.ar, chain)
    requires LinkedBlocks(core) && HashesIdentify(db.ar, core) && Meets(chain, core, a)
    ensures chain[..a + 1] == Hashes(core)[..a + 1]
  {
    hide Coherent;
    forall i | 0 <= i <= a
      ensures chain[i] == Hashes(core)[i]
    {
      AgreeBelow(sch, db, chain, core, a, i);
    }
  }
}
