/** Path independence: whatever history led to a canonical chain, an empty store that
    applies that chain's blocks once, in order, accepts them all and ends up with the
    same derived tables. */
module PathIndependence {
  import opened Wrappers
  import opened Chain
  import opened Tables
  import opened Accounting
  import opened Coins
  import opened TxSpec
  import opened Distribution
  import opened StoreSpec
  import opened Cache
  import opened Integrity
  import opened BlockLoop
  import opened Coherence
  import opened ApplyProof
  import opened ApplyCoherence
  import opened Conservation
  import opened Determined
  import opened Prefixes
  import opened Recovery
  import opened Rebuild
  import opened Readmission
  import opened Republication

  lemma NextPublished(sch: SubsidySchedule, ref: Database, chain: seq<Hash>, k: nat, s: Database, hd: Header, lp: Loop) returns (s': Database)
    requires Sound(sch) && Looped(sch, ref, chain, k, s, hd, lp)
    ensures |s.buckets| == 8 && |RebuiltBlock(ref.ar, chain[k]).txs| > 0
    ensures Publish(sch, s, RebuiltBlock(ref.ar, chain[k]), hd.canonical, lp) == Ok(s')
  {
    hide Coherent, LoopDone, Copy, SameChainRows, Agrees, RefreshChecked, BucketsAfter, FactsOfBlock, ApplyRollup, Looped;
    LoopedIsFollowing(sch, ref, chain, k, s, hd, lp);
    LoopAgrees(sch, ref, chain, k, s, hd, lp);
    CacheRepublished(sch, ref, chain, k, s, hd, lp);
    FactsRepublished(sch, ref, chain, k, s, hd, lp);
    if GenesisRooted(ref.ar, chain) {
      RollupRepublished(sch, ref, chain, k, s, hd.canonical, lp.ar);
    } else {
      NoRollupAgain(sch, ref, chain, k, s, hd.canonical, lp.ar);
    }
    s' := Publish(sch, s, RebuiltBlock(ref.ar, chain[k]), hd.canonical, lp).value;
  }

  lemma LoopedIsFollowing(sch: SubsidySchedule, ref: Database, chain: seq<Hash>, k: nat, s: Database, hd: Header, lp: Loop)
    requires Sound(sch) && Looped(sch, ref, chain, k, s, hd, lp)
    ensures Following(sch, ref, chain, k, s) && k < |chain| && chain[k] in ref.ar.blocks && Copy(lp.ar, ref.ar)
    ensures LoopDone(sch, s, chain[..k], RebuiltBlock(ref.ar, chain[k]), hd, lp)
    ensures NextChain(chain[..k], RebuiltBlock(ref.ar, chain[k])) == chain[..k + 1]
  {
    hide Coherent, LoopDone, Copy, SameChainRows;
  }

  lemma PublishKeepsArchive(sch: SubsidySchedule, db: Database, b: Block, canonical: set<Hash>, lp: Loop, db': Database)
    requires Sound(sch) && |db.buckets| == 8 && |b.txs| > 0 && Publish(sch, db, b, canonical, lp) == Ok(db')
    ensures db'.ar == lp.ar
  {
    hide RefreshChecked, BucketsAfter, FactsOfBlock, ApplyRollup;
  }

  lemma NextKeys(sch: SubsidySchedule, ref: Database, chain: seq<Hash>, k: nat, s: Database, hd: Header, lp: Loop)
    requires Sound(sch) && Looped(sch, ref, chain, k, s, hd, lp)
    ensures lp.ar.blocks.Keys == Elems(chain[..k + 1])
  {
    hide Coherent, LoopCoins, Copy, SameChainRows, SlicesAgreeOff;
    BlockKeys(s.ar, chain[..k], RebuiltBlock(ref.ar, chain[k]), hd, lp.ar);
    assert chain[..k + 1] == chain[..k] + [chain[k]];
  }

  /** One more block: accepted, and still in step with the reference. */
  lemma NextAccepted(sch: SubsidySchedule, ref: Database, chain: seq<Hash>, k: nat, s: Database) returns (s': Database)
    requires Sound(sch) && Following(sch, ref, chain, k, s) && k < |chain|
    ensures chain[k] in ref.ar.blocks && |s.buckets| == 8
    ensures ApplyBlock(sch, s, RebuiltBlock(ref.ar, chain[k])) == Ok(s')
    ensures Following(sch, ref, chain, k + 1, s')
  {
    hide Coherent, Copy, SameChainRows, Looped, Admitted, Admit, ApplyTxs, Publish, Agrees;
    var hd := NextAdmitted(sch, ref, chain, k, s);
    var b := RebuiltBlock(ref.ar, chain[k]);
    AdmitIff(s, b, hd);
    var lp := NextLooped(sch, ref, chain, k, s, hd);
    s' := NextPublished(sch, ref, chain, k, s, hd, lp);
    ApplyCoherent(sch, s, chain[..k], b, s');
    LoopedIsFollowing(sch, ref, chain, k, s, hd, lp);
    PublishKeepsArchive(sch, s, b, hd.canonical, lp, s');
    NextKeys(sch, ref, chain, k, s, hd, lp);
    RowsAgree(sch, ref, chain, k, s, hd, lp);
  }

  /** The canonical blocks, read back in order. */
  ghost function RebuiltChain(ar: Archive, chain: seq<Hash>): (bs: seq<Block>)
    requires forall h :: h in chain ==> h in ar.blocks
    ensures |bs| == |chain|
  {
    seq(|chain|, i requires 0 <= i < |chain| => RebuiltBlock(ar, chain[i]))
  }

  lemma AllStored(sch: SubsidySchedule, db: Database, chain: seq<Hash>)
    requires Sound(sch) && Coherent(sch, db, chain)
    ensures forall h :: h in chain ==> h in db.ar.blocks
  {
    hide ArchiveOk, ChainValid, CoinsOk, AccountingOk, RollupOk, DerivedOk;
  }

  lemma StartsFollowing(sch: SubsidySchedule, ref: Database, chain: seq<Hash>)
    requires Sound(sch) && Coherent(sch, ref, chain) && PrefixesFit(ref.ar, chain)
    ensures Following(sch, ref, chain, 0, EMPTY)
  {
    hide Coherent, PrefixesFit;
    EmptyIsCoherent(sch);
    assert chain[..0] == [];
    assert Elems<Hash>([]) == {};
  }

  lemma {:induction false} PrefixReapplied(sch: SubsidySchedule, ref: Database, chain: seq<Hash>, k: nat) returns (s: Database)
    requires Sound(sch) && Coherent(sch, ref, chain) && PrefixesFit(ref.ar, chain) && k <= |chain|
    ensures forall h :: h in chain ==> h in ref.ar.blocks
    ensures ApplyAll(sch, EMPTY, RebuiltChain(ref.ar, chain)[..k]) == Ok(s)
    ensures Following(sch, ref, chain, k, s)
  {
    hide Coherent, PrefixesFit, ApplyBlock, Following;
    AllStored(sch, ref, chain);
    var bs := RebuiltChain(ref.ar, chain);
    if k == 0 {
      s := EMPTY;
      StartsFollowing(sch, ref, chain);
      assert bs[..0] == [];
    } else {
      var before := PrefixReapplied(sch, ref, chain, k - 1);
      s := NextAccepted(sch, ref, chain, k - 1, before);
      assert bs[..k][..k - 1] == bs[..k - 1];
      assert bs[..k][k - 1] == RebuiltBlock(ref.ar, chain[k - 1]);
    }
  }

  lemma FollowedToTheEnd(sch: SubsidySchedule, ref: Database, chain: seq<Hash>, s: Database)
    requires Sound(sch) && Following(sch, ref, chain, |chain|, s)
    ensures Coherent(sch, s, chain) && SameChainRows(s.ar, ref.ar, chain) && SameDestinations(s.ar, ref.ar, s.coins)
    ensures (GenesisRooted(s.ar, chain) <==> GenesisRooted(ref.ar, chain)) && s.ar.blocks.Keys == Elems(chain)
  {
    hide ArchiveOk, ChainOk, AccountingOk, RollupOk, DerivedOk, PrefixesFit;
    assert chain[..|chain|] == chain;
    if chain != [] {
      assert chain[0] in chain;
      assert SameBlock(s.ar, ref.ar, chain[0]);
    }
    forall op | op in s.coins
      ensures SameDestination(s.ar, ref.ar, op)
    {
      assert CoinOk(s.ar, op, s.coins[op]);
    }
  }

  /** The accounting rows of the canonical blocks agree, and so do their rollup rows, which
      exist exactly on a chain that starts at height 0. */
  ghost predicate SameLedger(s: Database, t: Database, chain: seq<Hash>) {
    forall h :: h in chain ==>
      && h in s.accounting && h in t.accounting && s.accounting[h] == t.accounting[h]
      && (h in s.rollup <==> GenesisRooted(t.ar, chain)) && (h in t.rollup <==> GenesisRooted(t.ar, chain))
      && (h in s.rollup && h in t.rollup ==> s.rollup[h] == t.rollup[h])
  }

  lemma FactsAgree(sch: SubsidySchedule, s: Database, t: Database, chain: seq<Hash>, h: Hash)
    requires Sound(sch) && Coherent(sch, s, chain) && Coherent(sch, t, chain) && SameChainRows(s.ar, t.ar, chain) && h in chain
    ensures h in s.accounting && h in t.accounting && s.accounting[h] == t.accounting[h]
  {
    hide ArchiveOk, ChainValid, CoinsOk, RollupOk, DerivedOk, FactsMatch;
    assert h in s.ar.blocks && h in t.ar.blocks && SameBlock(s.ar, t.ar, h);
    FactsSame(sch, t.ar, s.ar, h, t.accounting[h]);
    FactsDetermined(sch, s.ar, h, s.accounting[h], t.accounting[h]);
  }

  lemma LedgersAgree(sch: SubsidySchedule, s: Database, t: Database, chain: seq<Hash>)
    requires Sound(sch) && Coherent(sch, s, chain) && Coherent(sch, t, chain) && SameChainRows(s.ar, t.ar, chain)
    requires GenesisRooted(s.ar, chain) <==> GenesisRooted(t.ar, chain)
    ensures SameLedger(s, t, chain)
  {
    hide Coherent, Ledgered, SameBlock, GenesisRooted;
    forall h | h in chain
      ensures h in s.accounting && h in t.accounting && s.accounting[h] == t.accounting[h]
      ensures (h in s.rollup <==> GenesisRooted(t.ar, chain)) && (h in t.rollup <==> GenesisRooted(t.ar, chain))
      ensures h in s.rollup && h in t.rollup ==> s.rollup[h] == t.rollup[h]
    {
      FactsAgree(sch, s, t, chain, h);
      if GenesisRooted(t.ar, chain) {
        CoherentIsLedgered(sch, s, chain);
        CoherentIsLedgered(sch, t, chain);
        var i :| 0 <= i < |chain| && chain[i] == h;
        LedgerDetermined(sch, s, t, chain, i);
      } else {
        UnrootedKeepsNone(sch, s, chain);
        UnrootedKeepsNone(sch, t, chain);
      }
    }
  }

  lemma UnrootedKeepsNone(sch: SubsidySchedule, db: Database, chain: seq<Hash>)
    requires Sound(sch) && Coherent(sch, db, chain) && !GenesisRooted(db.ar, chain)
    ensures db.rollup == map[]
  {
    hide ArchiveOk, ChainOk, CoinsOk, AccountingOk, DerivedOk;
  }

  /** A coherent store whose prefixes fit is what applying its own canonical chain to an empty store gives;
      only rows of orphaned blocks are missing from the rebuilt tables. */
  lemma RebuiltFromScratch(sch: SubsidySchedule, ref: Database, chain: seq<Hash>) returns (s: Database)
    requires Sound(sch) && Coherent(sch, ref, chain) && PrefixesFit(ref.ar, chain)
    ensures forall h :: h in chain ==> h in ref.ar.blocks
    ensures ApplyAll(sch, EMPTY, RebuiltChain(ref.ar, chain)) == Ok(s)
    ensures SameDerived(s, ref) && SameLedger(s, ref, chain)
    ensures s.ar.blocks.Keys == Elems(chain)
  {
    hide Coherent, PrefixesFit, ApplyAll, Following, SameDerived;
    s := PrefixReapplied(sch, ref, chain, |chain|);
    assert RebuiltChain(ref.ar, chain)[..|chain|] == RebuiltChain(ref.ar, chain);
    FollowedToTheEnd(sch, ref, chain, s);
    DerivedDetermined(sch, s, ref, chain);
    LedgersAgree(sch, s, ref, chain);
  }

  /** Path independence for every history of accepted and rejected calls. */
  lemma PathIndependent(sch: SubsidySchedule, ops: seq<Op>) returns (chain: seq<Hash>, bs: seq<Block>, s: Database)
    requires Sound(sch)
    ensures Coherent(sch, Run(sch, ops), chain)
    ensures |bs| == |chain|
    ensures forall i :: 0 <= i < |chain| ==>
              chain[i] in Run(sch, ops).ar.blocks && bs[i] == RebuiltBlock(Run(sch, ops).ar, chain[i]) && bs[i].hash == chain[i]
    ensures ApplyAll(sch, EMPTY, bs) == Ok(s)
    ensures SameDerived(s, Run(sch, ops)) && SameLedger(s, Run(sch, ops), chain)
  {
    hide Coherent, PrefixesFit, ApplyAll, SameDerived, SameLedger, Run;
    chain := RunFits(sch, ops);
    s := RebuiltFromScratch(sch, Run(sch, ops), chain);
    bs := RebuiltChain(Run(sch, ops).ar, chain);
  }
}
