/** ApplyBlock keeps the store invariant. */
module ApplyProof {
  import opened Wrappers
  import opened Chain
  import opened Tables
  import opened Accounting
  import opened Shape
  import opened Coins
  import opened TxSpec
  import opened Cache
  import opened Distribution
  import opened StoreSpec
  import opened Integrity
  import opened BlockLoop
  import opened Replay
  import opened Coherence

  /** The stages of an accepted ApplyBlock. */
  ghost predicate Applied(sch: SubsidySchedule, db: Database, b: Block, hd: Header, lp: Loop, db': Database)
    requires Sound(sch) && |db.buckets| == 8
  {
    && Admit(db, b) == Ok(hd)
    && ApplyTxs(hd.ar, db.coins, b, |b.txs|) == Ok(lp)
    && CheckBlock(b).Ok? && Publish(sch, db, b, hd.canonical, lp) == Ok(db')
  }

  lemma ApplyStages(sch: SubsidySchedule, db: Database, b: Block, db': Database) returns (hd: Header, lp: Loop)
    requires Sound(sch) && |db.buckets| == 8 && ApplyBlock(sch, db, b) == Ok(db')
    ensures Applied(sch, db, b, hd, lp, db')
  {
    hd := Admit(db, b).value;
    lp := ApplyTxs(hd.ar, db.coins, b, |b.txs|).value;
  }

  ghost predicate Admitted(db: Database, b: Block, hd: Header) {
    && CheckBlock(b).Ok? && CheckContinuity(b, db.checkpoint).Ok?
    && ApplyHeader(db.ar, db.canonical, b) == Ok(hd)
    && (hd.isNew || |TxIdsOf(hd.ar, b.hash)| == |b.txs|)
  }

  lemma AdmitIff(db: Database, b: Block, hd: Header)
    ensures Admit(db, b) == Ok(hd) <==> Admitted(db, b, hd)
  {
  }

  ghost predicate Published(sch: SubsidySchedule, db: Database, b: Block, canonical: set<Hash>, lp: Loop, facts: BlockFacts, db': Database)
    requires Sound(sch) && |db.buckets| == 8 && |b.txs| > 0
  {
    var tip := Checkpoint(HeightOf(lp.ar, b.hash), b.hash);
    && RefreshChecked(db.addresses, lp.ar, lp.coins, lp.touched) == Ok(db'.addresses)
    && BucketsAfter(db.buckets, db.addresses, db'.addresses) == Ok(db'.buckets)
    && FactsOfBlock(sch, b, lp.fee) == Ok(facts)
    && InsertOrVerify(db.accounting, b.hash, facts) == Ok(db'.accounting)
    && ApplyRollup(lp.ar, canonical, db.rollup, b, db.checkpoint, facts) == Ok(db'.rollup)
    && db' == Database(lp.ar, canonical, lp.coins, db'.addresses, db'.buckets, tip, db'.accounting, db'.rollup, tip)
  }

  lemma PublishIff(sch: SubsidySchedule, db: Database, b: Block, canonical: set<Hash>, lp: Loop, db': Database)
    requires Sound(sch) && |db.buckets| == 8 && |b.txs| > 0
    ensures Publish(sch, db, b, canonical, lp) == Ok(db')
            <==> exists facts :: Published(sch, db, b, canonical, lp, facts, db')
  {
    if Publish(sch, db, b, canonical, lp) == Ok(db') {
      var facts := FactsOfBlock(sch, b, lp.fee).value;
      assert Published(sch, db, b, canonical, lp, facts, db');
    }
  }

  // --- the header ---

  predicate IsReplay(chain: seq<Hash>, b: Block) {
    chain != [] && b.hash == chain[|chain| - 1]
  }

  function NextChain(chain: seq<Hash>, b: Block): seq<Hash> {
    if IsReplay(chain, b) then chain else chain + [b.hash]
  }

  ghost predicate HeaderFacts(ar: Archive, chain: seq<Hash>, b: Block, hd: Header) {
    && hd.ar == ar.(blocks := ar.blocks[b.hash := HeaderRow(b)])
    && hd.isNew == (b.hash !in ar.blocks)
    && (b.hash in ar.blocks ==> hd.ar == ar && ar.blocks[b.hash] == HeaderRow(b))
    && WellFormedHash(b.hash) && b.height >= 0
    && (b.prev == "" || b.prev in hd.ar.blocks)
    && hd.canonical == Elems(NextChain(chain, b))
    && Linked(hd.ar, NextChain(chain, b))
    && (!IsReplay(chain, b) ==> b.hash !in chain)
  }

  lemma HeaderStored(ar: Archive, canonical: set<Hash>, b: Block, hd: Header)
    requires ArchiveOk(ar) && ApplyHeader(ar, canonical, b) == Ok(hd)
    ensures hd.ar == ar.(blocks := ar.blocks[b.hash := HeaderRow(b)])
    ensures hd.isNew == (b.hash !in ar.blocks)
    ensures b.hash in ar.blocks ==> hd.ar == ar && ar.blocks[b.hash] == HeaderRow(b)
    ensures WellFormedHash(b.hash) && b.height >= 0 && (b.prev == "" || b.prev in hd.ar.blocks)
    ensures hd.canonical == canonical + {b.hash}
  {
    if b.hash in ar.blocks {
      assert BlockRowOk(ar, b.hash);
      assert ar.blocks[b.hash := HeaderRow(b)] == ar.blocks;
    }
  }

  lemma BootstrapHeader(ar: Archive, b: Block, hd: Header)
    requires ArchiveOk(ar) && ApplyHeader(ar, {}, b) == Ok(hd) && ar.blocks == map[]
    ensures HeaderFacts(ar, [], b, hd)
  {
    hide WellFormedHash, RowsOk, BlockRowOk;
    HeaderStored(ar, {}, b, hd);
    assert NextChain([], b) == [b.hash];
    assert Elems([b.hash]) == {b.hash};
  }

  lemma ReplayHeader(ar: Archive, chain: seq<Hash>, b: Block, hd: Header)
    requires ArchiveOk(ar) && Linked(ar, chain) && IsReplay(chain, b)
    requires ApplyHeader(ar, Elems(chain), b) == Ok(hd)
    ensures HeaderFacts(ar, chain, b, hd) && hd.ar == ar && b.height == HeightOf(ar, b.hash)
  {
    hide WellFormedHash, RowsOk, ApplyHeader, BlockRowOk;
    HeaderStored(ar, Elems(chain), b, hd);
    assert b.hash in ar.blocks;
    assert Elems(chain) + {b.hash} == Elems(chain);
  }

  lemma ChildNotInChain(ar: Archive, chain: seq<Hash>, b: Block)
    requires Linked(ar, chain) && chain != []
    requires b.height == HeightOf(ar, chain[|chain| - 1]) + 1
    requires b.hash in ar.blocks ==> ar.blocks[b.hash] == HeaderRow(b)
    ensures b.hash !in chain
  {
    assert chain[|chain| - 1] in ar.blocks;
  }

  lemma AppendHeader(ar: Archive, chain: seq<Hash>, b: Block, hd: Header)
    requires ArchiveOk(ar) && Linked(ar, chain) && chain != [] && !IsReplay(chain, b)
    requires b.prev == chain[|chain| - 1] && b.height == HeightOf(ar, b.prev) + 1
    requires ApplyHeader(ar, Elems(chain), b) == Ok(hd)
    ensures HeaderFacts(ar, chain, b, hd)
  {
    hide WellFormedHash, RowsOk, ApplyHeader, BlockRowOk;
    HeaderStored(ar, Elems(chain), b, hd);
    ChildNotInChain(ar, chain, b);
    AppendLinked(ar, chain, b, hd.ar);
    assert Elems(chain + [b.hash]) == Elems(chain) + {b.hash};
  }

  lemma TipStored(ar: Archive, chain: seq<Hash>)
    requires ArchiveOk(ar) && Linked(ar, chain) && chain != []
    ensures TipOf(ar, chain).hash != "" && 0 <= TipOf(ar, chain).height
    ensures TipOf(ar, chain).hash in ar.blocks
  {
    assert chain[|chain| - 1] in ar.blocks;
    assert BlockRowOk(ar, chain[|chain| - 1]);
  }

  /** On an initialized store continuity leaves two cases; the wrapped child height of
      MaxInt64 is negative, and no stored block has a negative height. */
  lemma ContinuityCases(b: Block, cp: Checkpoint)
    requires CheckContinuity(b, cp).Ok? && cp.hash != "" && cp.height >= 0 && b.height >= 0
    ensures (b.hash == cp.hash && b.height == cp.height) || (b.prev == cp.hash && b.height == cp.height + 1)
  {
  }

  /** Bootstrap, exact tip replay, or immediate child. */
  lemma HeaderHolds(db: Database, chain: seq<Hash>, b: Block, hd: Header)
    requires ArchiveOk(db.ar) && Linked(db.ar, chain)
    requires db.canonical == Elems(chain) && db.checkpoint == TipOf(db.ar, chain)
    requires chain == [] ==> db.ar.blocks == map[]
    requires CheckContinuity(b, db.checkpoint).Ok? && ApplyHeader(db.ar, db.canonical, b) == Ok(hd)
    ensures HeaderFacts(db.ar, chain, b, hd)
    ensures IsReplay(chain, b) ==> hd.ar == db.ar && b.height == db.checkpoint.height
    ensures !IsReplay(chain, b) && chain != [] ==> b.prev == chain[|chain| - 1] && b.height == db.checkpoint.height + 1
  {
    if chain == [] {
      assert Elems(chain) == {};
      BootstrapHeader(db.ar, b, hd);
    } else if IsReplay(chain, b) {
      ReplayHeader(db.ar, chain, b, hd);
    } else {
      TipStored(db.ar, chain);
      HeaderStored(db.ar, db.canonical, b, hd);
      ContinuityCases(b, db.checkpoint);
      AppendHeader(db.ar, chain, b, hd);
    }
  }

  lemma AppendLinked(ar: Archive, chain: seq<Hash>, b: Block, ar': Archive)
    requires Linked(ar, chain) && chain != [] && b.hash !in chain
    requires ar' == ar.(blocks := ar.blocks[b.hash := HeaderRow(b)])
    requires b.prev == chain[|chain| - 1] && b.height == HeightOf(ar, b.prev) + 1
    ensures Linked(ar', chain + [b.hash])
  {
    var next := chain + [b.hash];
    forall i | 0 <= i < |next|
      ensures next[i] in ar'.blocks && ar'.blocks[next[i]].height == HeightOf(ar', next[0]) + i
      ensures i > 0 ==> ar'.blocks[next[i]].prev == next[i - 1]
    {
      assert chain[0] != b.hash;
      if i < |chain| {
        assert chain[i] != b.hash;
      }
    }
  }

  // --- the loop's starting point ---

  lemma BlocksOnlyChange(ar: Archive, ar': Archive, c: CoinSet)
    requires RowsOk(ar) && CoinsOk(ar, c)
    requires ar' == ar.(blocks := ar'.blocks) && SubMap(ar.blocks, ar'.blocks)
    ensures RowsOk(ar') && CoinsOk(ar', c)
    ensures SlicesAgreeOff(ar, c, ar', c, {})
  {
    forall x | x in ar'.txs
      ensures TxRowOk(ar', x)
    {
      TxRowStaysOk(ar, ar', x);
    }
    forall op | op in ar'.outAddrs
      ensures AddressRowOk(ar', op)
    {
      assert AddressRowOk(ar, op);
    }
    forall op | op in c
      ensures CoinOk(ar', op, c[op]) && ActivityOf(ar, op, c[op]) == ActivityOf(ar', op, c[op])
    {
      assert CoinOk(ar, op, c[op]);
      CoinStaysOk(ar, ar', op, c[op]);
    }
    forall a
      ensures SliceOf(ar', c, a) == SliceOf(ar, c, a)
    {
      forall op
        ensures OwnsAlike(ar, c, ar', c, a, op)
      {
      }
      SliceEqual(ar, c, ar', c, a);
    }
  }

  lemma HeaderGrows(ar: Archive, chain: seq<Hash>, b: Block, hd: Header)
    requires HeaderFacts(ar, chain, b, hd)
    ensures SubMap(ar.blocks, hd.ar.blocks)
  {
  }

  lemma StartHolds(sch: SubsidySchedule, db: Database, chain: seq<Hash>, b: Block, hd: Header)
    requires Sound(sch) && Coherent(sch, db, chain) && HeaderFacts(db.ar, chain, b, hd) && CheckBlock(b).Ok?
    requires hd.isNew || |TxIdsOf(hd.ar, b.hash)| == |b.txs|
    ensures LoopStart(hd.ar, db.coins, b)
    ensures SlicesAgreeOff(db.ar, db.coins, hd.ar, db.coins, {})
    ensures hd.isNew ==> TxIdsOf(hd.ar, b.hash) == []
  {
    HeaderGrows(db.ar, chain, b, hd);
    BlocksOnlyChange(db.ar, hd.ar, db.coins);
    if !hd.isNew {
      assert BlockRowOk(db.ar, b.hash);
    }
  }

  // --- the archive after the loop ---

  lemma OccurrencesComplete(ar0: Archive, b: Block, ar: Archive)
    requires LoopTables(ar0, b, |b.txs|, ar)
    ensures TxIdsOf(ar, b.hash) == Ids(b.txs)
  {
    assert Ids(b.txs)[..|b.txs|] == Ids(b.txs);
    if TxIdsOf(ar0, b.hash) != [] {
      assert TxIdsOf(ar, b.hash)[..|b.txs|] == TxIdsOf(ar, b.hash);
    }
  }

  lemma NewBlockRowOk(ar: Archive, chain: seq<Hash>, b: Block, hd: Header, ar': Archive)
    requires HeaderFacts(ar, chain, b, hd) && CheckBlock(b).Ok?
    requires LoopTables(hd.ar, b, |b.txs|, ar')
    ensures b.hash in ar'.blocks && BlockRowOk(ar', b.hash)
  {
    OccurrencesComplete(hd.ar, b, ar');
    var ids := Ids(b.txs);
    forall i | 0 <= i < |ids|
      ensures ids[i] in ar'.txs && (ar'.txs[ids[i]].isCoinbase <==> i == 0)
    {
      assert Stored(ar', b.txs[i]);
      TransactionShape(b.txs[i], i);
    }
  }

  lemma OtherOccurrences(ar0: Archive, ar: Archive, h: Hash, g: Hash)
    requires ar0.blockTxs - {h} == ar.blockTxs - {h} && g != h
    ensures TxIdsOf(ar, g) == TxIdsOf(ar0, g)
    ensures g in ar.blockTxs <==> g in ar0.blockTxs
  {
    assert g in ar.blockTxs <==> g in ar.blockTxs - {h};
    assert g in ar0.blockTxs <==> g in ar0.blockTxs - {h};
    if g in ar.blockTxs {
      assert ar.blockTxs[g] == (ar.blockTxs - {h})[g];
      assert ar0.blockTxs[g] == (ar0.blockTxs - {h})[g];
    }
  }

  /** A stored block's own rows never change. */
  lemma StoredBlockSame(ar: Archive, chain: seq<Hash>, b: Block, hd: Header, ar': Archive, g: Hash)
    requires ArchiveOk(ar) && HeaderFacts(ar, chain, b, hd)
    requires LoopTables(hd.ar, b, |b.txs|, ar') && g in ar.blocks
    ensures SameBlock(ar, ar', g) && g in ar'.blocks && ar'.blocks[g] == ar.blocks[g]
  {
    assert BlockRowOk(ar, g);
    if g == b.hash {
      OccurrencesComplete(hd.ar, b, ar');
    } else {
      OtherOccurrences(hd.ar, ar', b.hash, g);
    }
    CompleteSame(ar, ar', g);
  }

  lemma OldBlockRowOk(ar: Archive, chain: seq<Hash>, b: Block, hd: Header, ar': Archive, g: Hash)
    requires ArchiveOk(ar) && HeaderFacts(ar, chain, b, hd)
    requires LoopTables(hd.ar, b, |b.txs|, ar') && g in ar.blocks
    ensures g in ar'.blocks && BlockRowOk(ar', g)
  {
    assert BlockRowOk(ar, g);
    StoredBlockSame(ar, chain, b, hd, ar', g);
  }

  lemma OccurrenceKeys(ar: Archive, chain: seq<Hash>, b: Block, hd: Header, ar': Archive, g: Hash)
    requires ArchiveOk(ar) && HeaderFacts(ar, chain, b, hd) && CheckBlock(b).Ok?
    requires LoopTables(hd.ar, b, |b.txs|, ar')
    ensures g in ar'.blockTxs <==> g in ar'.blocks
    ensures g in ar.blockTxs ==> g in ar'.blockTxs && ar'.blockTxs[g] == ar.blockTxs[g]
  {
    if g != b.hash {
      OtherOccurrences(hd.ar, ar', b.hash, g);
    } else {
      OccurrencesComplete(hd.ar, b, ar');
    }
    if g in ar.blocks {
      StoredBlockSame(ar, chain, b, hd, ar', g);
    }
  }

  lemma ArchiveStaysOk(ar: Archive, chain: seq<Hash>, b: Block, hd: Header, ar': Archive)
    requires ArchiveOk(ar) && HeaderFacts(ar, chain, b, hd) && CheckBlock(b).Ok?
    requires LoopTables(hd.ar, b, |b.txs|, ar')
    ensures ArchiveOk(ar') && Extends(ar, ar')
  {
    hide RowsOk, CheckBlock, Occurred, DistinctUpTo, StoredUpTo, BlockRowOk, Linked;
    forall g | g in ar'.blocks
      ensures BlockRowOk(ar', g)
    {
      if g == b.hash {
        NewBlockRowOk(ar, chain, b, hd, ar');
      } else {
        OldBlockRowOk(ar, chain, b, hd, ar', g);
      }
    }
    forall g
      ensures g in ar'.blockTxs <==> g in ar'.blocks
      ensures g in ar.blockTxs ==> g in ar'.blockTxs && ar'.blockTxs[g] == ar.blockTxs[g]
    {
      OccurrenceKeys(ar, chain, b, hd, ar', g);
    }
    assert ar'.blockTxs.Keys == ar'.blocks.Keys;
    HeaderGrows(ar, chain, b, hd);
  }

  // --- coins ---

  lemma ChainCarriesOver(sch: SubsidySchedule, db: Database, chain: seq<Hash>, b: Block, hd: Header, ar': Archive)
    requires Sound(sch) && Coherent(sch, db, chain) && HeaderFacts(db.ar, chain, b, hd)
    requires LoopTables(hd.ar, b, |b.txs|, ar')
    ensures CoinsOf(ar', chain) == db.coins && ChainValid(ar', chain)
  {
    forall h | h in chain
      ensures SameBlock(db.ar, ar', h)
    {
      StoredBlockSame(db.ar, chain, b, hd, ar', h);
    }
    CoinsOfSame(db.ar, ar', chain);
    ChainValidSame(db.ar, ar', chain);
  }

  lemma LinkedCarriesOver(ar: Archive, ar': Archive, chain: seq<Hash>)
    requires Linked(ar, chain) && ar'.blocks == ar.blocks
    ensures Linked(ar', chain)
  {
  }

  lemma AppendCoins(ar: Archive, chain: seq<Hash>, h: Hash)
    ensures CoinsOf(ar, chain + [h]) == AfterBlock(ar, CoinsOf(ar, chain), h)
    ensures ChainValid(ar, chain) && BlockValid(ar, CoinsOf(ar, chain), h) ==> ChainValid(ar, chain + [h])
  {
    var next := chain + [h];
    assert next[..|next| - 1] == chain;
    if ChainValid(ar, chain) && BlockValid(ar, CoinsOf(ar, chain), h) {
      forall k | 0 <= k < |next|
        ensures BlockValid(ar, CoinsOf(ar, next[..k]), next[k])
      {
        if k < |chain| {
          assert next[..k] == chain[..k];
        }
      }
    }
  }

  lemma ReplayCoins(ar: Archive, chain: seq<Hash>)
    requires chain != [] && ChainValid(ar, chain)
    ensures AfterBlock(ar, CoinsOf(ar, chain), chain[|chain| - 1]) == CoinsOf(ar, chain)
  {
    var n := |chain| - 1;
    var ids := TxIdsOf(ar, chain[n]);
    assert BlockValid(ar, CoinsOf(ar, chain[..n]), chain[n]);
    ReplayNoEffect(ar.txs, CoinsOf(ar, chain[..n]), chain[n], HeightOf(ar, chain[n]) == 0, ids, |ids|);
  }

  lemma CoinsHold(sch: SubsidySchedule, db: Database, chain: seq<Hash>, b: Block, hd: Header, lp: Loop)
    requires Sound(sch) && Coherent(sch, db, chain) && HeaderFacts(db.ar, chain, b, hd) && CheckBlock(b).Ok?
    requires LoopInv(hd.ar, db.coins, b, |b.txs|, lp)
    ensures lp.coins == CoinsOf(lp.ar, NextChain(chain, b)) && ChainOk(lp.ar, NextChain(chain, b))
  {
    OccurrencesComplete(hd.ar, b, lp.ar);
    ChainCarriesOver(sch, db, chain, b, hd, lp.ar);
    LinkedCarriesOver(hd.ar, lp.ar, NextChain(chain, b));
    assert HeightOf(lp.ar, b.hash) == b.height;
    assert lp.coins == AfterBlock(lp.ar, db.coins, b.hash);
    if IsReplay(chain, b) {
      ReplayCoins(lp.ar, chain);
    } else {
      AppendCoins(lp.ar, chain, b.hash);
    }
  }
}
