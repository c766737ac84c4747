/** The next block of a coherent store's canonical chain is admitted, and its loop runs
    to the end, on any store that holds exactly the blocks before it. */
module Readmission {
  import opened Wrappers
  import opened Int64
  import opened Chain
  import opened Tables
  import opened Accounting
  import opened Shape
  import opened Coins
  import opened TxSpec
  import opened Cache
  import opened Distribution
  import opened StoreSpec
  import opened Integrity
  import opened BlockLoop
  import opened Coherence
  import opened ApplyProof
  import opened ApplyCoherence
  import opened Determined
  import opened Prefixes
  import opened Rebuild
  import opened Reapply

  /** s holds exactly the first k canonical blocks of the reference store. */
  ghost predicate Following(sch: SubsidySchedule, ref: Database, chain: seq<Hash>, k: nat, s: Database)
    requires Sound(sch)
  {
    && Coherent(sch, ref, chain) && PrefixesFit(ref.ar, chain) && k <= |chain|
    && Coherent(sch, s, chain[..k])
    && Copy(s.ar, ref.ar)
    && s.ar.blocks.Keys == Elems(chain[..k])
    && SameChainRows(s.ar, ref.ar, chain[..k])
  }

  // --- admission ---

  lemma RebuiltShape(ar: Archive, h: Hash)
    requires ArchiveOk(ar) && h in ar.blocks
    ensures CheckBlock(RebuiltBlock(ar, h)).Ok?
  {
    assert BlockRowOk(ar, h);
    var b := RebuiltBlock(ar, h);
    forall i | 0 <= i < |b.txs|
      ensures CheckTransaction(b.txs[i], i).Ok?
    {
      assert TxRowOk(ar, TxIdsOf(ar, h)[i]);
      TransactionShape(b.txs[i], i);
    }
  }

  lemma HeightAt(ar: Archive, chain: seq<Hash>, i: nat)
    requires Linked(ar, chain) && i < |chain|
    ensures chain[i] in ar.blocks && ar.blocks[chain[i]].height == HeightOf(ar, chain[i]) == HeightOf(ar, chain[0]) + i
    ensures i > 0 ==> ar.blocks[chain[i]].prev == chain[i - 1]
    ensures i == 0 ==> ar.blocks[chain[i]].prev == "" || ar.blocks[chain[i]].prev == chain[i]
  {
  }

  lemma NotAmongPrefix(chain: seq<Hash>, k: nat)
    requires Distinct(chain) && k < |chain|
    ensures chain[k] !in Elems(chain[..k])
    ensures k > 0 ==> chain[k - 1] in Elems(chain[..k])
  {
    assert k > 0 ==> chain[..k][k - 1] == chain[k - 1];
  }

  lemma HeightFree(sch: SubsidySchedule, ref: Database, chain: seq<Hash>, k: nat, s: Database)
    requires Sound(sch) && Following(sch, ref, chain, k, s) && k < |chain|
    ensures !HeightTaken(s.ar, s.canonical, HeightOf(ref.ar, chain[k]))
  {
    hide ArchiveOk, ChainValid, CoinsOk, AccountingOk, RollupOk, CacheCoherent, BucketsCoherent, PrefixesFit, Copy;
    HeightAt(ref.ar, chain, k);
    forall h | h in s.canonical
      ensures HeightOf(s.ar, h) != HeightOf(ref.ar, chain[k])
    {
      var i :| 0 <= i < k && chain[..k][i] == h;
      assert h in chain[..k];
      assert SameBlock(s.ar, ref.ar, h);
      HeightAt(ref.ar, chain, i);
    }
  }

  lemma TipBefore(sch: SubsidySchedule, ref: Database, chain: seq<Hash>, k: nat, s: Database)
    requires Sound(sch) && Following(sch, ref, chain, k, s) && k < |chain|
    ensures k == 0 ==> s.checkpoint == BOOTSTRAP
    ensures k > 0 ==> s.checkpoint.height == HeightOf(ref.ar, chain[0]) + k - 1 && s.checkpoint.hash == chain[k - 1]
  {
    hide ArchiveOk, ChainValid, CoinsOk, AccountingOk, RollupOk, CacheCoherent, BucketsCoherent, PrefixesFit, Copy;
    if k > 0 {
      var tip := chain[..k][k - 1];
      assert tip in chain[..k];
      assert SameBlock(s.ar, ref.ar, tip);
      HeightAt(ref.ar, chain, k - 1);
    }
  }

  lemma ContinuesTip(b: Block, cp: Checkpoint, k: nat)
    requires k == 0 ==> cp == BOOTSTRAP
    requires k > 0 ==> cp.height == b.height - 1 && cp.hash == b.prev
    ensures CheckContinuity(b, cp).Ok?
  {
  }

  lemma HeaderInserted(ar: Archive, canonical: set<Hash>, b: Block)
    requires b.hash !in ar.blocks && InsertableHeader(ar, b) && !HeightTaken(ar, canonical, b.height)
    ensures ApplyHeader(ar, canonical, b)
            == Ok(Header(ar.(blocks := ar.blocks[b.hash := HeaderRow(b)]), canonical + {b.hash}, true))
  {
  }

  lemma NextInsertable(sch: SubsidySchedule, ref: Database, chain: seq<Hash>, k: nat, s: Database)
    requires Sound(sch) && Following(sch, ref, chain, k, s) && k < |chain|
    ensures chain[k] in ref.ar.blocks
    ensures chain[k] !in s.ar.blocks && InsertableHeader(s.ar, RebuiltBlock(ref.ar, chain[k]))
  {
    hide ChainValid, CoinsOk, AccountingOk, RollupOk, DerivedOk, PrefixesFit, Copy, RowsOk, SameChainRows;
    HeightAt(ref.ar, chain, k);
    LinkedDistinct(ref.ar, chain);
    NotAmongPrefix(chain, k);
    assert BlockRowOk(ref.ar, chain[k]);
  }

  lemma NextAdmitted(sch: SubsidySchedule, ref: Database, chain: seq<Hash>, k: nat, s: Database) returns (hd: Header)
    requires Sound(sch) && Following(sch, ref, chain, k, s) && k < |chain|
    ensures chain[k] in ref.ar.blocks && Admitted(s, RebuiltBlock(ref.ar, chain[k]), hd) && hd.isNew
    ensures hd.ar == s.ar.(blocks := s.ar.blocks[chain[k] := HeaderRow(RebuiltBlock(ref.ar, chain[k]))])
  {
    hide ArchiveOk, ChainValid, CoinsOk, AccountingOk, RollupOk, DerivedOk, PrefixesFit, Copy, CheckBlock;
    hide HeightTaken, SameChainRows, InsertableHeader, ApplyHeader, CheckContinuity;
    NextInsertable(sch, ref, chain, k, s);
    HeightAt(ref.ar, chain, k);
    var b := RebuiltBlock(ref.ar, chain[k]);
    RebuiltShape(ref.ar, chain[k]);
    HeightFree(sch, ref, chain, k, s);
    TipBefore(sch, ref, chain, k, s);
    ContinuesTip(b, s.checkpoint, k);
    HeaderInserted(s.ar, s.canonical, b);
    hd := ApplyHeader(s.ar, s.canonical, b).value;
  }

  // --- the transaction loop ---

  lemma CopySurvivesHeader(ar: Archive, ar': Archive, ref: Archive)
    requires Copy(ar, ref) && ar'.txs == ar.txs && ar'.outAddrs == ar.outAddrs
    ensures Copy(ar', ref)
  {
    forall op: OutPoint | op.txid in ar'.txs
      ensures SameDestination(ar', ref, op)
    {
      assert SameDestination(ar, ref, op);
    }
  }

  lemma FeesFit(sch: SubsidySchedule, ref: Database, chain: seq<Hash>, k: nat)
    requires Sound(sch) && Coherent(sch, ref, chain) && k < |chain|
    ensures 0 <= BlockFees(ref.ar, chain[k]) <= MAX_INT64
  {
    hide ArchiveOk, ChainValid, CoinsOk, RollupOk, DerivedOk, BlockFees, CoinbaseTotal;
    assert chain[k] in ref.ar.blocks;
    assert FactsMatch(sch, ref.ar, chain[k], ref.accounting[chain[k]]);
  }

  lemma SameCoins(sch: SubsidySchedule, ref: Database, chain: seq<Hash>, k: nat, s: Database)
    requires Sound(sch) && Following(sch, ref, chain, k, s) && k < |chain|
    ensures s.coins == CoinsOf(ref.ar, chain[..k]) && BlockValid(ref.ar, s.coins, chain[k])
  {
    hide ArchiveOk, CoinsOk, AccountingOk, RollupOk, CacheCoherent, BucketsCoherent, PrefixesFit, Copy, BlockValid, SameBlock;
    CoinsOfSame(s.ar, ref.ar, chain[..k]);
    assert BlockValid(ref.ar, CoinsOf(ref.ar, chain[..k]), chain[k]);
  }

  lemma HeaderReached(sch: SubsidySchedule, s: Database, prefix: seq<Hash>, b: Block, hd: Header)
    requires Sound(sch) && Coherent(sch, s, prefix) && Admitted(s, b, hd) && hd.isNew
    ensures HeaderFacts(s.ar, prefix, b, hd)
    ensures LoopStart(hd.ar, s.coins, b) && TxIdsOf(hd.ar, b.hash) == []
  {
    hide ApplyHeader, CheckContinuity, CheckBlock, ChainValid, AccountingOk, RollupOk, CacheCoherent, BucketsCoherent;
    HeaderHolds(s, prefix, b, hd);
    StartHolds(sch, s, prefix, b, hd);
  }

  lemma NextResumes(sch: SubsidySchedule, ref: Database, chain: seq<Hash>, k: nat, s: Database, hd: Header)
    requires Sound(sch) && Following(sch, ref, chain, k, s) && k < |chain| && chain[k] in ref.ar.blocks
    requires Admitted(s, RebuiltBlock(ref.ar, chain[k]), hd) && hd.isNew
    requires hd.ar == s.ar.(blocks := s.ar.blocks[chain[k] := HeaderRow(RebuiltBlock(ref.ar, chain[k]))])
    ensures Resuming(ref.ar, s.coins, chain[k], hd.ar)
  {
    hide ArchiveOk, ChainOk, CoinsOk, AccountingOk, RollupOk, DerivedOk, PrefixesFit, Copy, BlockValid, LoopStart;
    hide Admitted, SameChainRows, HeaderFacts;
    HeaderReached(sch, s, chain[..k], RebuiltBlock(ref.ar, chain[k]), hd);
    SameCoins(sch, ref, chain, k, s);
    FeesFit(sch, ref, chain, k);
    CopySurvivesHeader(s.ar, hd.ar, ref.ar);
  }

  lemma NextChainIs(chain: seq<Hash>, k: nat, b: Block)
    requires Distinct(chain) && k < |chain| && b.hash == chain[k]
    ensures NextChain(chain[..k], b) == chain[..k + 1] && !IsReplay(chain[..k], b)
  {
    NotAmongPrefix(chain, k);
    assert chain[..k] + [chain[k]] == chain[..k + 1];
  }

  /** The loop of block chain[k] ran to its end on s. */
  ghost predicate Looped(sch: SubsidySchedule, ref: Database, chain: seq<Hash>, k: nat, s: Database, hd: Header, lp: Loop)
    requires Sound(sch)
  {
    && Following(sch, ref, chain, k, s) && k < |chain| && chain[k] in ref.ar.blocks
    && LoopDone(sch, s, chain[..k], RebuiltBlock(ref.ar, chain[k]), hd, lp)
    && NextChain(chain[..k], RebuiltBlock(ref.ar, chain[k])) == chain[..k + 1]
    && !IsReplay(chain[..k], RebuiltBlock(ref.ar, chain[k]))
    && Copy(lp.ar, ref.ar)
  }

  lemma NextLooped(sch: SubsidySchedule, ref: Database, chain: seq<Hash>, k: nat, s: Database, hd: Header) returns (lp: Loop)
    requires Sound(sch) && Following(sch, ref, chain, k, s) && k < |chain| && chain[k] in ref.ar.blocks
    requires Admitted(s, RebuiltBlock(ref.ar, chain[k]), hd) && hd.isNew
    requires hd.ar == s.ar.(blocks := s.ar.blocks[chain[k] := HeaderRow(RebuiltBlock(ref.ar, chain[k]))])
    ensures var b := RebuiltBlock(ref.ar, chain[k]); ApplyTxs(hd.ar, s.coins, b, |b.txs|) == Ok(lp)
    ensures Looped(sch, ref, chain, k, s, hd, lp)
  {
    hide ArchiveOk, ChainValid, CoinsOk, AccountingOk, RollupOk, DerivedOk, PrefixesFit, Copy, Resuming, ApplyTxs, Admitted, LoopDone, SameChainRows;
    NextResumes(sch, ref, chain, k, s, hd);
    LoopAccepted(ref.ar, s.coins, chain[k], hd.ar, |TxIdsOf(ref.ar, chain[k])|);
    var b := RebuiltBlock(ref.ar, chain[k]);
    lp := ApplyTxs(hd.ar, s.coins, b, |b.txs|).value;
    LoopReached(sch, s, chain[..k], b, hd, lp);
    LinkedDistinct(ref.ar, chain);
    NextChainIs(chain, k, b);
  }
}
