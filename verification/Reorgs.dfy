/** Leaving a branch and coming back to it: blocks that were undone are accepted again, and
    every block ever stored can become the tip again. */
module Reorgs {
  import opened Wrappers
  import opened Chain
  import opened Tables
  import opened Accounting
  import opened Coins
  import opened Distribution
  import opened StoreSpec
  import opened Integrity
  import opened BlockLoop
  import opened Coherence
  import opened RollbackProof
  import opened ApplyProof
  import opened ApplyCoherence
  import opened Determined
  import opened Prefixes
  import opened Recovery
  import opened Inverse
  import opened Originals
  import opened Promotion

  /** The canonical chain after this run on it. */
  function RunChain(chain: seq<Hash>, bs: seq<Block>): seq<Hash> {
    if bs == [] then chain else NextChain(RunChain(chain, bs[..|bs| - 1]), bs[|bs| - 1])
  }

  lemma {:induction false} RunReaches(sch: SubsidySchedule, db: Database, chain: seq<Hash>, bs: seq<Block>, db1: Database)
    requires Sound(sch) && Coherent(sch, db, chain) && |db.buckets| == 8 && ApplyAll(sch, db, bs) == Ok(db1)
    ensures Coherent(sch, db1, RunChain(chain, bs)) && Extends(db.ar, db1.ar) && chain <= RunChain(chain, bs)
    ensures PrefixesFit(db.ar, chain) ==> PrefixesFit(db1.ar, RunChain(chain, bs))
  {
    hide Coherent, ApplyBlock, PrefixesFit;
    if bs != [] {
      var init, b := bs[..|bs| - 1], bs[|bs| - 1];
      var mid := ApplyAll(sch, db, init).value;
      RunReaches(sch, db, chain, init, mid);
      ApplyCoherent(sch, mid, RunChain(chain, init), b, db1);
      if PrefixesFit(db.ar, chain) {
        ApplyKeepsFits(sch, mid, RunChain(chain, init), b, db1);
      }
    }
  }

  // --- the blocks of a run, as stored ---

  /** Right after it was accepted, the tables held block i as it was given. */
  lemma {:induction false} RunStores(sch: SubsidySchedule, db: Database, chain: seq<Hash>, bs: seq<Block>, db1: Database, i: nat)
    returns (mid: Archive)
    requires Sound(sch) && Coherent(sch, db, chain) && |db.buckets| == 8 && ApplyAll(sch, db, bs) == Ok(db1) && i < |bs|
    ensures AsGiven(mid, bs[i]) && Extends(db.ar, mid) && Extends(mid, db1.ar)
  {
    hide Coherent, ApplyBlock, AsGiven, PrefixesFit;
    var init, b := bs[..|bs| - 1], bs[|bs| - 1];
    var before := ApplyAll(sch, db, init).value;
    RunReaches(sch, db, chain, init, before);
    RunReaches(sch, db, chain, bs, db1);
    if i == |bs| - 1 {
      AppliedAsGiven(sch, before, RunChain(chain, init), b, db1);
      mid := db1.ar;
    } else {
      mid := RunStores(sch, db, chain, init, before, i);
      ApplyCoherent(sch, before, RunChain(chain, init), b, db1);
    }
  }

  /** Where the destinations of all blocks of a run agree, its end still holds each as given. */
  lemma {:induction false} RunAsGiven(sch: SubsidySchedule, db: Database, chain: seq<Hash>, bs: seq<Block>, db1: Database, i: nat)
    requires Sound(sch) && Coherent(sch, db, chain) && |db.buckets| == 8 && ApplyAll(sch, db, bs) == Ok(db1) && i < |bs|
    requires forall j :: i < j < |bs| ==> BlocksAgree(bs[i], bs[j])
    ensures AsGiven(db1.ar, bs[i])
  {
    hide Coherent, ApplyBlock, AsGiven, PrefixesFit, BlocksAgree, DestinationsFrom, StoredUpTo, Extends;
    var init, b := bs[..|bs| - 1], bs[|bs| - 1];
    var before := ApplyAll(sch, db, init).value;
    RunReaches(sch, db, chain, init, before);
    if i == |bs| - 1 {
      AppliedAsGiven(sch, before, RunChain(chain, init), b, db1);
    } else {
      RunAsGiven(sch, db, chain, init, before, i);
      ApplyCoherent(sch, before, RunChain(chain, init), b, db1);
      ApplyAdds(sch, before, RunChain(chain, init), b, db1);
      AsGivenStays(before.ar, db1.ar, b, init[i]);
    }
  }

  /** A destination named by an earlier block is named again by every later one that is
      stored as given. */
  lemma LaterNames(early: Archive, late: Archive, c: Block, b: Block, p: nat, q: nat, v: nat)
    requires AsGiven(early, c) && AsGiven(late, b) && Extends(early, late)
    requires p < |c.txs| && q < |b.txs| && c.txs[p].txid == b.txs[q].txid
    requires v < |c.txs[p].outputs| && v < |b.txs[q].outputs|
    ensures c.txs[p].outputs[v].address != "" ==> b.txs[q].outputs[v].address == c.txs[p].outputs[v].address
  {
    assert Stored(early, c.txs[p]) && Stored(late, b.txs[q]);
    assert AddressStored(early.outAddrs, OutPoint(c.txs[p].txid, v), c.txs[p].outputs[v].address);
    assert AddressStored(late.outAddrs, OutPoint(b.txs[q].txid, v), b.txs[q].outputs[v].address);
  }

  lemma StoredTwiceAgree(earlyC: Archive, lateB: Archive, earlyB: Archive, lateC: Archive, c: Block, b: Block)
    requires AsGiven(earlyC, c) && AsGiven(lateB, b) && Extends(earlyC, lateB)
    requires AsGiven(earlyB, b) && AsGiven(lateC, c) && Extends(earlyB, lateC)
    ensures BlocksAgree(c, b)
  {
    hide AsGiven, Extends;
    forall p, q | 0 <= p < |c.txs| && 0 <= q < |b.txs|
      ensures SameNames(c.txs[p], b.txs[q])
    {
      if c.txs[p].txid == b.txs[q].txid {
        forall v | 0 <= v < |c.txs[p].outputs| && v < |b.txs[q].outputs|
          ensures c.txs[p].outputs[v].address == b.txs[q].outputs[v].address
        {
          LaterNames(earlyC, lateB, c, b, p, q, v);
          LaterNames(earlyB, lateC, b, c, q, p, v);
        }
      }
    }
  }

  // --- a run of blocks that are already stored ---

  lemma {:induction false} StoredRun(sch: SubsidySchedule, db: Database, chain: seq<Hash>, bs: seq<Block>) returns (db1: Database)
    requires Sound(sch) && Coherent(sch, db, chain) && |db.buckets| == 8 && chain != []
    requires forall i :: 0 <= i < |bs| ==> AsGiven(db.ar, bs[i])
    requires ChainOk(db.ar, RunChain(chain, bs)) && PrefixesFit(db.ar, RunChain(chain, bs))
    ensures ApplyAll(sch, db, bs) == Ok(db1) && Coherent(sch, db1, RunChain(chain, bs))
    ensures db1.ar == db.ar && db1.accounting == db.accounting && db1.rollup == db.rollup
  {
    hide Coherent, ApplyBlock, AsGiven, CoinsOf, ChainOk, CoinsFit;
    if bs == [] {
      db1 := db;
    } else {
      var init, b := bs[..|bs| - 1], bs[|bs| - 1];
      var mid, all := RunChain(chain, init), RunChain(chain, bs);
      assert mid == all[..|mid|] && all[..|all|] == all;
      ChainOkPrefix(db.ar, all, |mid|);
      ShorterFits(db.ar, all, |mid|);
      var before := StoredRun(sch, db, chain, init);
      RunReaches(sch, db, chain, init, before);
      StoredAcceptedIff(sch, before, mid, b);
      db1 := ApplyBlock(sch, before, b).value;
    }
  }

  /** Undoing a run of accepted blocks and offering it again: all of it is accepted if and
      only if no two of its blocks disagree on the destination of an output, and then the
      database is exactly what it was. */
  lemma RunReaccepted(sch: SubsidySchedule, db: Database, chain: seq<Hash>, bs: seq<Block>, db1: Database) returns (db2: Database)
    requires Sound(sch) && Coherent(sch, db, chain) && PrefixesFit(db.ar, chain) && chain != []
    requires |db.buckets| == 8 && ApplyAll(sch, db, bs) == Ok(db1)
    ensures RollbackTo(db1, db.checkpoint.hash) == Ok(db2)
    ensures ApplyAll(sch, db2, bs).Ok? <==> forall i, j :: 0 <= i < j < |bs| ==> BlocksAgree(bs[i], bs[j])
    ensures ApplyAll(sch, db2, bs).Ok? ==> ApplyAll(sch, db2, bs) == Ok(db1)
  {
    hide Coherent, ApplyAll, RollbackTo, PrefixesFit, BlocksAgree, NothingShows, SameDerived, Extends;
    db2 := RollbackInverse(sch, db, chain, bs, db1);
    RunReaches(sch, db, chain, bs, db1);
    UndoneRun(sch, db, chain, bs, db1, db2);
    if forall i, j :: 0 <= i < j < |bs| ==> BlocksAgree(bs[i], bs[j]) {
      Redone(sch, db, chain, bs, db1, db2);
    } else {
      if ApplyAll(sch, db2, bs).Ok? {
        forall i, j | 0 <= i < j < |bs|
          ensures BlocksAgree(bs[i], bs[j])
        {
          RunAgrees(sch, db, chain, bs, db1, db2, ApplyAll(sch, db2, bs).value, i, j);
        }
      }
    }
  }

  lemma UndoneRun(sch: SubsidySchedule, db: Database, chain: seq<Hash>, bs: seq<Block>, db1: Database, db2: Database)
    requires Sound(sch) && Coherent(sch, db, chain) && chain != []
    requires Coherent(sch, db1, RunChain(chain, bs)) && |db1.buckets| == 8 && chain <= RunChain(chain, bs)
    requires RollbackTo(db1, db.checkpoint.hash) == Ok(db2)
    ensures Coherent(sch, db2, chain) && |db2.buckets| == 8
    ensures db2.ar == db1.ar && db2.accounting == db1.accounting && db2.rollup == db1.rollup
  {
    hide Coherent, RefreshChecked, BucketsAfter, Linked, ArchiveOk, CoinsOf;
    TipOfChain(sch, db, chain);
    var chain1 := RunChain(chain, bs);
    TipOfChain(sch, db1, chain1);
    var n := |chain| - 1;
    assert chain1[n] == chain[n];
    var k := RollbackCoherent(sch, db1, chain1, chain[n], db2);
    LinkedDistinct(db1.ar, chain1);
    assert k == n && chain1[..n + 1] == chain;
  }

  lemma Redone(sch: SubsidySchedule, db: Database, chain: seq<Hash>, bs: seq<Block>, db1: Database, db2: Database)
    requires Sound(sch) && Coherent(sch, db, chain) && PrefixesFit(db.ar, chain) && chain != []
    requires |db.buckets| == 8 && ApplyAll(sch, db, bs) == Ok(db1)
    requires Coherent(sch, db2, chain) && |db2.buckets| == 8
    requires db2.ar == db1.ar && db2.accounting == db1.accounting && db2.rollup == db1.rollup
    requires forall i, j :: 0 <= i < j < |bs| ==> BlocksAgree(bs[i], bs[j])
    ensures ApplyAll(sch, db2, bs) == Ok(db1)
  {
    hide ArchiveOk, CoinsOk, DerivedOk, AccountingOk, RollupOk, ChainOk, ApplyAll, PrefixesFit, BlocksAgree, AsGiven;
    var chain1 := RunChain(chain, bs);
    RunReaches(sch, db, chain, bs, db1);
    forall i | 0 <= i < |bs|
      ensures AsGiven(db1.ar, bs[i])
    {
      RunAsGiven(sch, db, chain, bs, db1, i);
    }
    var again := StoredRun(sch, db2, chain, bs);
    NoNewDestinations(db1.ar, chain1, db1.coins);
    DerivedDetermined(sch, again, db1, chain1);
  }

  lemma NoNewDestinations(ar: Archive, chain: seq<Hash>, c: CoinSet)
    requires ArchiveOk(ar) && ChainOk(ar, chain)
    ensures SameChainRows(ar, ar, chain) && forall d :: SameDestinations(ar, ar, d)
  {
    hide ChainValid, RowsOk;
    ExtendsSameChain(ar, ar, chain);
  }

  lemma RunAgrees(sch: SubsidySchedule, db: Database, chain: seq<Hash>, bs: seq<Block>, db1: Database, db2: Database, db3: Database, i: nat, j: nat)
    requires Sound(sch) && Coherent(sch, db, chain) && |db.buckets| == 8 && ApplyAll(sch, db, bs) == Ok(db1)
    requires Coherent(sch, db2, chain) && |db2.buckets| == 8 && db2.ar == db1.ar && ApplyAll(sch, db2, bs) == Ok(db3)
    requires i < |bs| && j < |bs|
    ensures BlocksAgree(bs[i], bs[j])
  {
    hide Coherent, ApplyAll, AsGiven, BlocksAgree;
    var earlyC := RunStores(sch, db, chain, bs, db1, i);
    var earlyB := RunStores(sch, db, chain, bs, db1, j);
    var lateC := RunStores(sch, db2, chain, bs, db3, i);
    var lateB := RunStores(sch, db2, chain, bs, db3, j);
    StoredTwiceAgree(earlyC, lateB, earlyB, lateC, bs[i], bs[j]);
  }

  /** After any history: undo a further run of accepted blocks, offer it again. */
  lemma ReacceptedInEveryHistory(sch: SubsidySchedule, ops: seq<Op>, bs: seq<Block>, db1: Database)
    returns (chain: seq<Hash>, db2: Database)
    requires Sound(sch) && ApplyAll(sch, Run(sch, ops), bs) == Ok(db1)
    ensures var db := Run(sch, ops);
            && Coherent(sch, db, chain)
            && (chain != [] ==>
                  && RollbackTo(db1, db.checkpoint.hash) == Ok(db2)
                  && (ApplyAll(sch, db2, bs).Ok? <==> forall i, j :: 0 <= i < j < |bs| ==> BlocksAgree(bs[i], bs[j]))
                  && (ApplyAll(sch, db2, bs).Ok? ==> ApplyAll(sch, db2, bs) == Ok(db1)))
  {
    hide Coherent, PrefixesFit, RollbackTo, Run, ApplyAll, BlocksAgree;
    chain := RunFits(sch, ops);
    db2 := db1;
    if chain != [] {
      db2 := RunReaccepted(sch, Run(sch, ops), chain, bs, db1);
    }
  }
}
