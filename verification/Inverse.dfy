/** Rolling back is the inverse of applying, except for destinations that a replay of the
    tip adds; and exactly when those leave a trace in the address cache. */
module Inverse {
  import opened Wrappers
  import opened Chain
  import opened Tables
  import opened Accounting
  import opened Coins
  import opened TxFacts
  import opened Cache
  import opened Distribution
  import opened StoreSpec
  import opened Integrity
  import opened BlockLoop
  import opened Coherence
  import opened RollbackProof
  import opened ApplyProof
  import opened ApplyCoherence
  import opened Determined
  import opened Prefixes
  import opened Recovery
  import opened Lifecycle
  import opened Unnoticed

  /** b names a as the destination of op. */
  ghost predicate Names(b: Block, op: OutPoint, a: Address) {
    exists p :: 0 <= p < |b.txs| && Supplies(b.txs[p].txid, b.txs[p].outputs, |b.txs[p].outputs|, op)
                && b.txs[p].outputs[op.vout].address == a
  }

  /** b replays the tip of db and names a destination for a coin stored without one. */
  ghost predicate Gains(db: Database, b: Block, op: OutPoint, a: Address) {
    b.hash == db.checkpoint.hash && op in db.coins && op !in db.ar.outAddrs && Names(b, op, a)
  }

  /** Naming a for op would not show: op is worth nothing, and a already has the
      transactions that created and spent it. */
  ghost predicate Invisible(db: Database, op: OutPoint, a: Address)
    requires op in db.coins
  {
    AddsNothing(SliceOf(db.ar, db.coins, a), op, ActivityOf(db.ar, op, db.coins[op]))
  }

  // --- what a run adds ---

  lemma NamedIsStored(ar: Archive, b: Block, op: OutPoint, a: Address)
    requires StoredUpTo(ar, b.txs, |b.txs|) && Names(b, op, a)
    ensures op in ar.outAddrs && ar.outAddrs[op] == a && op.txid in Ids(b.txs)
  {
    var p :| 0 <= p < |b.txs| && Supplies(b.txs[p].txid, b.txs[p].outputs, |b.txs[p].outputs|, op)
             && b.txs[p].outputs[op.vout].address == a;
    assert Stored(ar, b.txs[p]);
    assert AddressStored(ar.outAddrs, OutPoint(b.txs[p].txid, op.vout), b.txs[p].outputs[op.vout].address);
    assert Ids(b.txs)[p] == op.txid;
  }

  lemma SuppliedIsNamed(b: Block, op: OutPoint) returns (a: Address)
    requires SuppliedBy(b, |b.txs|, op)
    ensures Names(b, op, a)
  {
    var p :| 0 <= p < |b.txs| && Supplies(b.txs[p].txid, b.txs[p].outputs, |b.txs[p].outputs|, op);
    a := b.txs[p].outputs[op.vout].address;
  }

  /** A destination named anywhere in a run of accepted blocks is the stored one at its end. */
  lemma {:induction false} RunGains(
    sch: SubsidySchedule, db: Database, chain: seq<Hash>, bs: seq<Block>, db': Database, i: nat, op: OutPoint, a: Address)
    requires Sound(sch) && Coherent(sch, db, chain) && |db.buckets| == 8 && ApplyAll(sch, db, bs) == Ok(db')
    requires i < |bs| && Names(bs[i], op, a)
    ensures op in db'.ar.outAddrs && db'.ar.outAddrs[op] == a
  {
    hide Coherent, ApplyBlock, Names, StoredUpTo, DestinationsFrom;
    var init, b := bs[..|bs| - 1], bs[|bs| - 1];
    var p := ApplyAll(sch, db, init).value;
    var mid := RunOnBase(sch, db, chain, init, p);
    ApplyAdds(sch, p, mid, b, db');
    if i == |bs| - 1 {
      NamedIsStored(db'.ar, b, op, a);
    } else {
      RunGains(sch, db, chain, init, p, i, op, a);
      ApplyCoherent(sch, p, mid, b, db');
    }
  }

  /** Only a replay of the base tip names new destinations for the base's coins. */
  lemma StepGained(sch: SubsidySchedule, db: Database, chain: seq<Hash>, p: Database, mid: seq<Hash>, b: Block, db': Database, op: OutPoint)
    requires Sound(sch) && Coherent(sch, db, chain) && chain != []
    requires Coherent(sch, p, mid) && BuiltOn(db, chain, p, mid) && ApplyBlock(sch, p, b) == Ok(db')
    requires op in db.coins && op !in p.ar.outAddrs && op in db'.ar.outAddrs
    ensures b.hash == db.checkpoint.hash && Names(b, op, db'.ar.outAddrs[op])
    ensures op.txid in TxIdsOf(db.ar, b.hash)
  {
    hide ChainValid, CoinsOk, AccountingOk, RollupOk, ApplyBlock, CoinsOf, CacheCoherent, BucketsCoherent;
    hide StoredUpTo, Names, RowsOk, BlockRowOk, SuppliedBy;
    ApplyCoherent(sch, p, mid, b, db');
    ApplyAdds(sch, p, mid, b, db');
    var chain' := NextChain(mid, b);
    NextTip(mid, b);
    if chain' != chain {
      assert chain'[..|chain|] == chain;
      SameCoinsLater(sch, db, chain, p, mid, db');
      GainedNowhere(p.ar, db'.ar, b, |chain|, chain', |chain'| - 1, op);
    }
    var a := SuppliedIsNamed(b, op);
    NamedIsStored(db'.ar, b, op, a);
    assert b.hash in db.ar.blocks;
  }

  lemma {:induction false} RunGained(sch: SubsidySchedule, db: Database, chain: seq<Hash>, bs: seq<Block>, db': Database, op: OutPoint)
    requires Sound(sch) && Coherent(sch, db, chain) && chain != [] && |db.buckets| == 8 && ApplyAll(sch, db, bs) == Ok(db')
    requires op in db.coins && op !in db.ar.outAddrs && op in db'.ar.outAddrs
    ensures exists i :: 0 <= i < |bs| && Gains(db, bs[i], op, db'.ar.outAddrs[op])
    ensures op.txid in TxIdsOf(db.ar, db.checkpoint.hash)
  {
    hide Coherent, ApplyBlock, Names, TxIdsOf;
    if bs != [] {
      var init, b := bs[..|bs| - 1], bs[|bs| - 1];
      var p := ApplyAll(sch, db, init).value;
      var mid := RunOnBase(sch, db, chain, init, p);
      if op in p.ar.outAddrs {
        ApplyCoherent(sch, p, mid, b, db');
        RunGained(sch, db, chain, init, p, op);
        var i :| 0 <= i < |init| && Gains(db, init[i], op, p.ar.outAddrs[op]);
        assert bs[i] == init[i];
      } else {
        StepGained(sch, db, chain, p, mid, b, db', op);
        assert Gains(db, bs[|bs| - 1], op, db'.ar.outAddrs[op]);
      }
    }
  }

  // --- what of it shows ---

  lemma CachesEqualIff(m: map<Address, AddressRow>, n: map<Address, AddressRow>, ar: Archive, ar': Archive, c: CoinSet)
    requires CacheCoherent(m, ar, c) && CacheCoherent(n, ar', c)
    ensures m == n <==> forall a :: SameRow(SliceOf(ar, c, a), SliceOf(ar', c, a))
  {
    forall a
      ensures SameRow(SliceOf(ar, c, a), SliceOf(ar', c, a)) <==> ((a in m <==> a in n) && (a in m && a in n ==> m[a] == n[a]))
    {
      assert RowCoherent(m, ar, c, a) && RowCoherent(n, ar', c, a);
    }
    if forall a :: SameRow(SliceOf(ar, c, a), SliceOf(ar', c, a)) {
      forall a
        ensures (a in m <==> a in n) && (a in m && a in n ==> m[a] == n[a])
      {
        assert SameRow(SliceOf(ar, c, a), SliceOf(ar', c, a));
      }
    }
  }

  /** Under ar', op belongs to a; under ar, to nobody. */
  ghost predicate Gained(ar: Archive, ar': Archive, c: CoinSet, op: OutPoint) {
    op in c && op !in ar.outAddrs && op in ar'.outAddrs
  }

  lemma SliceExtra(ar: Archive, ar': Archive, chain: seq<Hash>, a: Address, x: OutPoint)
    requires Tracked(ar, chain) && SameChainRows(ar, ar', chain) && Extends(ar, ar')
    ensures var c := CoinsOf(ar, chain);
            && ((x in SliceOf(ar', c, a) && x !in SliceOf(ar, c, a)) <==> (Gained(ar, ar', c, x) && ar'.outAddrs[x] == a))
            && (x in SliceOf(ar', c, a) ==> x in c && SliceOf(ar', c, a)[x] == ActivityOf(ar, x, c[x]))
  {
    hide ArchiveOk, ChainOk, CoinsOk, CoinsOf, ActivityOf, SameChainRows;
    if x in CoinsOf(ar, chain) {
      SameActivity(ar, ar', chain, x);
    }
  }

  ghost predicate AllInvisible(ar: Archive, ar': Archive, c: CoinSet) {
    forall op :: Gained(ar, ar', c, op) ==> AddsNothing(SliceOf(ar, c, ar'.outAddrs[op]), op, ActivityOf(ar, op, c[op]))
  }

  lemma SameCacheIff(m: map<Address, AddressRow>, n: map<Address, AddressRow>, ar: Archive, ar': Archive, chain: seq<Hash>)
    requires Tracked(ar, chain) && SameChainRows(ar, ar', chain) && Extends(ar, ar') && GainedAtTip(ar, ar', chain)
    requires Backed(ar, CoinsOf(ar, chain))
    requires CacheCoherent(m, ar, CoinsOf(ar, chain)) && CacheCoherent(n, ar', CoinsOf(ar, chain))
    ensures m == n <==> AllInvisible(ar, ar', CoinsOf(ar, chain))
  {
    hide Tracked, SameChainRows, CoinsOf, SliceOf, CacheCoherent, SameRow, AddsNothing, Grows, GainsAtTop, Backed, ActivityOf;
    var c := CoinsOf(ar, chain);
    CachesEqualIff(m, n, ar, ar', c);
    forall a
      ensures SameRow(SliceOf(ar, c, a), SliceOf(ar', c, a))
              <==> forall op :: Gained(ar, ar', c, op) && ar'.outAddrs[op] == a ==> AddsNothing(SliceOf(ar, c, a), op, ActivityOf(ar, op, c[op]))
    {
      RowSameIff(ar, ar', chain, a);
    }
    if m == n {
      forall op | Gained(ar, ar', c, op)
        ensures AddsNothing(SliceOf(ar, c, ar'.outAddrs[op]), op, ActivityOf(ar, op, c[op]))
      {
        assert SameRow(SliceOf(ar, c, ar'.outAddrs[op]), SliceOf(ar', c, ar'.outAddrs[op]));
      }
    }
  }

  lemma RowSameIff(ar: Archive, ar': Archive, chain: seq<Hash>, a: Address)
    requires Tracked(ar, chain) && SameChainRows(ar, ar', chain) && Extends(ar, ar') && GainedAtTip(ar, ar', chain)
    requires Backed(ar, CoinsOf(ar, chain))
    ensures var c := CoinsOf(ar, chain);
            SameRow(SliceOf(ar, c, a), SliceOf(ar', c, a))
            <==> forall op :: Gained(ar, ar', c, op) && ar'.outAddrs[op] == a ==> AddsNothing(SliceOf(ar, c, a), op, ActivityOf(ar, op, c[op]))
  {
    hide Tracked, SameChainRows, CoinsOf, SliceOf, SameRow, AddsNothing, Grows, GainsAtTop, Backed, ActivityOf;
    var c, top := CoinsOf(ar, chain), HeightOf(ar, chain[|chain| - 1]);
    var s, t := SliceOf(ar, c, a), SliceOf(ar', c, a);
    SliceGrows(ar, ar', chain, a);
    SliceGainsAtTop(ar, ar', chain, a);
    SameRowIff(s, t, top);
    forall x
      ensures (x in t && x !in s) <==> (Gained(ar, ar', c, x) && ar'.outAddrs[x] == a)
      ensures x in t ==> x in c && t[x] == ActivityOf(ar, x, c[x])
    {
      SliceExtra(ar, ar', chain, a, x);
    }
  }

  /** Of everything a rollback repairs only the address cache can differ, and with it the
      buckets. */
  lemma OnlyCacheCanDiffer(sch: SubsidySchedule, s: Database, t: Database, chain: seq<Hash>)
    requires Sound(sch) && Coherent(sch, s, chain) && Coherent(sch, t, chain) && SameChainRows(s.ar, t.ar, chain)
    ensures s.coins == t.coins
    ensures SameDerived(s, t) <==> s.addresses == t.addresses
  {
    hide ArchiveOk, ChainOk, CoinsOk, AccountingOk, RollupOk, CacheCoherent, BucketsCoherent, CoinsOf;
    SameChainFold(s.ar, t.ar, chain);
    if s.addresses == t.addresses {
      BucketsUnique(s.buckets, t.buckets, s.addresses);
    }
    if chain != [] {
      assert chain[|chain| - 1] in chain;
      assert SameBlock(s.ar, t.ar, chain[|chain| - 1]);
    }
  }

  lemma DerivedSameIff(sch: SubsidySchedule, s: Database, t: Database, chain: seq<Hash>)
    requires Sound(sch) && Coherent(sch, s, chain) && Coherent(sch, t, chain) && Extends(s.ar, t.ar)
    requires GainedAtTip(s.ar, t.ar, chain)
    ensures SameDerived(s, t) <==> AllInvisible(s.ar, t.ar, s.coins)
  {
    hide ChainValid, AccountingOk, RollupOk, CacheCoherent, BucketsCoherent, CoinsOf, RowsOk, BlockRowOk, CoinsOk, GainedAtTip, AllInvisible, Backed;
    ExtendsSameChain(s.ar, t.ar, chain);
    OnlyCacheCanDiffer(sch, s, t, chain);
    BothBacked(s.ar, s.coins, {});
    SameCacheIff(s.addresses, t.addresses, s.ar, t.ar, chain);
  }

  // --- the inverse ---

  /** The run replayed the base tip only to name destinations that do not show. */
  ghost predicate NothingShows(db: Database, bs: seq<Block>) {
    forall i, op, a :: 0 <= i < |bs| && Gains(db, bs[i], op, a) ==> Invisible(db, op, a)
  }

  lemma NothingShowsIff(sch: SubsidySchedule, db: Database, chain: seq<Hash>, bs: seq<Block>, db1: Database)
    requires Sound(sch) && Coherent(sch, db, chain) && chain != [] && |db.buckets| == 8 && ApplyAll(sch, db, bs) == Ok(db1)
    ensures NothingShows(db, bs) <==> AllInvisible(db.ar, db1.ar, db.coins)
    ensures forall op :: Gained(db.ar, db1.ar, db.coins, op) ==> op.txid in TxIdsOf(db.ar, db.checkpoint.hash)
  {
    hide Coherent, ApplyAll, AddsNothing, Names, SliceOf, ActivityOf, TxIdsOf;
    forall i, op, a | 0 <= i < |bs| && Gains(db, bs[i], op, a)
      ensures Gained(db.ar, db1.ar, db.coins, op) && db1.ar.outAddrs[op] == a
    {
      RunGains(sch, db, chain, bs, db1, i, op, a);
    }
    forall op | Gained(db.ar, db1.ar, db.coins, op)
      ensures exists i :: 0 <= i < |bs| && Gains(db, bs[i], op, db1.ar.outAddrs[op])
      ensures op.txid in TxIdsOf(db.ar, db.checkpoint.hash)
    {
      RunGained(sch, db, chain, bs, db1, op);
    }
    if NothingShows(db, bs) {
      forall op | Gained(db.ar, db1.ar, db.coins, op)
        ensures AddsNothing(SliceOf(db.ar, db.coins, db1.ar.outAddrs[op]), op, ActivityOf(db.ar, op, db.coins[op]))
      {
        var i :| 0 <= i < |bs| && Gains(db, bs[i], op, db1.ar.outAddrs[op]);
        assert Invisible(db, op, db1.ar.outAddrs[op]);
      }
    }
  }

  lemma TipOfChain(sch: SubsidySchedule, db: Database, chain: seq<Hash>)
    requires Sound(sch) && Coherent(sch, db, chain) && chain != []
    ensures db.checkpoint.hash == chain[|chain| - 1] && db.coins == CoinsOf(db.ar, chain)
    ensures Linked(db.ar, chain) && ArchiveOk(db.ar)
  {
    hide ArchiveOk, ChainValid, CoinsOk, AccountingOk, RollupOk, CacheCoherent, BucketsCoherent, CoinsOf;
  }

  /** Applying any run of accepted blocks on a tip and rolling back to that tip is always
      possible, and the immutable tables only grow. Every derived table is restored if and
      only if each destination that a replay of the tip added to a coin is invisible: the
      coin is worth nothing, and its address already had the transactions that created
      and spent it. */
  lemma RollbackInverse(sch: SubsidySchedule, db: Database, chain: seq<Hash>, bs: seq<Block>, db1: Database)
    returns (db2: Database)
    requires Sound(sch) && Coherent(sch, db, chain) && PrefixesFit(db.ar, chain) && chain != []
    requires |db.buckets| == 8 && ApplyAll(sch, db, bs) == Ok(db1)
    ensures RollbackTo(db1, db.checkpoint.hash) == Ok(db2)
    ensures Extends(db.ar, db2.ar) && SubMap(db.accounting, db2.accounting) && SubMap(db.rollup, db2.rollup)
    ensures db.coins == db2.coins
    ensures SameDerived(db, db2) <==> NothingShows(db, bs)
    ensures SameDerived(db, db2) <==> db.addresses == db2.addresses
  {
    hide Coherent, ApplyAll, RollbackTo, PrefixesFit, NothingShows, AllInvisible, SameDerived, TxIdsOf, Linked, ArchiveOk, CoinsOf;
    var chain1 := RunOnBase(sch, db, chain, bs, db1);
    TipOfChain(sch, db, chain);
    TipOfChain(sch, db1, chain1);
    var n := |chain| - 1;
    assert chain1[n] == chain[n];
    RollbackAccepted(sch, db1, chain1, chain[n]);
    db2 := RollbackTo(db1, chain[n]).value;
    var k := RollbackCoherent(sch, db1, chain1, chain[n], db2);
    LinkedDistinct(db1.ar, chain1);
    assert k == n;
    assert chain1[..n + 1] == chain;
    NothingShowsIff(sch, db, chain, bs, db1);
    DerivedSameIff(sch, db, db2, chain);
    ExtendsSameChain(db.ar, db2.ar, chain);
    OnlyCacheCanDiffer(sch, db, db2, chain);
  }
}
