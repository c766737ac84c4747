/** RollbackTo keeps the store invariant, and its result is the invariant of the
    surviving prefix: the inverse of having applied the removed blocks. */
module RollbackProof {
  import opened Wrappers
  import opened Chain
  import opened Tables
  import opened Accounting
  import opened Coins
  import opened Cache
  import opened Distribution
  import opened StoreSpec
  import opened Integrity
  import opened Coherence

  lemma OrphansAreSuffix(ar: Archive, chain: seq<Hash>, k: nat)
    requires Linked(ar, chain) && k < |chain|
    ensures Orphans(ar, Elems(chain), chain[k]) == Elems(chain[k + 1..])
    ensures Elems(chain) - Elems(chain[k + 1..]) == Elems(chain[..k + 1])
  {
    var orphans := Orphans(ar, Elems(chain), chain[k]);
    assert chain == chain[..k + 1] + chain[k + 1..];
    forall h | h in Elems(chain)
      ensures h in orphans <==> h in Elems(chain[k + 1..])
      ensures h in Elems(chain[..k + 1]) <==> h !in orphans
    {
      var i :| 0 <= i < |chain| && chain[i] == h;
      if i > k {
        assert chain[k + 1..][i - k - 1] == h;
      } else {
        assert chain[..k + 1][i] == h;
      }
      if h in Elems(chain[k + 1..]) {
        var j :| 0 <= j < |chain[k + 1..]| && chain[k + 1..][j] == h;
        assert chain[j + k + 1] == h;
      }
      if h in Elems(chain[..k + 1]) {
        var j :| 0 <= j < |chain[..k + 1]| && chain[..k + 1][j] == h;
        assert chain[j] == h;
      }
    }
  }

  lemma UndoCoinsOk(ar: Archive, c: CoinSet, orphans: set<Hash>)
    requires CoinsOk(ar, c)
    ensures CoinsOk(ar, Undo(c, orphans))
  {
    forall op | op in Undo(c, orphans)
      ensures CoinOk(ar, op, Undo(c, orphans)[op])
    {
      assert CoinOk(ar, op, c[op]);
    }
  }

  /** Only the owners of deleted or restored rows see their slice change. */
  lemma UndoTouches(ar: Archive, c: CoinSet, orphans: set<Hash>)
    ensures SlicesAgreeOff(ar, c, ar, Undo(c, orphans), RolledBackAddresses(ar, c, orphans))
  {
    var c' := Undo(c, orphans);
    forall a | a !in RolledBackAddresses(ar, c, orphans)
      ensures SliceOf(ar, c', a) == SliceOf(ar, c, a)
    {
      forall op
        ensures OwnsAlike(ar, c, ar, c', a, op)
      {
        if op in c && op in ar.outAddrs && ar.outAddrs[op] !in RolledBackAddresses(ar, c, orphans) {
          assert op in c' && c'[op] == c[op];
        }
      }
      SliceEqual(ar, c, ar, c', a);
    }
  }

  /** The committed tables, one by one. */
  ghost predicate RolledBack(db: Database, a: Hash, db': Database)
    requires |db.buckets| == 8
  {
    var orphans := Orphans(db.ar, db.canonical, a);
    var touched := RolledBackAddresses(db.ar, db.coins, orphans);
    && a in db.canonical && a in db.ar.blocks
    && db' == Database(db.ar, db.canonical - orphans, Undo(db.coins, orphans), db'.addresses, db'.buckets,
                       Checkpoint(HeightOf(db.ar, a), a), db.accounting, db.rollup, Checkpoint(HeightOf(db.ar, a), a))
    && RefreshChecked(db.addresses, db.ar, db'.coins, touched) == Ok(db'.addresses)
    && BucketsAfter(db.buckets, db.addresses, db'.addresses) == Ok(db'.buckets)
  }

  lemma RollbackShape(db: Database, a: Hash, db': Database)
    requires |db.buckets| == 8 && RollbackTo(db, a) == Ok(db')
    ensures RolledBack(db, a, db')
  {
  }

  lemma CacheAfterRollback(sch: SubsidySchedule, db: Database, chain: seq<Hash>, a: Hash, db': Database)
    requires Sound(sch) && Coherent(sch, db, chain) && RolledBack(db, a, db')
    ensures CacheCoherent(db'.addresses, db'.ar, db'.coins) && BucketsCoherent(db'.buckets, db'.addresses)
    ensures CoinsOk(db'.ar, db'.coins)
  {
    var orphans := Orphans(db.ar, db.canonical, a);
    UndoTouches(db.ar, db.coins, orphans);
    UndoCoinsOk(db.ar, db.coins, orphans);
    RefreshCoherent(db.addresses, db.ar, db.coins, db.ar, db'.coins, RolledBackAddresses(db.ar, db.coins, orphans));
    BucketsAfterIff(db.buckets, db.addresses, db'.addresses);
  }

  lemma DerivedAfterRollback(sch: SubsidySchedule, db: Database, chain: seq<Hash>, k: nat, db': Database)
    requires Sound(sch) && Coherent(sch, db, chain) && k < |chain| && RolledBack(db, chain[k], db')
    ensures DerivedOk(db', chain[..k + 1]) && CoinsOk(db'.ar, db'.coins)
  {
    CacheAfterRollback(sch, db, chain, chain[k], db');
    OrphansAreSuffix(db.ar, chain, k);
    LinkedDistinct(db.ar, chain);
    UndoIsPrefix(db.ar, chain, k + 1);
    assert chain[..k + 1][|chain[..k + 1]| - 1] == chain[k];
  }

  lemma RootKept(ar: Archive, chain: seq<Hash>, k: nat)
    requires k < |chain|
    ensures GenesisRooted(ar, chain[..k + 1]) == GenesisRooted(ar, chain)
  {
    assert chain[..k + 1][0] == chain[0];
  }

  lemma CoherentAfterRollback(sch: SubsidySchedule, db: Database, chain: seq<Hash>, k: nat, db': Database)
    requires Sound(sch) && Coherent(sch, db, chain) && k < |chain|
    requires db'.ar == db.ar && db'.accounting == db.accounting && db'.rollup == db.rollup
    requires DerivedOk(db', chain[..k + 1]) && CoinsOk(db'.ar, db'.coins)
    ensures Coherent(sch, db', chain[..k + 1])
  {
    hide ArchiveOk, ChainOk, CoinsOk, DerivedOk, AccountingOk, GenesisRooted;
    ChainOkPrefix(db.ar, chain, k + 1);
    RootKept(db.ar, chain, k);
  }

  lemma BucketCount(sch: SubsidySchedule, db: Database, chain: seq<Hash>)
    requires Sound(sch) && Coherent(sch, db, chain)
    ensures |db.buckets| == 8
  {
  }

  /** An accepted rollback names a canonical block and leaves exactly the prefix that
      ends there. The immutable tables, accounting and rollup are untouched. */
  lemma RollbackCoherent(sch: SubsidySchedule, db: Database, chain: seq<Hash>, a: Hash, db': Database) returns (k: nat)
    requires Sound(sch) && Coherent(sch, db, chain)
    requires RollbackTo(db, a) == Ok(db')
    ensures k < |chain| && chain[k] == a
    ensures Coherent(sch, db', chain[..k + 1])
    ensures db'.ar == db.ar && db'.accounting == db.accounting && db'.rollup == db.rollup
  {
    hide RollbackTo, RefreshChecked, BucketsAfter, CacheCoherent, BucketsCoherent, CoinsOf, Undo, Orphans, RolledBackAddresses;
    hide ArchiveOk, ChainOk, AccountingOk, RollupOk;
    BucketCount(sch, db, chain);
    RollbackShape(db, a, db');
    assert a in Elems(chain);
    k :| k < |chain| && chain[k] == a;
    DerivedAfterRollback(sch, db, chain, k, db');
    CoherentAfterRollback(sch, db, chain, k, db');
  }
}
