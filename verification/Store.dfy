/** The explorer's store: committed tables that only ApplyBlock and RollbackTo change,
    each inside one SQL transaction that commits completely or not at all. */
module Store {
  import opened Wrappers
  import opened Errors
  import opened Int64
  import opened Chain
  import opened Tables
  import opened Accounting
  import opened Cache
  import StoreSpec
  import opened Coherence
  import opened RollbackProof
  import opened ApplyProof
  import opened ApplyCoherence
  import opened StoreTx

  lemma StoredBalancesFit(sch: SubsidySchedule, db: Database, chain: seq<Hash>)
    requires Sound(sch) && Coherent(sch, db, chain)
    ensures BalancesFit(db.addresses) && |db.buckets| == 8
  {
    hide ArchiveOk, ChainOk, AccountingOk, RollupOk;
    forall a | a in db.addresses
      ensures InRange(db.addresses[a].balance)
    {
      assert RowCoherent(db.addresses, db.ar, db.coins, a);
    }
  }

  lemma HeightInChain(sch: SubsidySchedule, db: Database, chain: seq<Hash>, h: Hash)
    requires Sound(sch) && Coherent(sch, db, chain)
    ensures h in db.canonical <==> h in chain
    ensures forall i :: 0 <= i < |chain| ==> HeightOf(db.ar, chain[i]) == HeightOf(db.ar, chain[0]) + i
  {
    hide ArchiveOk, ChainValid, AccountingOk, RollupOk, CacheCoherent, Distribution.BucketsCoherent;
  }

  class Store {
    const schedule: SubsidySchedule
    var db: Database

    /** The canonical chain the committed tables stand for. */
    ghost var chain: seq<Hash>

    ghost predicate Valid()
      reads this
    {
      Sound(schedule) && Coherent(schedule, db, chain)
    }

    constructor (schedule: SubsidySchedule)
      requires Sound(schedule)
      ensures Valid() && this.schedule == schedule && db == StoreSpec.EMPTY && chain == []
    {
      this.schedule := schedule;
      db := StoreSpec.EMPTY;
      chain := [];
      new;
      EmptyIsCoherent(schedule);
    }

    method Tip() returns (tip: Checkpoint)
      requires Valid()
      ensures tip == db.checkpoint == TipOf(db.ar, chain)
    {
      hide ArchiveOk, ChainOk, Integrity.CoinsOk, AccountingOk, RollupOk;
      tip := db.checkpoint;
    }

    /** The canonical block at a height, if there is one: at most one can exist. */
    method CanonicalBlockHash(height: int64) returns (r: Option<Hash>)
      requires Valid()
      ensures r.Some? ==> r.value in chain && HeightOf(db.ar, r.value) == height
      ensures r.None? ==> forall h :: h in chain ==> HeightOf(db.ar, h) != height
      ensures forall i :: 0 <= i < |chain| && HeightOf(db.ar, chain[i]) == height ==> r == Some(chain[i])
    {
      hide Coherent;
      forall h
        ensures h in db.canonical <==> h in chain
      {
        HeightInChain(schedule, db, chain, h);
      }
      HeightInChain(schedule, db, chain, "");
      if h :| h in db.canonical && HeightOf(db.ar, h) == height {
        return Some(h);
      }
      return None;
    }

    /** BEGIN; ApplyBlock; COMMIT. Accepted, it extends the chain by the block or replays
        its tip; refused, nothing changes. Either way the store stays coherent. */
    method ApplyBlock(b: Block) returns (r: Result<(), Error>)
      requires Valid()
      modifies this
      ensures Valid() && |old(db).buckets| == 8
      ensures match StoreSpec.ApplyBlock(schedule, old(db), b)
              case Ok(next) => r == Ok(()) && db == next && chain == NextChain(old(chain), b)
              case Err(e) => r == Err(e) && db == old(db) && chain == old(chain)
      ensures Extends(old(db).ar, db.ar)
    {
      hide Coherent, StoreSpec.ApplyBlock, NextChain;
      StoredBalancesFit(schedule, db, chain);
      var tx := new Tx.Begin(db);
      r := tx.ApplyBlock(schedule, b);
      if r.Err? {
        return;
      }
      ApplyCoherent(schedule, db, chain, b, tx.View());
      db := tx.View();
      chain := NextChain(chain, b);
    }

    /** BEGIN; RollbackTo; COMMIT. Accepted, it cuts the chain off after the ancestor. */
    method RollbackTo(ancestor: Hash) returns (r: Result<(), Error>)
      requires Valid()
      modifies this
      ensures Valid() && |old(db).buckets| == 8
      ensures match StoreSpec.RollbackTo(old(db), ancestor)
              case Ok(next) =>
                && r == Ok(()) && db == next
                && chain != [] && chain <= old(chain) && chain[|chain| - 1] == ancestor
              case Err(e) => r == Err(e) && db == old(db) && chain == old(chain)
      ensures db.ar == old(db).ar && db.accounting == old(db).accounting && db.rollup == old(db).rollup
    {
      hide Coherent, StoreSpec.RollbackTo;
      StoredBalancesFit(schedule, db, chain);
      var tx := new Tx.Begin(db);
      r := tx.RollbackTo(ancestor);
      if r.Err? {
        return;
      }
      ghost var k := RollbackCoherent(schedule, db, chain, ancestor, tx.View());
      db := tx.View();
      chain := chain[..k + 1];
    }
  }
}
