/** The main results, stated for every state that any history of calls can reach. */
module Histories {
  import opened Wrappers
  import opened Errors
  import opened Int64
  import opened Chain
  import opened Tables
  import opened Accounting
  import opened Distribution
  import opened StoreSpec
  import opened Integrity
  import opened Coherence
  import opened ApplyProof
  import opened ApplyCoherence
  import opened Conservation
  import opened Respending
  import opened Supply
  import opened Determined
  import opened Prefixes
  import opened Recovery
  import opened Inverse
  import opened InternalErrors

  /** What the rollup's tip row says about the coins, on a chain counted from height 0. */
  ghost predicate SupplyAccounted(sch: SubsidySchedule, db: Database, chain: seq<Hash>)
    requires Sound(sch)
  {
    var tip, respent := db.checkpoint.hash, Residue(db.ar, chain);
    && tip in db.rollup
    && Unspent(db.ar, db.coins) == db.rollup[tip].utxoValue + respent
    && respent >= 0
    && (respent == 0 <==> !exists n: nat, j: nat, x :: j < |chain| && RepeatsValue(db.ar, chain, n, j, x))
    && (respent == 0 ==> 0 <= Unspent(db.ar, db.coins) <= SubsidySum(sch, |chain|) < 0x8000_0000_0000_0000)
  }

  lemma SupplyIsAccounted(sch: SubsidySchedule, db: Database, chain: seq<Hash>)
    requires Sound(sch) && Coherent(sch, db, chain) && GenesisRooted(db.ar, chain)
    ensures SupplyAccounted(sch, db, chain)
  {
    hide Residue, Unspent, RepeatsValue, ArchiveOk, ChainOk, CoinsOk, AccountingOk, RollupOk;
    SupplyConservation(sch, db, chain);
    ResidueZeroIff(db.ar, chain, |chain|);
    assert chain[..|chain|] == chain;
    if Residue(db.ar, chain) == 0 {
      UnspentBelowSchedule(sch, db, chain);
    }
  }

  /** After any history, the counted coins are the derived supply plus what was re-spent;
      nothing was re-spent unless some transaction of value occurs in two canonical
      blocks; and then the supply is within the schedule. */
  lemma SupplyInEveryHistory(sch: SubsidySchedule, ops: seq<Op>) returns (chain: seq<Hash>)
    requires Sound(sch)
    ensures Coherent(sch, Run(sch, ops), chain)
    ensures GenesisRooted(Run(sch, ops).ar, chain) ==> SupplyAccounted(sch, Run(sch, ops), chain)
  {
    hide Coherent, SupplyAccounted, Run;
    chain := RunCoherent(sch, ops);
    if GenesisRooted(Run(sch, ops).ar, chain) {
      SupplyIsAccounted(sch, Run(sch, ops), chain);
    }
  }

  /** After any history that starts at height 0, every bucket is the exact histogram of
      all positive balances, although no bucket was ever counted. */
  lemma BucketsInEveryHistory(sch: SubsidySchedule, ops: seq<Op>) returns (chain: seq<Hash>)
    requires Sound(sch)
    ensures var db := Run(sch, ops);
            && Coherent(sch, db, chain)
            && (GenesisRooted(db.ar, chain) ==>
                  forall i :: 0 <= i < 8 ==>
                    db.buckets[i].count == HistCount(db.addresses, i) && db.buckets[i].balance == HistBalance(db.addresses, i))
  {
    hide Coherent, HistCount, HistBalance, Run;
    chain := RunCoherent(sch, ops);
    if GenesisRooted(Run(sch, ops).ar, chain) {
      BucketsAreExact(sch, Run(sch, ops), chain);
    }
  }

  /** After any history, exactly the canonical blocks can be rolled back to. */
  lemma RollbackInEveryHistory(sch: SubsidySchedule, ops: seq<Op>, a: Hash) returns (chain: seq<Hash>)
    requires Sound(sch)
    ensures var db := Run(sch, ops);
            && Coherent(sch, db, chain)
            && (RollbackTo(db, a).Ok? <==> a in chain)
            && (RollbackTo(db, a).Err? ==> RollbackTo(db, a).error == AncestorNotFound)
  {
    hide Coherent, PrefixesFit, RollbackTo, Run;
    chain := RunFits(sch, ops);
    RollbackAccepted(sch, Run(sch, ops), chain, a);
  }

  /** After any history, a further run of accepted blocks can be rolled back, and that
      restores every derived table if and only if the run, where it replayed the old tip,
      named no destination that shows. */
  lemma InverseInEveryHistory(sch: SubsidySchedule, ops: seq<Op>, bs: seq<Block>, db1: Database)
    returns (chain: seq<Hash>, db2: Database)
    requires Sound(sch) && ApplyAll(sch, Run(sch, ops), bs) == Ok(db1)
    ensures var db := Run(sch, ops);
            && Coherent(sch, db, chain)
            && (chain != [] ==>
                  RollbackTo(db1, db.checkpoint.hash) == Ok(db2) && (SameDerived(db, db2) <==> NothingShows(db, bs)))
  {
    hide Coherent, PrefixesFit, RollbackTo, Run, ApplyAll, SameDerived, NothingShows;
    chain := RunFits(sch, ops);
    db2 := db1;
    if chain != [] {
      db2 := RollbackInverse(sch, Run(sch, ops), chain, bs, db1);
    }
  }

  /** After any history, whatever block is offered, the error for a missing parent row
      does not occur, and the two other invariant errors occur exactly as said of coherent
      stores; so the one needs re-spent value, the other more than an int64 holds. */
  lemma InvariantErrorsInEveryHistory(sch: SubsidySchedule, ops: seq<Op>, b: Block) returns (chain: seq<Hash>)
    requires Sound(sch)
    ensures var db := Run(sch, ops);
            && Coherent(sch, db, chain)
            && ApplyBlock(sch, db, b) != Err(RollupParentMissing)
            && (ApplyBlock(sch, db, b) == Err(DistributionInvariant)
                <==> exists lp, m :: AtBuckets(db, b, lp, m) && SomeBucketNegative(m))
            && (ApplyBlock(sch, db, b) == Err(RollupInvariant)
                <==> exists lp, m, facts ::
                       AtRollup(sch, db, b, lp, m, facts) && RollupFits(db, b, facts) && RespentMore(db, chain, b, lp))
            && (ApplyBlock(sch, db, b) == Err(RollupInvariant) ==> Residue(TablesAfterLoop(db, b), NextChain(chain, b)) > 0)
            && (ApplyBlock(sch, db, b) == Err(DistributionInvariant) ==>
                  Unspent(TablesAfterLoop(db, b), CoinsAfterLoop(db, b)) > MAX_INT64)
  {
    hide Coherent, ApplyBlock, Run, TablesAfterLoop, CoinsAfterLoop, FeesAfterLoop, Residue, Unspent, NextChain, Rooted, FactsOfBlock;
    hide AtBuckets, AtRollup, RollupFits, RespentMore, SomeBucketNegative;
    chain := RunCoherent(sch, ops);
    InvariantErrors(sch, Run(sch, ops), chain, b);
    InvariantErrorsIff(sch, Run(sch, ops), chain, b);
  }
}
