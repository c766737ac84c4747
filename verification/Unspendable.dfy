/** Which outputs have a coin, said of the stored scripts byte by byte. */
module Unspendable {
  import opened Chain
  import opened Tables
  import opened Accounting
  import opened Coins
  import opened StoreSpec
  import opened Integrity
  import opened Coherence
  import opened ApplyCoherence
  import opened Recovery
  import opened Lifecycle

  /** A canonical block above height 0 holds the output, and its script may be spent: it
      is at most 10000 bytes long and does not start with the byte 0x6a. */
  ghost predicate SpendableOutput(ar: Archive, chain: seq<Hash>, op: OutPoint) {
    && op.txid in ar.txs && op.vout < |ar.txs[op.txid].outputs|
    && var script := ar.txs[op.txid].outputs[op.vout].script;
    && |script| <= 10000 && (script == [] || script[0] != 0x6a)
    && exists h :: h in chain && h in ar.blocks && ar.blocks[h].height > 0 && h in ar.blockTxs && op.txid in ar.blockTxs[h]
  }

  lemma CoinIsSpendable(ar: Archive, chain: seq<Hash>, op: OutPoint)
    requires Tracked(ar, chain)
    ensures op in CoinsOf(ar, chain) ==> SpendableOutput(ar, chain, op)
  {
    hide ArchiveOk, CoinsOf, ChainValid;
    if op in CoinsOf(ar, chain) {
      CoinsAdmissible(ar, chain, op);
      assert CoinOk(ar, op, CoinsOf(ar, chain)[op]);
      assert chain[..|chain|] == chain;
      var m := CreatedAt(ar, chain, |chain|, op);
      CreationStays(ar, chain, m, op);
      CreationHeight(ar, chain, m, op);
    }
  }

  lemma SpendableIsCoin(ar: Archive, chain: seq<Hash>, op: OutPoint)
    requires Tracked(ar, chain) && SpendableOutput(ar, chain, op)
    ensures op in CoinsOf(ar, chain)
  {
    hide ArchiveOk, CoinsOk, CoinsOf, ChainOk;
    var h :| h in chain && h in ar.blocks && ar.blocks[h].height > 0 && h in ar.blockTxs && op.txid in ar.blockTxs[h];
    var n :| 0 <= n < |chain| && chain[n] == h;
    OutputIsCoin(ar, chain, n, op.txid, op.vout);
  }

  /** After any history, the coins are exactly the outputs of canonical blocks above
      height 0 whose scripts may be spent. */
  lemma CoinsInEveryHistory(sch: SubsidySchedule, ops: seq<Op>) returns (chain: seq<Hash>)
    requires Sound(sch)
    ensures var db := Run(sch, ops);
            && Coherent(sch, db, chain)
            && db.canonical == Elems(chain)
            && forall op :: op in db.coins <==> SpendableOutput(db.ar, chain, op)
  {
    hide Tracked, Run, Coherent, CoinsOf, SpendableOutput;
    chain := RunCoherent(sch, ops);
    var db := Run(sch, ops);
    CoherentIsTracked(sch, db, chain);
    forall op
      ensures op in db.coins <==> SpendableOutput(db.ar, chain, op)
    {
      CoinIsSpendable(db.ar, chain, op);
      if SpendableOutput(db.ar, chain, op) {
        SpendableIsCoin(db.ar, chain, op);
      }
    }
  }

  lemma CoherentIsTracked(sch: SubsidySchedule, db: Database, chain: seq<Hash>)
    requires Sound(sch) && Coherent(sch, db, chain)
    ensures Tracked(db.ar, chain) && db.coins == CoinsOf(db.ar, chain) && db.canonical == Elems(chain)
  {
    hide ArchiveOk, ChainOk, CoinsOk, AccountingOk, RollupOk, CoinsOf;
  }
}
