/** What each column of a stored address row says about the coins. */
module AddressRows {
  import opened Wrappers
  import opened Chain
  import opened Tables
  import opened Accounting
  import opened Coins
  import opened Sums
  import opened Cache
  import opened StoreSpec
  import opened Integrity
  import opened Coherence
  import opened ApplyCoherence
  import opened Recovery

  /** The coins whose stored destination is a. */
  ghost function CoinsTo(db: Database, a: Address): (mine: set<OutPoint>)
    ensures forall op :: op in mine <==> op in db.coins && op in db.ar.outAddrs && db.ar.outAddrs[op] == a
  {
    set op | op in db.coins && op in db.ar.outAddrs && db.ar.outAddrs[op] == a
  }

  /** The heights at which the coin was created and, if it was, spent. */
  ghost predicate SeenAt(db: Database, op: OutPoint, height: int) {
    && op in db.coins
    && (height == HeightOf(db.ar, db.coins[op].creation)
        || (db.coins[op].spend.Some? && height == HeightOf(db.ar, db.coins[op].spend.value.block)))
  }

  /** The transactions that created or spent one of these coins. */
  ghost function TouchingTxs(db: Database, mine: set<OutPoint>): set<TxId>
    requires forall op :: op in mine ==> op in db.coins
  {
    (set op | op in mine :: op.txid) + (set op | op in mine && db.coins[op].spend.Some? :: db.coins[op].spend.value.txid)
  }

  ghost predicate RowSays(db: Database, a: Address, row: AddressRow) {
    var mine := CoinsTo(db, a);
    && row.balance == Sum(map op | op in mine && db.coins[op].spend == None :: Value(db.ar, op))
    && row.sent == Sum(map op | op in mine && db.coins[op].spend != None :: Value(db.ar, op))
    && row.received == row.sent + row.balance
    && row.txCount == |TouchingTxs(db, mine)|
    && (forall op :: op in mine ==> row.firstSeen <= HeightOf(db.ar, db.coins[op].creation))
    && (forall op, height :: op in mine && SeenAt(db, op, height) ==> height <= row.lastSeen)
    && (exists op :: op in mine && row.firstSeen == HeightOf(db.ar, db.coins[op].creation))
    && (exists op :: op in mine && SeenAt(db, op, row.lastSeen))
  }

  /** What a BIGINT and an INT column can hold. */
  ghost predicate InColumns(row: AddressRow) {
    && 0 <= row.sent <= row.received <= 9_223_372_036_854_775_807
    && 0 <= row.balance <= row.received
    && 0 < row.txCount <= 2_147_483_647
  }

  lemma SliceKeys(db: Database, a: Address)
    ensures SliceOf(db.ar, db.coins, a).Keys == CoinsTo(db, a)
    ensures forall op :: op in CoinsTo(db, a) ==> SliceOf(db.ar, db.coins, a)[op] == ActivityOf(db.ar, op, db.coins[op])
  {
  }

  lemma SameHeld(db: Database, a: Address)
    ensures var mine := CoinsTo(db, a);
            Held(SliceOf(db.ar, db.coins, a)) == (map op | op in mine && db.coins[op].spend == None :: Value(db.ar, op))
  {
    hide SliceOf, CoinsTo;
    SliceKeys(db, a);
  }

  lemma SameSent(db: Database, a: Address)
    ensures var mine := CoinsTo(db, a);
            Sent(SliceOf(db.ar, db.coins, a)) == (map op | op in mine && db.coins[op].spend != None :: Value(db.ar, op))
  {
    hide SliceOf, CoinsTo;
    SliceKeys(db, a);
  }

  lemma SameTxs(db: Database, a: Address)
    ensures TxIdsIn(SliceOf(db.ar, db.coins, a)) == TouchingTxs(db, CoinsTo(db, a))
  {
    hide SliceOf, CoinsTo;
    SliceKeys(db, a);
    var s, mine := SliceOf(db.ar, db.coins, a), CoinsTo(db, a);
    forall x
      ensures x in TxIdsIn(s) <==> x in TouchingTxs(db, mine)
    {
    }
  }

  lemma SameHeights(db: Database, a: Address, op: OutPoint, height: int)
    ensures var s := SliceOf(db.ar, db.coins, a);
            && (op in s <==> op in CoinsTo(db, a))
            && (op in s ==> s[op].created == HeightOf(db.ar, db.coins[op].creation))
            && (SeenIn(s, op, height) <==> op in CoinsTo(db, a) && SeenAt(db, op, height))
  {
    hide SliceOf, CoinsTo, HeightOf;
    SliceKeys(db, a);
  }

  lemma HeightsInTables(db: Database, a: Address, row: AddressRow)
    requires SliceSays(SliceOf(db.ar, db.coins, a), row)
    ensures var mine := CoinsTo(db, a);
            && (forall op :: op in mine ==> row.firstSeen <= HeightOf(db.ar, db.coins[op].creation))
            && (forall op, height :: op in mine && SeenAt(db, op, height) ==> height <= row.lastSeen)
            && (exists op :: op in mine && row.firstSeen == HeightOf(db.ar, db.coins[op].creation))
            && (exists op :: op in mine && SeenAt(db, op, row.lastSeen))
  {
    hide SliceOf, CoinsTo, HeightOf, SeenIn, SeenAt, Sum;
    var s, mine := SliceOf(db.ar, db.coins, a), CoinsTo(db, a);
    forall op | op in mine
      ensures row.firstSeen <= HeightOf(db.ar, db.coins[op].creation)
    {
      SameHeights(db, a, op, 0);
    }
    forall op, height | op in mine && SeenAt(db, op, height)
      ensures height <= row.lastSeen
    {
      SameHeights(db, a, op, height);
    }
    var first :| first in s && s[first].created == row.firstSeen;
    SameHeights(db, a, first, 0);
    var last :| SeenIn(s, last, row.lastSeen);
    SameHeights(db, a, last, row.lastSeen);
  }

  lemma SummaryInTables(db: Database, a: Address)
    requires SliceOf(db.ar, db.coins, a) != map[]
    ensures RowSays(db, a, Summary(SliceOf(db.ar, db.coins, a)))
  {
    hide SliceOf, CoinsTo, Sum, SliceSays, TouchingTxs, SeenAt, HeightOf, CreatedHeights, LastHeights;
    var s := SliceOf(db.ar, db.coins, a);
    SameHeld(db, a);
    SameSent(db, a);
    SameTxs(db, a);
    SummarySays(s);
    ReceivedSplits(s);
    HeightsInTables(db, a, Summary(s));
  }

  /** After any history, an address has a row exactly if some coin is destined to it; and
      then balance is the value of its unspent coins, sent that of its spent ones, received
      the sum of both; the transactions are those that created or spent its coins; and the
      two heights are the first creation and the last creation or spending. */
  lemma RowsInEveryHistory(sch: SubsidySchedule, ops: seq<Op>, a: Address)
    requires Sound(sch)
    ensures var db := Run(sch, ops);
            && (a in db.addresses <==> exists op :: op in db.coins && op in db.ar.outAddrs && db.ar.outAddrs[op] == a)
            && (a in db.addresses ==> RowSays(db, a, db.addresses[a]) && InColumns(db.addresses[a]))
  {
    hide Run, Coherent, SliceOf, Summary, RowSays, ArchiveOk, CoinsOk, FitsColumns, InColumns;
    var db := Run(sch, ops);
    var chain := RunCoherent(sch, ops);
    StoredRowIs(sch, db, chain, a);
    SliceKeys(db, a);
    if SliceOf(db.ar, db.coins, a) != map[] {
      var op :| op in SliceOf(db.ar, db.coins, a).Keys;
      assert op in CoinsTo(db, a);
      SummaryInTables(db, a);
      RowInColumns(db.ar, db.coins, a);
    } else {
      forall op | op in db.coins && op in db.ar.outAddrs
        ensures db.ar.outAddrs[op] != a
      {
        assert op in CoinsTo(db, a) ==> op in SliceOf(db.ar, db.coins, a).Keys;
      }
    }
  }

  lemma StoredRowIs(sch: SubsidySchedule, db: Database, chain: seq<Hash>, a: Address)
    requires Sound(sch) && Coherent(sch, db, chain)
    ensures a in db.addresses <==> SliceOf(db.ar, db.coins, a) != map[]
    ensures a in db.addresses ==> db.addresses[a] == Summary(SliceOf(db.ar, db.coins, a)) && FitsColumns(db.addresses[a])
    ensures ArchiveOk(db.ar) && CoinsOk(db.ar, db.coins)
  {
    hide ArchiveOk, ChainOk, CoinsOk, AccountingOk, RollupOk, SliceOf, Summary;
    assert RowCoherent(db.addresses, db.ar, db.coins, a);
  }

  lemma RowInColumns(ar: Archive, c: CoinSet, a: Address)
    requires ArchiveOk(ar) && CoinsOk(ar, c) && SliceOf(ar, c, a) != map[] && FitsColumns(Summary(SliceOf(ar, c, a)))
    ensures InColumns(Summary(SliceOf(ar, c, a)))
  {
    var s := SliceOf(ar, c, a);
    CoinsBacked(ar, c);
    SliceValues(ar, c, a);
    TotalsNonNegative(s);
    SomeTransaction(s);
  }

  lemma SomeTransaction(s: Slice)
    requires s != map[]
    ensures |TxIdsIn(s)| > 0
  {
    var op :| op in s;
    assert op.txid in TxIdsIn(s);
  }
}
