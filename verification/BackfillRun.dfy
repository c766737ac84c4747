/** The backfill commands, run against the tables (internal/store/backfill.go and
    supply_rollup_backfill.go). */
module BackfillRun {
  import opened Wrappers
  import opened Errors
  import opened Int64
  import opened Chain
  import opened Text
  import opened Tables
  import opened Accounting
  import opened TxFacts
  import opened StoreSpec
  import opened Coherence
  import opened Backfill
  import opened RollupBackfill

  datatype AccountingSummary = AccountingSummary(totalBlocks: nat, inserted: nat, verified: nat)

  /** Every stored block's reconstruction succeeds and agrees with a row already there. */
  ghost predicate Reconstructible(sch: SubsidySchedule, db: Database)
    requires Sound(sch)
  {
    forall h :: h in db.ar.blocks ==> ReconstructibleAt(sch, db, h)
  }

  ghost predicate ReconstructibleAt(sch: SubsidySchedule, db: Database, h: Hash)
    requires Sound(sch)
  {
    StoredFacts(sch, db.ar, h).Ok? && (h in db.accounting ==> db.accounting[h] == StoredFacts(sch, db.ar, h).value)
  }

  /** The accounting row of h is the reconstructed one. */
  ghost predicate Reconstructed(sch: SubsidySchedule, ar: Archive, accounting: map<Hash, BlockFacts>, h: Hash)
    requires Sound(sch)
  {
    h in accounting && StoredFacts(sch, ar, h) == Ok(accounting[h])
  }

  /** A coherent store that lost accounting rows is reconstructible, to the very rows it
      had: a repeated run finds nothing to insert and nothing to contradict. */
  lemma CoherentReconstructs(sch: SubsidySchedule, db: Database, damaged: Database, result: map<Hash, BlockFacts>)
    requires Sound(sch) && ArchiveOk(db.ar) && AccountingOk(sch, db.ar, db.accounting)
    requires damaged == db.(accounting := damaged.accounting) && SubMap(damaged.accounting, db.accounting)
    ensures Reconstructible(sch, damaged)
    ensures result.Keys == db.ar.blocks.Keys && (forall h :: h in db.ar.blocks ==> Reconstructed(sch, db.ar, result, h)) ==>
              result == db.accounting
  {
    hide ArchiveOk, StoredFacts, FactsMatch;
    forall h | h in db.ar.blocks
      ensures StoredFacts(sch, db.ar, h) == Ok(db.accounting[h])
    {
      AccountingBatchIsLive(sch, db.ar, h, db.accounting[h]);
    }
    if result.Keys == db.ar.blocks.Keys && forall h :: h in db.ar.blocks ==> Reconstructed(sch, db.ar, result, h) {
      forall h | h in result
        ensures result[h] == db.accounting[h]
      {
        assert Reconstructed(sch, db.ar, result, h);
      }
    }
  }

  class Backfiller {
    const schedule: SubsidySchedule
    var db: Database

    constructor (schedule: SubsidySchedule, db: Database)
      ensures this.schedule == schedule && this.db == db
    {
      this.schedule, this.db := schedule, db;
    }

    /** SUM(value_satoshis) over a transaction's outputs. */
    static method SumOutputs(outs: seq<OutBody>) returns (total: int)
      ensures total == OutputTotal(outs, |outs|)
    {
      total := 0;
      for v := 0 to |outs|
        invariant total == OutputTotal(outs, v)
      {
        total := total + outs[v].value;
      }
    }

    /** count(*), count(fee_satoshis) and SUM(fee_satoshis) over non-coinbase occurrences. */
    method SumFees(h: Hash) returns (known: bool, total: int)
      ensures known <==> !FeeUnknown(db.ar, h, |TxIdsOf(db.ar, h)|)
      ensures total == FeeSum(db.ar, h, |TxIdsOf(db.ar, h)|)
    {
      total := 0;
      var count, withFee := 0, 0;
      for i := 0 to |TxIdsOf(db.ar, h)|
        invariant total == FeeSum(db.ar, h, i)
        invariant 0 <= withFee <= count && (withFee == count <==> !FeeUnknown(db.ar, h, i))
      {
        var row := RowAt(db.ar, h, i);
        if row.Some? && !row.value.isCoinbase {
          count := count + 1;
          if row.value.fee.Some? {
            withFee := withFee + 1;
            total := total + row.value.fee.value;
          }
        }
      }
      known := withFee == count;
    }

    /** One block, from its own occurrences only. */
    method BackfillBlockAccounting(h: Hash) returns (r: Result<bool, Error>)
      requires Sound(schedule)
      modifies this
      ensures match StoredFacts(schedule, old(db).ar, h)
              case Err(e) => r == Err(e) && db == old(db)
              case Ok(facts) =>
                match InsertOrVerify(old(db).accounting, h, facts)
                case Err(e) => r == Err(e) && db == old(db)
                case Ok(rows) => r == Ok(h !in old(db).accounting) && db == old(db).(accounting := rows)
    {
      if h !in db.ar.blocks {
        return Err(NoSuchBlock);
      }
      var first := RowAt(db.ar, h, 0);
      if first.None? || !first.value.isCoinbase {
        return Err(MalformedOccurrence);
      }
      var coinbase := SumOutputs(first.value.outputs);
      if |first.value.outputs| == 0 {
        return Err(IncompleteAccountingSource);
      }
      if !InRange(coinbase) {
        return Err(AmountOverflow);
      }
      var known, fees := SumFees(h);
      if !known {
        return Err(IncompleteAccountingSource);
      }
      if !InRange(fees) {
        return Err(AmountOverflow);
      }
      var facts := ComputeBlockFacts(schedule, db.ar.blocks[h].height, fees, coinbase);
      if facts.Err? {
        return Err(facts.error);
      }
      if h in db.accounting {
        if db.accounting[h] != facts.value {
          return Err(ImmutableConflict);
        }
        return Ok(false);
      }
      db := db.(accounting := db.accounting[h := facts.value]);
      return Ok(true);
    }

    /** One round of the run that has handled the blocks of `done` so far. */
    method BackfillNext(h: Hash, ghost db0: Database, ghost done: set<Hash>) returns (r: Result<bool, Error>)
      requires Sound(schedule) && Progress(schedule, db0, db, done) && h in db0.ar.blocks && h !in done
      modifies this
      ensures r.Err? ==> Progress(schedule, db0, db, done) && Fails(schedule, db0, h, r.error)
      ensures r.Ok? ==> Progress(schedule, db0, db, done + {h}) && r.value == (h !in db0.accounting)
    {
      hide StoredFacts, Progress, InsertOrVerify, Fails;
      ghost var before := db;
      ProgressTables(schedule, db0, db, done);
      r := BackfillBlockAccounting(h);
      if r.Err? {
        ProgressStops(schedule, db0, before, done, h, r.error);
      } else {
        ProgressStep(schedule, db0, before, done, h, db);
      }
    }

    /** Every stored block, canonical or orphaned, ORDER BY height, hash. A failing block
        ends the loop; the rows and counts of the blocks before it stand. */
    method BackfillAccounting() returns (counts: AccountingSummary, error: Option<Error>)
      requires Sound(schedule)
      modifies this
      ensures db == old(db).(accounting := db.accounting) && SubMap(old(db).accounting, db.accounting)
      ensures error.None? <==> Reconstructible(schedule, old(db))
      ensures error.None? ==>
                && counts == Tally(db.ar.blocks.Keys, old(db).accounting.Keys)
                && db.accounting.Keys == old(db).accounting.Keys + db.ar.blocks.Keys
                && forall h :: h in db.ar.blocks ==> Reconstructed(schedule, db.ar, db.accounting, h)
      ensures error.Some? ==> exists h :: StoppedAt(schedule, old(db), db, counts, error.value, h)
    {
      hide StoredFacts, Progress, Reconstructible, Reconstructed, Tally, SubMap, Earlier, StoppedAt, Fails;
      ghost var db0, all := db, db.ar.blocks.Keys;
      var total, inserted, verified := 0, 0, 0;
      var rest := db.ar.blocks.Keys;
      TallyNothing(db.accounting.Keys);
      ProgressStarts(schedule, db);
      Remaining(all, all, {});
      while rest != {}
        invariant rest <= all
        invariant Progress(schedule, db0, db, all - rest)
        invariant forall g, h :: g in all - rest && h in rest ==> Earlier(db0.ar, g, h)
        invariant AccountingSummary(total, inserted, verified) == Tally(all - rest, db0.accounting.Keys)
        decreases rest
      {
        ProgressTables(schedule, db0, db, all - rest);
        var h := Earliest(db.ar, rest);
        var isNew := BackfillNext(h, db0, all - rest);
        if isNew.Err? {
          ProgressTables(schedule, db0, db, all - rest);
          EarlierThan(db0.ar, rest, h);
          StopsAt(schedule, db0, db, AccountingSummary(total, inserted, verified), isNew.error, h);
          return AccountingSummary(total, inserted, verified), Some(isNew.error);
        }
        TallyNext(all - rest, db0.accounting.Keys, h);
        Remaining(all, rest, {h});
        total := total + 1;
        if isNew.value {
          inserted := inserted + 1;
        } else {
          verified := verified + 1;
        }
        rest := rest - {h};
      }
      Remaining(all, {}, {});
      ProgressTables(schedule, db0, db, all);
      ProgressEnds(schedule, db0, db);
      return AccountingSummary(total, inserted, verified), None;
    }
  }

  // --- ORDER BY height, hash ---

  predicate Earlier(ar: Archive, g: Hash, h: Hash) {
    HeightOf(ar, g) < HeightOf(ar, h) || (HeightOf(ar, g) == HeightOf(ar, h) && TextBelow(g, h))
  }

  lemma EarlierTotal(ar: Archive, g: Hash, h: Hash)
    ensures g == h || Earlier(ar, g, h) || Earlier(ar, h, g)
    ensures !(Earlier(ar, g, h) && Earlier(ar, h, g))
  {
    TextTotal(g, h);
  }

  lemma EarlierTransitive(ar: Archive, f: Hash, g: Hash, h: Hash)
    requires Earlier(ar, f, g) && Earlier(ar, g, h)
    ensures Earlier(ar, f, h)
  {
    if HeightOf(ar, f) == HeightOf(ar, h) {
      TextTransitive(f, g, h);
    }
  }

  predicate IsEarliest(ar: Archive, s: set<Hash>, h: Hash) {
    h in s && forall g :: g in s ==> g == h || Earlier(ar, h, g)
  }

  lemma {:induction false} EarliestExists(ar: Archive, s: set<Hash>)
    requires s != {}
    ensures exists h :: IsEarliest(ar, s, h)
    decreases |s|
  {
    hide Earlier;
    var f :| f in s;
    if s == {f} {
      assert IsEarliest(ar, s, f);
    } else {
      assert s - {f} != {};
      EarliestExists(ar, s - {f});
      var m :| IsEarliest(ar, s - {f}, m);
      EarlierTotal(ar, f, m);
      if Earlier(ar, m, f) {
        assert IsEarliest(ar, s, m);
      } else {
        forall g | g in s
          ensures g == f || Earlier(ar, f, g)
        {
          if g != f && g != m {
            EarlierTransitive(ar, f, m, g);
          }
        }
        assert IsEarliest(ar, s, f);
      }
    }
  }

  lemma OneEarliest(ar: Archive, s: set<Hash>)
    ensures forall g, h :: IsEarliest(ar, s, g) && IsEarliest(ar, s, h) ==> g == h
  {
    hide Earlier;
    forall g, h | IsEarliest(ar, s, g) && IsEarliest(ar, s, h)
      ensures g == h
    {
      EarlierTotal(ar, g, h);
    }
  }

  function Earliest(ar: Archive, s: set<Hash>): (h: Hash)
    requires s != {}
    ensures IsEarliest(ar, s, h)
  {
    EarliestExists(ar, s);
    OneEarliest(ar, s);
    var h :| h in s && IsEarliest(ar, s, h);
    h
  }

  /** The blocks the loop handles before h. */
  function BlocksBefore(ar: Archive, h: Hash): set<Hash> {
    set g | g in ar.blocks && Earlier(ar, g, h)
  }

  lemma EarlierThan(ar: Archive, rest: set<Hash>, h: Hash)
    requires rest <= ar.blocks.Keys && IsEarliest(ar, rest, h)
    requires forall g :: g in ar.blocks.Keys - rest ==> Earlier(ar, g, h)
    ensures BlocksBefore(ar, h) == ar.blocks.Keys - rest
  {
    hide Earlier;
    forall g | g in rest
      ensures !Earlier(ar, g, h)
    {
      EarlierTotal(ar, g, h);
    }
  }

  // --- where a run stops ---

  /** h cannot be reconstructed, or contradicts the row it has. */
  ghost predicate Fails(sch: SubsidySchedule, db: Database, h: Hash, e: Error)
    requires Sound(sch)
  {
    match StoredFacts(sch, db.ar, h)
    case Err(f) => e == f
    case Ok(facts) => h in db.accounting && db.accounting[h] != facts && e == ImmutableConflict
  }

  /** h is the first block that fails; everything before it was filled in and counted. */
  ghost predicate StoppedAt(sch: SubsidySchedule, db0: Database, db: Database, counts: AccountingSummary, e: Error, h: Hash)
    requires Sound(sch)
  {
    var done := BlocksBefore(db0.ar, h);
    && h in db0.ar.blocks && Fails(sch, db0, h, e)
    && counts == Tally(done, db0.accounting.Keys)
    && db.accounting.Keys == db0.accounting.Keys + done
    && forall g :: g in done ==> ReconstructibleAt(sch, db0, g) && Reconstructed(sch, db0.ar, db.accounting, g)
  }

  lemma StopsAt(sch: SubsidySchedule, db0: Database, db: Database, counts: AccountingSummary, e: Error, h: Hash)
    requires Sound(sch) && Progress(sch, db0, db, BlocksBefore(db0.ar, h)) && h in db0.ar.blocks && Fails(sch, db0, h, e)
    requires counts == Tally(BlocksBefore(db0.ar, h), db0.accounting.Keys)
    ensures StoppedAt(sch, db0, db, counts, e, h) && !Reconstructible(sch, db0)
  {
    hide StoredFacts, BlocksBefore, Reconstructed, Tally;
    assert !ReconstructibleAt(sch, db0, h);
    forall g | g in BlocksBefore(db0.ar, h)
      ensures ReconstructibleAt(sch, db0, g) && Reconstructed(sch, db0.ar, db.accounting, g)
    {
      assert Done(sch, db0, db.accounting, g);
    }
  }

  lemma Remaining(all: set<Hash>, rest: set<Hash>, out: set<Hash>)
    requires out <= rest <= all
    ensures all - (rest - out) == all - rest + out
    ensures rest == all && out == {} ==> all - rest == {}
    ensures rest == {} ==> all - rest == all
  {
  }

  lemma ProgressTables(sch: SubsidySchedule, db0: Database, db: Database, done: set<Hash>)
    requires Sound(sch) && Progress(sch, db0, db, done)
    ensures db == db0.(accounting := db.accounting) && SubMap(db0.accounting, db.accounting)
    ensures db.ar == db0.ar
  {
  }

  /** How many of these blocks had no row, and how many had one. */
  function Tally(blocks: set<Hash>, before: set<Hash>): AccountingSummary {
    AccountingSummary(|blocks|, |blocks - before|, |blocks * before|)
  }

  lemma TallyNothing(before: set<Hash>)
    ensures Tally({}, before) == AccountingSummary(0, 0, 0)
  {
    var none: set<Hash> := {};
    assert none - before == {} && none * before == {};
  }

  lemma TallyNext(blocks: set<Hash>, before: set<Hash>, h: Hash)
    requires h !in blocks
    ensures var t := Tally(blocks, before);
            Tally(blocks + {h}, before)
            == AccountingSummary(t.totalBlocks + 1, t.inserted + (if h in before then 0 else 1), t.verified + (if h in before then 1 else 0))
  {
    if h in before {
      assert blocks + {h} - before == blocks - before;
      assert (blocks + {h}) * before == blocks * before + {h};
    } else {
      assert blocks + {h} - before == blocks - before + {h};
      assert (blocks + {h}) * before == blocks * before;
    }
  }

  /** After the blocks of `done`: all were reconstructed, and only missing rows came. */
  ghost predicate Progress(sch: SubsidySchedule, db0: Database, db: Database, done: set<Hash>)
    requires Sound(sch)
  {
    && db == db0.(accounting := db.accounting) && SubMap(db0.accounting, db.accounting)
    && db.accounting.Keys == db0.accounting.Keys + done
    && forall h :: h in done ==> Done(sch, db0, db.accounting, h)
  }

  ghost predicate Done(sch: SubsidySchedule, db0: Database, accounting: map<Hash, BlockFacts>, h: Hash)
    requires Sound(sch)
  {
    ReconstructibleAt(sch, db0, h) && Reconstructed(sch, db0.ar, accounting, h)
  }

  lemma ProgressStarts(sch: SubsidySchedule, db: Database)
    requires Sound(sch)
    ensures Progress(sch, db, db, {})
  {
  }

  lemma ProgressStops(sch: SubsidySchedule, db0: Database, db: Database, done: set<Hash>, h: Hash, e: Error)
    requires Sound(sch) && Progress(sch, db0, db, done) && h in db0.ar.blocks && h !in done
    requires match StoredFacts(sch, db.ar, h)
             case Err(f) => e == f
             case Ok(facts) => InsertOrVerify(db.accounting, h, facts) == Err(e)
    ensures Fails(sch, db0, h, e)
  {
    hide StoredFacts, Reconstructed, Done;
    assert h in db.accounting ==> h in db0.accounting.Keys + done;
  }

  lemma ProgressStep(sch: SubsidySchedule, db0: Database, db: Database, done: set<Hash>, h: Hash, db': Database)
    requires Sound(sch) && Progress(sch, db0, db, done) && h !in done
    requires StoredFacts(sch, db.ar, h).Ok? && InsertOrVerify(db.accounting, h, StoredFacts(sch, db.ar, h).value).Ok?
    requires db' == db.(accounting := InsertOrVerify(db.accounting, h, StoredFacts(sch, db.ar, h).value).value)
    ensures Progress(sch, db0, db', done + {h})
    ensures h in db.accounting <==> h in db0.accounting
  {
    hide StoredFacts, Done;
    StepDone(sch, db0, db, done, h, db');
  }

  lemma StepDone(sch: SubsidySchedule, db0: Database, db: Database, done: set<Hash>, h: Hash, db': Database)
    requires Sound(sch) && Progress(sch, db0, db, done) && h !in done
    requires StoredFacts(sch, db.ar, h).Ok? && InsertOrVerify(db.accounting, h, StoredFacts(sch, db.ar, h).value).Ok?
    requires db' == db.(accounting := InsertOrVerify(db.accounting, h, StoredFacts(sch, db.ar, h).value).value)
    ensures forall g :: g in done + {h} ==> Done(sch, db0, db'.accounting, g)
  {
    hide StoredFacts;
    forall g | g in done + {h}
      ensures Done(sch, db0, db'.accounting, g)
    {
      if g in done {
        assert Done(sch, db0, db.accounting, g);
      }
    }
  }

  lemma ProgressEnds(sch: SubsidySchedule, db0: Database, db: Database)
    requires Sound(sch) && Progress(sch, db0, db, db0.ar.blocks.Keys)
    ensures Reconstructible(sch, db0) && SubMap(db0.accounting, db.accounting)
    ensures db.accounting.Keys == db0.accounting.Keys + db.ar.blocks.Keys
    ensures forall h :: h in db.ar.blocks ==> Reconstructed(sch, db.ar, db.accounting, h)
  {
    hide StoredFacts;
    forall h | h in db.ar.blocks
      ensures ReconstructibleAt(sch, db0, h) && Reconstructed(sch, db.ar, db.accounting, h)
    {
      assert Done(sch, db0, db.accounting, h);
    }
  }
}
