/** The set-based supply rollup backfill as a function of the stored tables, and its
    agreement with the rows the live path wrote one block at a time. */
module RollupBackfill {
  import opened Wrappers
  import opened Errors
  import opened Int64
  import opened Sums
  import opened Chain
  import opened Tables
  import opened Accounting
  import opened Coins
  import opened StoreSpec
  import opened Integrity
  import opened Coherence
  import Cache
  import Distribution
  import opened Conservation
  import opened Backfill

  /** One supply_rollup_staging row; SUM over BIGINT is NUMERIC and has no range. */
  datatype Staged = Staged(
    excluded: int, subsidy: int, fee: int, coinbase: int, unclaimed: int, cumExcluded: int, utxoValue: int)

  const NOTHING := Staged(0, 0, 0, 0, 0, 0, 0)

  function FactsAt(accounting: map<Hash, BlockFacts>, h: Hash): BlockFacts {
    if h in accounting then accounting[h] else BlockFacts(0, 0, 0, 0)
  }

  /** The next row of SUM(...) OVER (ORDER BY height). */
  function NextStaged(p: Staged, facts: BlockFacts, excluded: int): Staged {
    Staged(excluded, p.subsidy + facts.subsidy, p.fee + facts.fee, p.coinbase + facts.coinbase, p.unclaimed + facts.unclaimed,
           p.cumExcluded + excluded,
           (p.coinbase + facts.coinbase) - (p.fee + facts.fee) - (p.cumExcluded + excluded))
  }

  /** The staging row of the n-th block in height order. */
  ghost function StagedAt(ar: Archive, accounting: map<Hash, BlockFacts>, chain: seq<Hash>, n: nat): Staged
    requires n <= |chain|
  {
    if n == 0 then NOTHING
    else NextStaged(StagedAt(ar, accounting, chain, n - 1), FactsAt(accounting, chain[n - 1]), BlockExcluded(ar, chain[n - 1]))
  }

  function AsStaged(r: RollupRow): Staged {
    Staged(r.excluded, r.subsidy, r.fee, r.coinbase, r.unclaimed, r.cumExcluded, r.utxoValue)
  }

  /** The BIGINT row a staging row is inserted as, if the columns and CHECKs take it. */
  function Storable(s: Staged): (r: Option<RollupRow>)
    ensures r.Some? ==> AsStaged(r.value) == s && RollupChecks(r.value)
    ensures r.None? ==> !exists row :: AsStaged(row) == s && RollupChecks(row)
  {
    if && InRange(s.excluded) && InRange(s.subsidy) && InRange(s.fee) && InRange(s.coinbase)
       && InRange(s.unclaimed) && InRange(s.cumExcluded) && InRange(s.utxoValue)
       && RollupChecks(RollupRow(s.excluded, s.subsidy, s.fee, s.coinbase, s.unclaimed, s.cumExcluded, s.utxoValue))
    then Some(RollupRow(s.excluded, s.subsidy, s.fee, s.coinbase, s.unclaimed, s.cumExcluded, s.utxoValue))
    else None
  }

  // --- batch equals incremental ---

  /** The window sums are the rows ApplyBlock accumulated. */
  lemma {:induction false} BatchIsLive(sch: SubsidySchedule, db: Database, chain: seq<Hash>, n: nat)
    requires Sound(sch) && Ledgered(sch, db, chain) && 0 < n <= |chain|
    ensures chain[n - 1] in db.accounting && chain[n - 1] in db.rollup
    ensures StagedAt(db.ar, db.accounting, chain, n) == AsStaged(db.rollup[chain[n - 1]])
    ensures RollupChecks(db.rollup[chain[n - 1]])
  {
    hide ArchiveOk, ChainOk, AccountingOk, RollupOk, BlockExcluded, BlockFees, CoinbaseTotal, FactsMatch, RollupChecks;
    RollupAt(sch, db, chain, n - 1);
    if n > 1 {
      BatchIsLive(sch, db, chain, n - 1);
    } else {
      assert StagedAt(db.ar, db.accounting, chain, 0) == NOTHING;
    }
  }

  // --- the direct aggregates of the cross-check ---

  function Part(f: BlockFacts, k: nat): int {
    match k
    case 0 => f.subsidy
    case 1 => f.fee
    case 2 => f.coinbase
    case _ => f.unclaimed
  }

  function StagedPart(s: Staged, k: nat): int {
    match k
    case 0 => s.subsidy
    case 1 => s.fee
    case 2 => s.coinbase
    case _ => s.unclaimed
  }

  function Parts(accounting: map<Hash, BlockFacts>, s: set<Hash>, k: nat): map<Hash, int> {
    map h | h in s :: Part(FactsAt(accounting, h), k)
  }

  /** SUM over canonical block_accounting, in no particular order. */
  ghost function DirectTotal(accounting: map<Hash, BlockFacts>, s: set<Hash>, k: nat): int {
    Sum(Parts(accounting, s, k))
  }

  lemma DirectAdd(accounting: map<Hash, BlockFacts>, s: set<Hash>, h: Hash, k: nat)
    requires h !in s
    ensures DirectTotal(accounting, s + {h}, k) == DirectTotal(accounting, s, k) + Part(FactsAt(accounting, h), k)
  {
    hide Part, FactsAt;
    SumPut(Parts(accounting, s, k), h, Part(FactsAt(accounting, h), k));
    assert Parts(accounting, s + {h}, k) == Parts(accounting, s, k)[h := Part(FactsAt(accounting, h), k)];
  }

  lemma StagedAdd(p: Staged, facts: BlockFacts, excluded: int, k: nat)
    ensures StagedPart(NextStaged(p, facts, excluded), k) == StagedPart(p, k) + Part(facts, k)
  {
  }

  lemma PrefixElems(chain: seq<Hash>, n: nat)
    requires 0 < n <= |chain| && Distinct(chain)
    ensures Elems(chain[..n]) == Elems(chain[..n - 1]) + {chain[n - 1]} && chain[n - 1] !in Elems(chain[..n - 1])
  {
    assert chain[..n] == chain[..n - 1] + [chain[n - 1]];
  }

  /** Summing the set and summing along the chain give the same totals. */
  lemma {:induction false} DirectIsStaged(ar: Archive, accounting: map<Hash, BlockFacts>, chain: seq<Hash>, n: nat, k: nat)
    requires n <= |chain| && Distinct(chain)
    ensures DirectTotal(accounting, Elems(chain[..n]), k) == StagedPart(StagedAt(ar, accounting, chain, n), k)
  {
    hide BlockExcluded, Part, StagedPart, NextStaged, FactsAt, DirectTotal, Elems, Distinct;
    if n == 0 {
      NoBlocksDirect(accounting, chain, k);
    } else {
      DirectIsStaged(ar, accounting, chain, n - 1, k);
      PrefixElems(chain, n);
      DirectAdd(accounting, Elems(chain[..n - 1]), chain[n - 1], k);
      StagedAdd(StagedAt(ar, accounting, chain, n - 1), FactsAt(accounting, chain[n - 1]), BlockExcluded(ar, chain[n - 1]), k);
    }
  }

  lemma NoBlocksDirect(accounting: map<Hash, BlockFacts>, chain: seq<Hash>, k: nat)
    ensures DirectTotal(accounting, Elems(chain[..0]), k) == StagedPart(NOTHING, k) == 0
  {
    assert Elems(chain[..0]) == {};
    assert Parts(accounting, {}, k) == map[];
  }

  // --- the whole run ---

  datatype Summary = Summary(canonicalBlocks: int, inserted: int, verified: int, tipHash: Hash, tipHeight: int64)

  const NO_BLOCKS := Summary(0, 0, 0, "", 0)

  ghost predicate Contradicts(db: Database, chain: seq<Hash>, i: nat)
    requires i < |chain|
  {
    chain[i] in db.rollup && AsStaged(db.rollup[chain[i]]) != StagedAt(db.ar, db.accounting, chain, i + 1)
  }

  ghost predicate Unstorable(db: Database, chain: seq<Hash>, i: nat)
    requires i < |chain|
  {
    chain[i] !in db.rollup && Storable(StagedAt(db.ar, db.accounting, chain, i + 1)).None?
  }

  ghost predicate CrossChecked(db: Database, chain: seq<Hash>) {
    var tip := StagedAt(db.ar, db.accounting, chain, |chain|);
    && Unspent(db.ar, db.coins) == tip.utxoValue
    && forall k: nat :: k < 4 ==> DirectTotal(db.accounting, db.canonical, k) == StagedPart(tip, k)
  }

  function Missing(rollup: map<Hash, RollupRow>, chain: seq<Hash>, n: nat): nat
    requires n <= |chain|
  {
    if n == 0 then 0 else Missing(rollup, chain, n - 1) + if chain[n - 1] in rollup then 0 else 1
  }

  /** ON CONFLICT DO NOTHING: only missing rows are added. */
  ghost function Filled(db: Database, chain: seq<Hash>, n: nat): map<Hash, RollupRow>
    requires n <= |chain|
  {
    if n == 0 then db.rollup
    else
      var p, h := Filled(db, chain, n - 1), chain[n - 1];
      var row := Storable(StagedAt(db.ar, db.accounting, chain, n));
      if h in p || row.None? then p else p[h := row.value]
  }

  predicate LacksFacts(accounting: map<Hash, BlockFacts>, chain: seq<Hash>) {
    exists i :: 0 <= i < |chain| && chain[i] !in accounting
  }

  ghost predicate HasContradiction(db: Database, chain: seq<Hash>) {
    exists i :: 0 <= i < |chain| && Contradicts(db, chain, i)
  }

  ghost predicate HasUnstorable(db: Database, chain: seq<Hash>) {
    exists i :: 0 <= i < |chain| && Unstorable(db, chain, i)
  }

  /** BackfillSupplyRollup on canonical rows in height order. Everything happens in one
      SQL transaction, so an error publishes nothing. */
  ghost function Outcome(db: Database, chain: seq<Hash>): Result<(Summary, map<Hash, RollupRow>), Error> {
    if db.checkpoint.height == -1 then Ok((NO_BLOCKS, db.rollup))
    else if !ShapeOk(db.ar, chain, db.checkpoint.height) then Err(CanonicalShapeInvalid)
    else if HasBreach(db.ar, chain) then Err(CanonicalAncestryInvalid)
    else if LacksFacts(db.accounting, chain) then Err(SupplyRollupSourceIncomplete)
    else if HasContradiction(db, chain) then Err(ImmutableConflict)
    else if HasUnstorable(db, chain) then Err(DatabaseConstraint)
    else if !CrossChecked(db, chain) then Err(SupplyRollupCrossCheckFailed)
    else
      var inserted, tip := Missing(db.rollup, chain, |chain|), chain[|chain| - 1];
      Ok((Summary(|chain|, inserted, |chain| - inserted, tip, HeightOf(db.ar, tip)), Filled(db, chain, |chain|)))
  }

  // --- on a store that lost some of its rollup rows ---

  /** db without some of its rollup rows. */
  ghost predicate LostRows(db: Database, damaged: Database) {
    damaged == db.(rollup := damaged.rollup) && SubMap(damaged.rollup, db.rollup)
  }

  lemma ShapeIffRooted(sch: SubsidySchedule, db: Database, chain: seq<Hash>)
    requires Sound(sch) && Coherent(sch, db, chain) && chain != []
    ensures db.checkpoint.height != -1
    ensures ShapeOk(db.ar, chain, db.checkpoint.height) <==> GenesisRooted(db.ar, chain) && |chain| <= MAX_INT64
  {
    hide ChainValid, AccountingOk, RollupOk, Cache.CacheCoherent, Distribution.BucketsCoherent, CoinsOk, RowsOk;
    var tip := chain[|chain| - 1];
    assert tip in db.ar.blocks && BlockRowOk(db.ar, tip);
    assert HeightOf(db.ar, tip) == HeightOf(db.ar, chain[0]) + |chain| - 1;
    assert chain[0] in db.ar.blocks && BlockRowOk(db.ar, chain[0]);
  }

  lemma BreachIffSelfReference(sch: SubsidySchedule, db: Database, chain: seq<Hash>)
    requires Sound(sch) && Coherent(sch, db, chain) && GenesisRooted(db.ar, chain)
    ensures chain[0] in db.ar.blocks
    ensures HasBreach(db.ar, chain) <==> db.ar.blocks[chain[0]].prev != ""
  {
    hide ArchiveOk, ChainValid, AccountingOk, RollupOk, DerivedOk, CoinsOk;
    if db.ar.blocks[chain[0]].prev != "" {
      assert Breach(db.ar, chain, 0);
    }
  }

  lemma NothingWrong(sch: SubsidySchedule, db: Database, chain: seq<Hash>, damaged: Database, i: nat)
    requires Sound(sch) && Ledgered(sch, db, chain) && LostRows(db, damaged) && i < |chain|
    ensures chain[i] in db.rollup && chain[i] in damaged.accounting
    ensures !Contradicts(damaged, chain, i) && !Unstorable(damaged, chain, i)
    ensures Storable(StagedAt(damaged.ar, damaged.accounting, chain, i + 1)) == Some(db.rollup[chain[i]])
  {
    hide Ledgered, StagedAt;
    BatchIsLive(sch, db, chain, i + 1);
    StorableAgain(db.rollup[chain[i]]);
  }

  lemma StorableAgain(row: RollupRow)
    requires RollupChecks(row)
    ensures Storable(AsStaged(row)) == Some(row)
  {
  }

  /** The fill restores exactly the canonical rows that were missing. */
  lemma {:induction false} FillRestores(sch: SubsidySchedule, db: Database, chain: seq<Hash>, damaged: Database, n: nat)
    requires Sound(sch) && Ledgered(sch, db, chain) && LostRows(db, damaged) && n <= |chain|
    ensures SubMap(damaged.rollup, Filled(damaged, chain, n)) && SubMap(Filled(damaged, chain, n), db.rollup)
    ensures Filled(damaged, chain, n).Keys == damaged.rollup.Keys + Elems(chain[..n])
  {
    hide Ledgered, StagedAt, Storable;
    if n > 0 {
      FillRestores(sch, db, chain, damaged, n - 1);
      NothingWrong(sch, db, chain, damaged, n - 1);
      assert chain[..n] == chain[..n - 1] + [chain[n - 1]];
    } else {
      assert Elems(chain[..0]) == {};
    }
  }

  lemma CrossCheckIff(sch: SubsidySchedule, db: Database, chain: seq<Hash>, damaged: Database)
    requires Sound(sch) && Coherent(sch, db, chain) && GenesisRooted(db.ar, chain) && LostRows(db, damaged)
    ensures CrossChecked(damaged, chain) <==> Residue(db.ar, chain) == 0
  {
    hide ArchiveOk, ChainValid, AccountingOk, RollupOk, CoinsOk, Cache.CacheCoherent, Distribution.BucketsCoherent;
    hide StagedAt, Unspent, DirectTotal, Residue;
    CoherentIsLedgered(sch, db, chain);
    BatchIsLive(sch, db, chain, |chain|);
    SupplyConservation(sch, db, chain);
    LinkedDistinct(db.ar, chain);
    assert chain[..|chain|] == chain;
    forall k: nat | k < 4
      ensures DirectTotal(damaged.accounting, damaged.canonical, k) == StagedPart(StagedAt(damaged.ar, damaged.accounting, chain, |chain|), k)
    {
      DirectIsStaged(db.ar, db.accounting, chain, |chain|, k);
    }
  }

  lemma NothingWrongAnywhere(sch: SubsidySchedule, db: Database, chain: seq<Hash>, damaged: Database)
    requires Sound(sch) && Ledgered(sch, db, chain) && LostRows(db, damaged)
    ensures !LacksFacts(damaged.accounting, chain) && !HasContradiction(damaged, chain) && !HasUnstorable(damaged, chain)
  {
    hide Ledgered, LostRows, Contradicts, Unstorable;
    forall i | 0 <= i < |chain|
      ensures !Contradicts(damaged, chain, i) && !Unstorable(damaged, chain, i) && chain[i] in damaged.accounting
    {
      NothingWrong(sch, db, chain, damaged, i);
    }
  }

  lemma RootedOutcome(sch: SubsidySchedule, db: Database, chain: seq<Hash>, damaged: Database)
    requires Sound(sch) && Coherent(sch, db, chain) && LostRows(db, damaged) && |chain| <= MAX_INT64 && GenesisRooted(db.ar, chain)
    ensures Outcome(damaged, chain).Ok? <==> FirstNamesNoParent(db.ar, chain) && Residue(db.ar, chain) == 0
    ensures Outcome(damaged, chain).Ok? ==> Outcome(damaged, chain).value.1 == Filled(damaged, chain, |chain|)
    ensures Outcome(damaged, chain).Err? ==>
              Outcome(damaged, chain).error
              == if !FirstNamesNoParent(db.ar, chain) then CanonicalAncestryInvalid else SupplyRollupCrossCheckFailed
  {
    hide Coherent, LostRows, HasContradiction, HasUnstorable, LacksFacts, HasBreach, CrossChecked, ShapeOk, Residue, Filled, Ledgered;
    ShapeIffRooted(sch, db, chain);
    SameButRollup(db, damaged);
    BreachIffSelfReference(sch, db, chain);
    CoherentIsLedgered(sch, db, chain);
    NothingWrongAnywhere(sch, db, chain, damaged);
    CrossCheckIff(sch, db, chain, damaged);
  }

  /** From height 0, and short enough for its count to be an int64. */
  ghost predicate Countable(db: Database, chain: seq<Hash>) {
    GenesisRooted(db.ar, chain) && |chain| <= MAX_INT64
  }

  ghost predicate Recoverable(db: Database, chain: seq<Hash>) {
    Countable(db, chain) && FirstNamesNoParent(db.ar, chain) && Residue(db.ar, chain) == 0
  }

  /** The run's outcome on a store that is coherent except for lost rollup rows. It
      succeeds exactly when the chain starts at a height-0 block that names no parent and
      nothing of value was re-spent; then it puts back precisely the lost canonical rows. */
  lemma BatchEqualsIncremental(sch: SubsidySchedule, db: Database, chain: seq<Hash>, damaged: Database)
    requires Sound(sch) && Coherent(sch, db, chain) && LostRows(db, damaged)
    ensures chain == [] ==> Outcome(damaged, chain) == Ok((NO_BLOCKS, damaged.rollup))
    ensures chain != [] ==> (Outcome(damaged, chain).Ok? <==> Recoverable(db, chain))
    ensures chain != [] && Outcome(damaged, chain).Ok? ==>
              var result := Outcome(damaged, chain).value.1;
              && SubMap(damaged.rollup, result) && SubMap(result, db.rollup)
              && result.Keys == damaged.rollup.Keys + Elems(chain)
    ensures chain != [] && Outcome(damaged, chain).Err? ==>
              Outcome(damaged, chain).error
              == if !Countable(db, chain) then CanonicalShapeInvalid
                 else if !FirstNamesNoParent(db.ar, chain) then CanonicalAncestryInvalid
                 else SupplyRollupCrossCheckFailed
  {
    hide ArchiveOk, ChainOk, AccountingOk, RollupOk, CoinsOk, DerivedOk, CrossChecked, ShapeOk, Residue, GenesisRooted, LostRows, FirstNamesNoParent;
    if chain == [] {
      EmptyCheckpoint(sch, db, damaged);
    } else if Countable(db, chain) {
      RootedOutcome(sch, db, chain, damaged);
      CoherentIsLedgered(sch, db, chain);
      FillRestores(sch, db, chain, damaged, |chain|);
      assert chain[..|chain|] == chain;
    } else {
      ShapeIffRooted(sch, db, chain);
      SameButRollup(db, damaged);
    }
  }

  lemma EmptyCheckpoint(sch: SubsidySchedule, db: Database, damaged: Database)
    requires Sound(sch) && Coherent(sch, db, []) && LostRows(db, damaged)
    ensures damaged.checkpoint.height == -1
  {
  }

  predicate FirstNamesNoParent(ar: Archive, chain: seq<Hash>) {
    chain != [] && chain[0] in ar.blocks && ar.blocks[chain[0]].prev == ""
  }

  lemma SameButRollup(db: Database, damaged: Database)
    requires LostRows(db, damaged)
    ensures damaged.ar == db.ar && damaged.checkpoint == db.checkpoint
  {
  }

  // --- what a run leaves ---

  /** A run on `before`, over rows it put in height order, answered r and left `after`. */
  ghost predicate Ran(before: Database, rows: seq<Hash>, r: Result<Summary, Error>, after: Database) {
    && Ordered(before.ar, before.canonical, rows)
    && match Outcome(before, rows)
       case Ok(done) => r == Ok(done.0) && after == before.(rollup := done.1)
       case Err(e) => r == Err(e) && after == before
  }

  /** A run on a coherent store that lost any of its rollup rows walks the store's own
      chain. It succeeds exactly when that chain is recoverable; then every lost row of a
      canonical block is back as it was, and nothing else has changed. Otherwise nothing
      has changed at all. */
  lemma RunRestores(sch: SubsidySchedule, db: Database, chain: seq<Hash>, damaged: Database,
                    rows: seq<Hash>, r: Result<Summary, Error>, after: Database)
    requires Sound(sch) && Coherent(sch, db, chain) && LostRows(db, damaged) && Ran(damaged, rows, r, after)
    ensures rows == chain
    ensures chain != [] ==> (r.Ok? <==> Recoverable(db, chain))
    ensures after == damaged.(rollup := after.rollup)
    ensures r.Ok? ==> SubMap(damaged.rollup, after.rollup) && SubMap(after.rollup, db.rollup)
                      && after.rollup.Keys == damaged.rollup.Keys + Elems(chain)
    ensures r.Ok? && chain != [] ==>
              && r.value.canonicalBlocks == |chain| && r.value.inserted == |Elems(chain) - damaged.rollup.Keys|
              && r.value.inserted + r.value.verified == |chain|
              && Checkpoint(r.value.tipHeight, r.value.tipHash) == db.checkpoint
    ensures r.Err? ==> after == damaged && chain != []
    ensures r.Err? ==> r.error == if !Countable(db, chain) then CanonicalShapeInvalid
                                  else if !FirstNamesNoParent(db.ar, chain) then CanonicalAncestryInvalid
                                  else SupplyRollupCrossCheckFailed
  {
    hide Coherent, Outcome, Recoverable, Countable, FirstNamesNoParent;
    CoherentIsOrdered(sch, db, chain);
    OrderedUnique(db.ar, db.canonical, chain, rows);
    BatchEqualsIncremental(sch, db, chain, damaged);
    if r.Ok? && chain != [] {
      SummaryCounts(sch, db, chain, damaged, r.value);
    }
  }

  lemma SummaryCounts(sch: SubsidySchedule, db: Database, chain: seq<Hash>, damaged: Database, s: Summary)
    requires Sound(sch) && Coherent(sch, db, chain) && LostRows(db, damaged) && chain != []
    requires Outcome(damaged, chain).Ok? && s == Outcome(damaged, chain).value.0
    ensures s.canonicalBlocks == |chain| && s.inserted == |Elems(chain) - damaged.rollup.Keys|
    ensures s.inserted + s.verified == |chain| && Checkpoint(s.tipHeight, s.tipHash) == db.checkpoint
  {
    hide Linked, Elems, ArchiveOk, ChainValid, CoinsOk, AccountingOk, RollupOk, Cache.CacheCoherent;
    hide Distribution.BucketsCoherent, ShapeOk, HasBreach, LacksFacts, HasContradiction, HasUnstorable, CrossChecked;
    hide Filled, Missing;
    ShapeIffRooted(sch, db, chain);
    LinkedDistinct(db.ar, chain);
    MissingCount(damaged.rollup, chain, |chain|);
    assert chain[..|chain|] == chain;
  }

  lemma {:induction false} MissingCount(rollup: map<Hash, RollupRow>, chain: seq<Hash>, n: nat)
    requires Distinct(chain) && n <= |chain|
    ensures Missing(rollup, chain, n) == |Elems(chain[..n]) - rollup.Keys|
  {
    hide Distinct, Elems;
    if n > 0 {
      MissingCount(rollup, chain, n - 1);
      PrefixElems(chain, n);
      CountNext(Elems(chain[..n - 1]), chain[n - 1], rollup.Keys);
    } else {
      NoElems(chain);
    }
  }

  lemma NoElems<T>(s: seq<T>)
    ensures Elems(s[..0]) == {}
  {
  }

  lemma CountNext<T>(a: set<T>, h: T, k: set<T>)
    requires h !in a
    ensures |a + {h} - k| == |a - k| + if h in k then 0 else 1
  {
    assert a + {h} - k == if h in k then a - k else a - k + {h};
  }
}
