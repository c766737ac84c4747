/** BackfillSupplyRollup, step by step (internal/store/supply_rollup_backfill.go). Each
    SQL aggregate is a loop; nothing is published unless every check passes. */
module RollupRun {
  import opened Wrappers
  import opened Errors
  import opened Sums
  import opened Chain
  import opened Tables
  import opened Accounting
  import opened Coins
  import opened Coherence
  import opened Conservation
  import opened Backfill
  import opened RollupBackfill

  /** SELECT SUM(...): the rows come in any order. */
  method SumAll<K(==)>(m: map<K, int>) returns (total: int)
    ensures total == Sum(m)
  {
    total := 0;
    var rest := m.Keys;
    assert m - rest == map[];
    while rest != {}
      invariant rest <= m.Keys
      invariant total == Sum(m - rest)
      decreases rest
    {
      var k :| k in rest;
      assert m - (rest - {k}) == (m - rest)[k := m[k]];
      SumPut(m - rest, k, m[k]);
      total := total + m[k];
      rest := rest - {k};
    }
    assert m - {} == m;
  }

  /** ORDER BY height. */
  method OrderByHeight(ar: Archive, canonical: set<Hash>) returns (chain: seq<Hash>)
    requires HeightsUnique(ar, canonical)
    ensures Ordered(ar, canonical, chain)
  {
    chain := [];
    var rest := canonical;
    assert Elems(chain) == canonical - rest;
    while rest != {}
      invariant rest <= canonical
      invariant Ordered(ar, canonical - rest, chain)
      invariant forall i, g :: 0 <= i < |chain| && g in rest ==> HeightOf(ar, chain[i]) < HeightOf(ar, g)
      decreases rest
    {
      ghost var lowest := LowestBlock(ar, rest);
      var h :| h in rest && forall g :: g in rest ==> HeightOf(ar, h) <= HeightOf(ar, g);
      OrderedSnoc(ar, canonical - rest, chain, h);
      assert canonical - (rest - {h}) == canonical - rest + {h};
      chain := chain + [h];
      rest := rest - {h};
    }
    assert canonical - {} == canonical;
  }

  lemma OrderedSnoc(ar: Archive, s: set<Hash>, chain: seq<Hash>, h: Hash)
    requires Ordered(ar, s, chain) && forall i :: 0 <= i < |chain| ==> HeightOf(ar, chain[i]) < HeightOf(ar, h)
    ensures Ordered(ar, s + {h}, chain + [h])
  {
  }

  /** One transaction's share of the excluded outputs. */
  method ExcludedOutputs(outs: seq<OutBody>, genesis: bool) returns (total: int)
    ensures total == ExcludedOf(outs, genesis, |outs|)
  {
    total := 0;
    for v := 0 to |outs|
      invariant total == ExcludedOf(outs, genesis, v)
    {
      if Excluded(outs[v], genesis) {
        total := total + outs[v].value;
      }
    }
  }

  /** excluded_per_block, through the block's own occurrences. */
  method ExcludedInBlock(ar: Archive, h: Hash) returns (total: int)
    ensures total == BlockExcluded(ar, h)
  {
    var genesis, ids := HeightOf(ar, h) == 0, TxIdsOf(ar, h);
    total := 0;
    for i := 0 to |ids|
      invariant total == ExcludedTotal(ar.txs, genesis, ids, i)
    {
      var excluded := ExcludedOutputs(OutputsOf(ar.txs, ids[i]), genesis);
      total := total + excluded;
    }
  }

  /** The staging table: one running sum per column. */
  method Stage(ar: Archive, accounting: map<Hash, BlockFacts>, chain: seq<Hash>) returns (rows: seq<Staged>)
    ensures |rows| == |chain|
    ensures forall i :: 0 <= i < |chain| ==> rows[i] == StagedAt(ar, accounting, chain, i + 1)
  {
    hide BlockExcluded;
    rows := [];
    var last := NOTHING;
    for n := 0 to |chain|
      invariant |rows| == n && last == StagedAt(ar, accounting, chain, n)
      invariant forall i :: 0 <= i < n ==> rows[i] == StagedAt(ar, accounting, chain, i + 1)
    {
      var excluded := ExcludedInBlock(ar, chain[n]);
      last := NextStaged(last, FactsAt(accounting, chain[n]), excluded);
      rows := rows + [last];
    }
  }

  /** Rows already there must equal the staged ones; missing rows must be storable. */
  method CheckStaged(db: Database, chain: seq<Hash>, rows: seq<Staged>) returns (r: Result<(), Error>)
    requires |rows| == |chain| && forall i :: 0 <= i < |chain| ==> rows[i] == StagedAt(db.ar, db.accounting, chain, i + 1)
    ensures r == if HasContradiction(db, chain) then Err(ImmutableConflict)
                 else if HasUnstorable(db, chain) then Err(DatabaseConstraint)
                 else Ok(())
  {
    hide StagedAt, Storable;
    for i := 0 to |chain|
      invariant forall j :: 0 <= j < i ==> !Contradicts(db, chain, j)
    {
      if chain[i] in db.rollup && AsStaged(db.rollup[chain[i]]) != rows[i] {
        assert Contradicts(db, chain, i);
        return Err(ImmutableConflict);
      }
    }
    for i := 0 to |chain|
      invariant forall j :: 0 <= j < i ==> !Unstorable(db, chain, j)
    {
      if chain[i] !in db.rollup && Storable(rows[i]).None? {
        assert Unstorable(db, chain, i);
        return Err(DatabaseConstraint);
      }
    }
    return Ok(());
  }

  /** INSERT ... ON CONFLICT DO NOTHING. */
  method InsertStaged(db: Database, chain: seq<Hash>, rows: seq<Staged>) returns (rollup: map<Hash, RollupRow>, inserted: nat)
    requires |rows| == |chain| && forall i :: 0 <= i < |chain| ==> rows[i] == StagedAt(db.ar, db.accounting, chain, i + 1)
    requires Distinct(chain)
    requires !HasUnstorable(db, chain)
    ensures rollup == Filled(db, chain, |chain|) && inserted == Missing(db.rollup, chain, |chain|)
  {
    hide StagedAt, Storable, Distinct;
    rollup, inserted := db.rollup, 0;
    for n := 0 to |chain|
      invariant rollup == Filled(db, chain, n) && inserted == Missing(db.rollup, chain, n)
      invariant rollup.Keys == db.rollup.Keys + Elems(chain[..n])
    {
      var h, row := chain[n], Storable(rows[n]);
      assert !Unstorable(db, chain, n);
      PrefixElems(chain, n + 1);
      if h !in rollup {
        rollup := rollup[h := row.value];
        inserted := inserted + 1;
      }
    }
  }

  /** The two independent scans against the staged tip. */
  method CrossCheck(db: Database, chain: seq<Hash>, tip: Staged) returns (ok: bool)
    requires tip == StagedAt(db.ar, db.accounting, chain, |chain|)
    ensures ok <==> CrossChecked(db, chain)
  {
    hide StagedAt;
    var unspent := SumAll(UnspentValues(db.ar, db.coins));
    if unspent != tip.utxoValue {
      return false;
    }
    for k := 0 to 4
      invariant forall j: nat :: j < k ==> DirectTotal(db.accounting, db.canonical, j) == StagedPart(tip, j)
    {
      var total := SumAll(Parts(db.accounting, db.canonical, k));
      if total != StagedPart(tip, k) {
        return false;
      }
    }
    return true;
  }

  class Run {
    var db: Database

    constructor (db: Database)
      ensures this.db == db
    {
      this.db := db;
    }

    method Preflight(chain: seq<Hash>) returns (r: Result<(), Error>)
      ensures r == if !ShapeOk(db.ar, chain, db.checkpoint.height) then Err(CanonicalShapeInvalid)
                   else if HasBreach(db.ar, chain) then Err(CanonicalAncestryInvalid)
                   else if LacksFacts(db.accounting, chain) then Err(SupplyRollupSourceIncomplete)
                   else Ok(())
      ensures r.Ok? && Ordered(db.ar, db.canonical, chain) && db.canonical <= db.ar.blocks.Keys ==>
                OneChain(db.ar, db.canonical, chain) && |chain| - 1 == db.checkpoint.height
    {
      hide OneChain, Ordered;
      if Ordered(db.ar, db.canonical, chain) && db.canonical <= db.ar.blocks.Keys {
        PreflightExact(db.ar, db.canonical, chain, db.checkpoint.height);
      }
      if !ShapeOk(db.ar, chain, db.checkpoint.height) {
        return Err(CanonicalShapeInvalid);
      }
      for i := 0 to |chain|
        invariant forall j :: 0 <= j < i ==> !Breach(db.ar, chain, j)
      {
        if Breach(db.ar, chain, i) {
          return Err(CanonicalAncestryInvalid);
        }
      }
      for i := 0 to |chain|
        invariant forall j :: 0 <= j < i ==> chain[j] in db.accounting
      {
        if chain[i] !in db.accounting {
          return Err(SupplyRollupSourceIncomplete);
        }
      }
      return Ok(());
    }

    method BackfillSupplyRollup() returns (r: Result<Summary, Error>, ghost chain: seq<Hash>)
      requires HeightsUnique(db.ar, db.canonical)
      modifies this
      ensures Ran(old(db), chain, r, db)
    {
      hide HasBreach, LacksFacts, HasContradiction, HasUnstorable, CrossChecked, StagedAt, Storable, Filled, Missing;
      var rows := OrderByHeight(db.ar, db.canonical);
      chain := rows;
      if db.checkpoint.height == -1 {
        assert db == db.(rollup := db.rollup);
        r := Ok(NO_BLOCKS);
        return;
      }
      var preflight := Preflight(rows);
      if preflight.Err? {
        r := Err(preflight.error);
        return;
      }
      var staged := Stage(db.ar, db.accounting, rows);
      var checked := CheckStaged(db, rows, staged);
      if checked.Err? {
        r := Err(checked.error);
        return;
      }
      OrderedDistinct(db.ar, db.canonical, rows);
      var rollup, inserted := InsertStaged(db, rows, staged);
      var ok := CrossCheck(db, rows, staged[|rows| - 1]);
      if !ok {
        r := Err(SupplyRollupCrossCheckFailed);
        return;
      }
      var tip := rows[|rows| - 1];
      db := db.(rollup := rollup);
      r := Ok(Summary(|rows|, inserted, |rows| - inserted, tip, HeightOf(db.ar, tip)));
    }
  }

  lemma OrderedDistinct(ar: Archive, s: set<Hash>, chain: seq<Hash>)
    requires Ordered(ar, s, chain)
    ensures Distinct(chain)
  {
  }
}
