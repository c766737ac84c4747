/** The derived supply is wrong on a chain that re-spends: three accepted blocks after
    which the rollup says 0 while the coin set holds `v`, and a block that is refused
    because the derived supply would be negative. */
module Overcount {
  import opened Wrappers
  import opened Errors
  import opened Int64
  import Sums
  import opened Chain
  import opened Tables
  import opened Accounting
  import opened Script
  import opened Shape
  import opened Coins
  import opened TxSpec
  import opened Cache
  import opened Distribution
  import opened StoreSpec
  import opened Coherence
  import opened Conservation
  import opened Recovery
  import opened Republication

  /** A hash or txid made of one repeated hex digit. */
  function Id(c: char): (s: string)
    requires '0' <= c <= '9'
    ensures WellFormedHash(s) && s[0] == c
  {
    seq(64, i => c)
  }

  lemma IdsDiffer(c: char, d: char)
    requires '0' <= c <= '9' && '0' <= d <= '9' && c != d
    ensures Id(c) != Id(d)
  {
    assert Id(c)[0] != Id(d)[0];
  }

  function Mint(x: TxId, v: int64): Transaction {
    Transaction(x, "", true, [Input(0, None, [1], [], 0)], [Output(OutBody(0, v, []), "")])
  }

  /** Spends output 0 of `from` entirely on fees. */
  function Burn(x: TxId, from: TxId): Transaction {
    Transaction(x, "", false, [Input(0, Some(OutPoint(from, 0)), [], [], 0)], [Output(OutBody(0, 0, [OP_RETURN]), "")])
  }

  function Genesis(): Block {
    Block(Id('1'), 0, "", "", 1, [Mint(Id('4'), 0)])
  }

  function First(v: int64): Block {
    Block(Id('2'), 1, Id('1'), "", 2, [Mint(Id('5'), v), Burn(Id('7'), Id('5'))])
  }

  /** Repeats the transaction of the first block. */
  function Second(v: int64): Block {
    Block(Id('3'), 2, Id('2'), "", 2, [Mint(Id('6'), v), Burn(Id('7'), Id('5'))])
  }

  function MintRow(v: int64): TxRow {
    RowOf(Mint("", v), None)
  }

  function BurnRow(from: TxId, v: int64): TxRow {
    RowOf(Burn("", from), Some(v))
  }

  // --- transactions ---

  lemma MintApplies(ar: Archive, c: CoinSet, h: Hash, x: TxId, v: int64, genesis: bool)
    requires v >= 0 && WellFormedHash(x) && x !in ar.txs && TxIdsOf(ar, h) == []
    requires OutPoint(x, 0) !in c && OutPoint(x, 0) !in ar.outAddrs
    ensures ApplyTx(ar, c, h, 0, Mint(x, v), genesis)
            == Ok(TxStep(Archive(ar.blocks, ar.blockTxs[h := [x]], ar.txs[x := MintRow(v)], ar.outAddrs),
                         if genesis then c else c[OutPoint(x, 0) := Coin(h, None)], None, {}))
  {
    var txn := Mint(x, v);
    assert RowOf(txn, None) == MintRow(v);
    assert TxIdsOf(ar, h) + [x] == [x];
    var ar1 := Persist(ar, h, 0, x, MintRow(v)).value;
    assert ar1 == Archive(ar.blocks, ar.blockTxs[h := [x]], ar.txs[x := MintRow(v)], ar.outAddrs);
    var s := OutStep(ar1.outAddrs, c);
    assert PersistOutputs(s, h, x, txn.outputs, genesis, true, 0) == Ok(s);
    assert PersistOutputs(s, h, x, txn.outputs, genesis, true, 1)
        == Ok(OutStep(ar.outAddrs, if genesis then c else c[OutPoint(x, 0) := Coin(h, None)]));
    assert OutAddresses(txn.outputs, 1) == {};
  }

  lemma BurnApplies(ar: Archive, c: CoinSet, h: Hash, x: TxId, from: TxId, v: int64)
    requires v >= 0 && WellFormedHash(x) && |TxIdsOf(ar, h)| == 1 && x !in TxIdsOf(ar, h)
    requires x in ar.txs ==> ar.txs[x] == BurnRow(from, v)
    requires OutPoint(x, 0) !in ar.outAddrs && OutPoint(from, 0) !in ar.outAddrs
    requires OutPoint(from, 0) in c && HasOutput(ar, OutPoint(from, 0)) && Value(ar, OutPoint(from, 0)) == v
    requires var spend := c[OutPoint(from, 0)].spend; spend.Some? ==> spend.value.txid == x && spend.value.vin == 0
    ensures ApplyTx(ar, c, h, 1, Burn(x, from), false)
            == Ok(TxStep(Archive(ar.blocks, ar.blockTxs[h := TxIdsOf(ar, h) + [x]], ar.txs[x := BurnRow(from, v)], ar.outAddrs),
                         MarkSpent(c, OutPoint(from, 0), Spend(x, 0, h)), Some(v), {}))
  {
    var txn := Burn(x, from);
    var row := BurnRow(from, v);
    assert RowOf(txn, Some(v)) == row;
    assert ar.txs[x := row] == if x in ar.txs then ar.txs else ar.txs[x := row];
    assert InputSum(ar, c, x, txn.inputs, 0) == Ok(0);
    assert InputSum(ar, c, x, txn.inputs, 1) == Ok(v);
    assert OutputSum(Bodies(txn.outputs), 0) == Ok(0);
    assert TxFee(ar, c, txn) == Ok(Some(v));
    var ar1 := Persist(ar, h, 1, x, row).value;
    assert ar1 == Archive(ar.blocks, ar.blockTxs[h := TxIdsOf(ar, h) + [x]], ar.txs[x := row], ar.outAddrs);
    var s := OutStep(ar1.outAddrs, c);
    assert PersistOutputs(s, h, x, txn.outputs, false, x !in ar.txs, 0) == Ok(s);
    assert PersistOutputs(s, h, x, txn.outputs, false, x !in ar.txs, 1) == Ok(s);
    assert OutAddresses(txn.outputs, 1) == {};
    assert MarkInputs(c, h, x, txn.inputs, 0) == Ok(c);
    assert MarkInputs(c, h, x, txn.inputs, 1) == Ok(MarkSpent(c, OutPoint(from, 0), Spend(x, 0, h)));
    assert OutAddresses(txn.outputs, 1) + InAddresses(ar.outAddrs, txn.inputs, 1) == {};
  }

  // --- blocks ---

  const FULL: int64 := INITIAL_SUBSIDY

  function Facts(v: int64): BlockFacts {
    BlockFacts(FULL, v, v, FULL)
  }

  const TOTALS_0 := RollupRow(0, FULL, 0, 0, FULL, 0, 0)

  function Totals1(v: int64): RollupRow
    requires 0 <= v <= FULL
  {
    RollupRow(0, 2 * FULL, v, v, 2 * FULL, 0, 0)
  }

  /** Both blocks' coinbases were burnt as fees, says the rollup. */
  function Totals2(v: int64): RollupRow
    requires 0 <= v <= FULL
  {
    RollupRow(0, 3 * FULL, 2 * v, 2 * v, 3 * FULL, 0, 0)
  }

  lemma QuietPublish(db: Database, b: Block, canonical: set<Hash>, lp: Loop, facts: BlockFacts, rollup: map<Hash, RollupRow>)
    requires |b.txs| > 0 && lp.touched == {} && db.addresses == map[] && db.buckets == EMPTY_BUCKETS
    requires FactsOfBlock(MAINNET, b, lp.fee) == Ok(facts) && b.hash !in db.accounting
    requires ApplyRollup(lp.ar, canonical, db.rollup, b, db.checkpoint, facts) == Ok(rollup)
    ensures var tip := Checkpoint(HeightOf(lp.ar, b.hash), b.hash);
            Publish(MAINNET, db, b, canonical, lp)
            == Ok(Database(lp.ar, canonical, lp.coins, map[], EMPTY_BUCKETS, tip, db.accounting[b.hash := facts], rollup, tip))
  {
    hide FactsOfBlock, ApplyRollup, SliceFits;
    assert Refresh(map[], lp.ar, lp.coins, {}) == map[];
    EmptyBucketsCoherent();
    BucketsAfterIff(EMPTY_BUCKETS, map[], map[]);
    BucketsStay();
  }

  lemma BucketsStay()
    ensures BucketsAfter(EMPTY_BUCKETS, map[], map[]) == Ok(EMPTY_BUCKETS)
  {
    EmptyBucketsCoherent();
    BucketsAfterIff(EMPTY_BUCKETS, map[], map[]);
    BucketsUnique(BucketsAfter(EMPTY_BUCKETS, map[], map[]).value, EMPTY_BUCKETS, map[]);
  }

  lemma FullSubsidy(height: int64)
    requires 0 <= height < 500_000
    ensures SubsidyAt(MAINNET, height) == FULL
  {
    assert ShiftRight(MAINNET.initial, 0) == FULL;
  }

  lemma BlockTotals(b: Block, v: int64, fee: int64)
    requires 0 <= b.height < 500_000 && |b.txs| > 0 && b.txs[0].outputs == [Output(OutBody(0, v, []), "")]
    requires 0 <= v <= FULL && fee == v
    ensures FactsOfBlock(MAINNET, b, fee) == Ok(Facts(v))
  {
    FullSubsidy(b.height);
    var outs := Bodies(b.txs[0].outputs);
    assert OutputSum(outs, 0) == Ok(0);
    assert OutputSum(outs, 1) == Ok(v);
  }

  lemma NothingExcluded(txs: seq<Transaction>, k: nat)
    requires k <= |txs|
    requires forall i :: 0 <= i < k ==> |txs[i].outputs| == 1 && (txs[i].outputs[0].body.value == 0 || txs[i].outputs[0].body.script == [])
    ensures ExcludedSums(txs, false, k) == Ok(0)
  {
    if k > 0 {
      NothingExcluded(txs, k - 1);
      var outs := Bodies(txs[k - 1].outputs);
      assert ExcludedSum(0, outs, false, 0) == Ok(0);
      assert ExcludedSum(0, outs, false, 1) == Ok(0);
    }
  }

  lemma NextTotals(ar: Archive, canonical: set<Hash>, rollup: map<Hash, RollupRow>, b: Block, before: Checkpoint, v: int64, row: RollupRow)
    requires b.height != 0 && b.prev in rollup && b.hash !in rollup && Extended(rollup[b.prev], 0, Facts(v), row)
    requires ExcludedSums(b.txs, false, |b.txs|) == Ok(0)
    ensures ApplyRollup(ar, canonical, rollup, b, before, Facts(v)) == Ok(rollup[b.hash := row])
  {
    hide ExtendRollup, Facts, Extended, RollupChecks;
    ExtendAgain(rollup[b.prev], 0, Facts(v), row);
  }

  lemma Shapes(x: TxId, from: TxId, v: int64)
    ensures CheckTransaction(Mint(x, v), 0).Ok? && CheckTransaction(Burn(x, from), 1).Ok?
  {
    TransactionShape(Mint(x, v), 0);
    TransactionShape(Burn(x, from), 1);
  }

  lemma BlockShapes(v: int64)
    ensures CheckBlock(Genesis()).Ok? && CheckBlock(First(v)).Ok? && CheckBlock(Second(v)).Ok?
  {
    Shapes(Id('4'), "", 0);
    Shapes(Id('5'), "", v);
    Shapes(Id('6'), "", v);
    Shapes(Id('7'), Id('5'), v);
  }

  function Start(db: Database, b: Block): Archive {
    db.ar.(blocks := db.ar.blocks[b.hash := HeaderRow(b)])
  }

  lemma NewHeader(db: Database, b: Block)
    requires CheckBlock(b).Ok? && CheckContinuity(b, db.checkpoint).Ok?
    requires b.hash !in db.ar.blocks && InsertableHeader(db.ar, b)
    requires forall h :: h in db.canonical ==> HeightOf(db.ar, h) < b.height
    ensures Admit(db, b) == Ok(Header(Start(db, b), db.canonical + {b.hash}, true))
  {
  }

  function AfterGenesis(): Database {
    var h := Id('1');
    Database(Archive(map[h := BlockRow(0, "", "", 1)], map[h := [Id('4')]], map[Id('4') := MintRow(0)], map[]),
             {h}, map[], map[], EMPTY_BUCKETS, Checkpoint(0, h), map[h := Facts(0)], map[h := TOTALS_0], Checkpoint(0, h))
  }

  lemma GenesisApplies()
    ensures ApplyBlock(MAINNET, EMPTY, Genesis()) == Ok(AfterGenesis())
  {
    hide CheckBlock, Publish, ApplyTx, FactsOfBlock, ApplyRollup, Facts, Mint;
    var b := Genesis();
    BlockShapes(0);
    NewHeader(EMPTY, b);
    var ar := Start(EMPTY, b);
    MintApplies(ar, map[], b.hash, Id('4'), 0, true);
    GenesisPublishes();
    var lp := Loop(AfterGenesis().ar, map[], 0, {});
    assert ApplyTxs(ar, map[], b, 0) == Ok(Loop(ar, map[], 0, {}));
    assert var none: set<Address> := {}; none + none == {};
    assert ApplyTxs(ar, map[], b, 1) == Ok(lp);
    assert {} + {b.hash} == {b.hash};
  }

  lemma GenesisPublishes()
    ensures |Genesis().txs| > 0
    ensures Publish(MAINNET, EMPTY, Genesis(), {Id('1')}, Loop(AfterGenesis().ar, map[], 0, {})) == Ok(AfterGenesis())
  {
    hide FactsOfBlock, ApplyRollup;
    BlockTotals(Genesis(), 0, 0);
    GenesisRollup();
    QuietPublish(EMPTY, Genesis(), {Id('1')}, Loop(AfterGenesis().ar, map[], 0, {}), Facts(0), map[Id('1') := TOTALS_0]);
  }

  lemma GenesisRollup()
    ensures ApplyRollup(AfterGenesis().ar, {Id('1')}, map[], Genesis(), BOOTSTRAP, Facts(0)) == Ok(map[Id('1') := TOTALS_0])
  {
    hide ExcludedSums, ApplyRollup, ExtendRollup, RollupChecks, Mint, AfterGenesis, Facts, Id;
    GenesisExcludes();
    GenesisTotals();
    GenesisRow(AfterGenesis().ar, {Id('1')}, Genesis(), Facts(0), TOTALS_0);
  }

  lemma UnclaimedRow(subsidy: int64)
    requires 0 <= subsidy
    ensures Extended(ZERO_ROLLUP, 0, BlockFacts(subsidy, 0, 0, subsidy), RollupRow(0, subsidy, 0, 0, subsidy, 0, 0))
  {
  }

  lemma GenesisTotals()
    ensures ExtendRollup(ZERO_ROLLUP, 0, Facts(0)) == Ok(TOTALS_0) && RollupChecks(TOTALS_0)
  {
    hide ExtendRollup, RollupChecks, Extended;
    UnclaimedRow(FULL);
    ExtendAgain(ZERO_ROLLUP, 0, Facts(0), TOTALS_0);
  }

  lemma GenesisRow(ar: Archive, canonical: set<Hash>, b: Block, facts: BlockFacts, row: RollupRow)
    requires b.height == 0 && ExcludedSums(b.txs, true, |b.txs|) == Ok(0)
    requires ExtendRollup(ZERO_ROLLUP, 0, facts) == Ok(row) && RollupChecks(row)
    ensures ApplyRollup(ar, canonical, map[], b, BOOTSTRAP, facts) == Ok(map[b.hash := row])
  {
  }

  lemma GenesisExcludes()
    ensures ExcludedSums(Genesis().txs, true, |Genesis().txs|) == Ok(0)
  {
    var b := Genesis();
    var outs := Bodies(b.txs[0].outputs);
    assert ExcludedSum(0, outs, true, 0) == Ok(0);
    assert ExcludedSum(0, outs, true, 1) == Ok(0);
    assert ExcludedSums(b.txs, true, 0) == Ok(0);
    assert ExcludedSums(b.txs, true, 1) == Ok(0);
  }

  // --- the two blocks that follow ---

  /** b mints w and burns v. */
  ghost predicate PairOk(db: Database, b: Block, mint: TxId, w: int64, from: TxId, v: int64) {
    && b.txs == [Mint(mint, w), Burn(Id('7'), from)] && b.height > 0 && w >= 0 && v >= 0
    && b.hash !in db.ar.blockTxs && db.ar.outAddrs == map[]
    && WellFormedHash(mint) && mint !in db.ar.txs && mint != Id('7') && OutPoint(mint, 0) !in db.coins
    && (Id('7') in db.ar.txs ==> db.ar.txs[Id('7')] == BurnRow(from, v))
    && (from == mint ==> w == v)
    && (from != mint ==>
          && OutPoint(from, 0) in db.coins && HasOutput(db.ar, OutPoint(from, 0)) && Value(db.ar, OutPoint(from, 0)) == v
          && db.coins[OutPoint(from, 0)].spend.Some?
          && db.coins[OutPoint(from, 0)].spend.value.txid == Id('7') && db.coins[OutPoint(from, 0)].spend.value.vin == 0)
  }

  function PairTables(db: Database, b: Block, mint: TxId, w: int64, from: TxId, v: int64): Archive {
    Archive(Start(db, b).blocks, db.ar.blockTxs[b.hash := [mint, Id('7')]],
            db.ar.txs[mint := MintRow(w)][Id('7') := BurnRow(from, v)], map[])
  }

  function PairCoins(db: Database, b: Block, mint: TxId, from: TxId): CoinSet {
    MarkSpent(db.coins[OutPoint(mint, 0) := Coin(b.hash, None)], OutPoint(from, 0), Spend(Id('7'), 0, b.hash))
  }

  lemma MintHalf(db: Database, b: Block, mint: TxId, w: int64, from: TxId, v: int64)
    requires PairOk(db, b, mint, w, from, v)
    ensures ApplyTxs(Start(db, b), db.coins, b, 1)
            == Ok(Loop(Archive(Start(db, b).blocks, db.ar.blockTxs[b.hash := [mint]], db.ar.txs[mint := MintRow(w)], map[]),
                       db.coins[OutPoint(mint, 0) := Coin(b.hash, None)], 0, {}))
  {
    hide ApplyTx, Mint, Burn;
    var ar := Start(db, b);
    MintApplies(ar, db.coins, b.hash, mint, w, false);
    assert ApplyTxs(ar, db.coins, b, 0) == Ok(Loop(ar, db.coins, 0, {}));
    assert var none: set<Address> := {}; none + none == {};
  }

  lemma BurnHalf(db: Database, b: Block, mint: TxId, w: int64, from: TxId, v: int64)
    requires PairOk(db, b, mint, w, from, v)
    ensures ApplyTxs(Start(db, b), db.coins, b, 2)
            == Ok(Loop(PairTables(db, b, mint, w, from, v), PairCoins(db, b, mint, from), v, {}))
  {
    hide ApplyTx, Mint, Burn;
    MintHalf(db, b, mint, w, from, v);
    var p := ApplyTxs(Start(db, b), db.coins, b, 1).value;
    MintStored(w);
    assert TxIdsOf(p.ar, b.hash) == [mint];
    BurnApplies(p.ar, p.coins, b.hash, Id('7'), from, v);
    assert [mint] + [Id('7')] == [mint, Id('7')];
    assert p.ar.blockTxs[b.hash := [mint, Id('7')]] == db.ar.blockTxs[b.hash := [mint, Id('7')]];
    assert var none: set<Address> := {}; none + none == {};
  }

  lemma MintStored(v: int64)
    ensures |MintRow(v).outputs| == 1 && MintRow(v).outputs[0].value == v
  {
  }

  ghost predicate IdsDistinct() {
    forall c, d :: '1' <= c <= '7' && '1' <= d <= '7' && c != d ==> Id(c) != Id(d)
  }

  lemma TheseDiffer()
    ensures IdsDistinct()
  {
    forall c, d | '1' <= c <= '7' && '1' <= d <= '7' && c != d
      ensures Id(c) != Id(d)
    {
      IdsDiffer(c, d);
    }
  }

  /** What a further mint-and-burn block leaves. */
  function AfterPair(db: Database, b: Block, mint: TxId, from: TxId, v: int64, totals: RollupRow): Database
    requires 0 <= v <= FULL
  {
    var tip := Checkpoint(b.height, b.hash);
    Database(PairTables(db, b, mint, v, from, v), db.canonical + {b.hash}, PairCoins(db, b, mint, from), map[], EMPTY_BUCKETS, tip,
             db.accounting[b.hash := Facts(v)], db.rollup[b.hash := totals], tip)
  }

  lemma PairPublishes(db: Database, b: Block, mint: TxId, from: TxId, v: int64, totals: RollupRow)
    requires PairOk(db, b, mint, v, from, v) && v <= FULL && b.height < 500_000 && b.hash !in db.accounting && b.hash !in db.rollup
    requires db.addresses == map[] && db.buckets == EMPTY_BUCKETS
    requires b.prev in db.rollup && Extended(db.rollup[b.prev], 0, Facts(v), totals)
    ensures Publish(MAINNET, db, b, db.canonical + {b.hash}, Loop(PairTables(db, b, mint, v, from, v), PairCoins(db, b, mint, from), v, {}))
            == Ok(AfterPair(db, b, mint, from, v, totals))
  {
    hide FactsOfBlock, ApplyRollup, Extended, Facts, PairCoins;
    var lp := Loop(PairTables(db, b, mint, v, from, v), PairCoins(db, b, mint, from), v, {});
    BlockTotals(b, v, v);
    NothingExcluded(b.txs, 2);
    NextTotals(lp.ar, db.canonical + {b.hash}, db.rollup, b, db.checkpoint, v, totals);
    QuietPublish(db, b, db.canonical + {b.hash}, lp, Facts(v), db.rollup[b.hash := totals]);
  }

  lemma PairBlockApplies(db: Database, b: Block, mint: TxId, from: TxId, v: int64, totals: RollupRow)
    requires PairOk(db, b, mint, v, from, v) && v <= FULL && b.height < 500_000 && b.hash !in db.accounting && b.hash !in db.rollup
    requires db.addresses == map[] && db.buckets == EMPTY_BUCKETS
    requires b.prev in db.rollup && Extended(db.rollup[b.prev], 0, Facts(v), totals)
    requires CheckBlock(b).Ok? && CheckContinuity(b, db.checkpoint).Ok?
    requires b.hash !in db.ar.blocks && InsertableHeader(db.ar, b)
    requires forall h :: h in db.canonical ==> HeightOf(db.ar, h) < b.height
    ensures ApplyBlock(MAINNET, db, b) == Ok(AfterPair(db, b, mint, from, v, totals))
  {
    hide CheckBlock, CheckContinuity, Publish, ApplyTxs, Extended, Facts, PairTables, PairCoins, AfterPair;
    NewHeader(db, b);
    BurnHalf(db, b, mint, v, from, v);
    PairPublishes(db, b, mint, from, v, totals);
  }

  function AfterFirst(v: int64): Database
    requires 0 <= v <= FULL
  {
    AfterPair(AfterGenesis(), First(v), Id('5'), Id('5'), v, Totals1(v))
  }

  function AfterSecond(v: int64): Database
    requires 0 <= v <= FULL
  {
    AfterPair(AfterFirst(v), Second(v), Id('6'), Id('5'), v, Totals2(v))
  }

  lemma FirstApplies(v: int64)
    requires 0 <= v <= FULL
    ensures ApplyBlock(MAINNET, AfterGenesis(), First(v)) == Ok(AfterFirst(v))
  {
    hide CheckBlock, ApplyBlock, Mint, Burn, Id;
    TheseDiffer();
    BlockShapes(v);
    PairBlockApplies(AfterGenesis(), First(v), Id('5'), Id('5'), v, Totals1(v));
  }

  lemma SecondExtends(v: int64)
    requires 0 <= v <= FULL
    ensures Extended(Totals1(v), 0, Facts(v), Totals2(v))
  {
  }

  lemma SecondApplies(v: int64)
    requires 0 <= v <= FULL
    ensures ApplyBlock(MAINNET, AfterFirst(v), Second(v)) == Ok(AfterSecond(v))
  {
    hide CheckBlock, ApplyBlock, Mint, Burn, Id, Facts, Totals1, Totals2, Extended;
    TheseDiffer();
    BlockShapes(v);
    MintStored(v);
    SecondExtends(v);
    PairBlockApplies(AfterFirst(v), Second(v), Id('6'), Id('5'), v, Totals2(v));
  }

  lemma SecondCoins(v: int64)
    requires 0 <= v <= FULL
    ensures var c := AfterSecond(v).coins; forall op :: op in c && c[op].spend.None? <==> op == OutPoint(Id('6'), 0)
  {
    hide Id, Mint, Burn, MintRow, BurnRow;
    TheseDiffer();
  }

  lemma SecondValue(v: int64)
    requires 0 <= v <= FULL
    ensures Value(AfterSecond(v).ar, OutPoint(Id('6'), 0)) == v
  {
    hide Id, Mint, Burn, MintRow, BurnRow, PairCoins;
    TheseDiffer();
    MintStored(v);
  }

  lemma OneCoinLeft(v: int64)
    requires 0 <= v <= FULL
    ensures Unspent(AfterSecond(v).ar, AfterSecond(v).coins) == v
  {
    hide Id, AfterSecond, Value;
    SecondCoins(v);
    SecondValue(v);
    var db, op := AfterSecond(v), OutPoint(Id('6'), 0);
    assert UnspentValues(db.ar, db.coins) == map[op := v];
    var none: map<OutPoint, int> := map[];
    Sums.SumPut(none, op, v);
    assert none[op := v] == map[op := v];
  }

  /** Three accepted blocks, the last repeating a transaction of the one before it: the
      stored supply is 0 and the unspent rows are worth v. */
  lemma DerivedSupplyWrong(v: int64)
    requires 0 < v <= FULL
    ensures ApplyAll(MAINNET, EMPTY, [Genesis(), First(v), Second(v)]) == Ok(AfterSecond(v))
    ensures var db := AfterSecond(v);
            && db.checkpoint.hash in db.rollup
            && db.rollup[db.checkpoint.hash].utxoValue == 0
            && Unspent(db.ar, db.coins) == v
  {
    hide ApplyBlock, Genesis, First, AfterGenesis, AfterFirst, AfterPair, Unspent;
    FirstReached(v);
    SecondApplies(v);
    OneCoinLeft(v);
    SecondTip(v);
    var bs := [Genesis(), First(v), Second(v)];
    assert bs[..2] == [Genesis(), First(v)];
  }

  lemma SecondTip(v: int64)
    requires 0 <= v <= FULL
    ensures var db := AfterSecond(v); db.checkpoint.hash in db.rollup && db.rollup[db.checkpoint.hash] == Totals2(v)
  {
  }

  // --- a third repetition that leaves less than nothing ---

  /** Repeats the burnt transaction without minting anything. */
  function Broken(): Block {
    Block(Id('3'), 2, Id('2'), "", 2, [Mint(Id('6'), 0), Burn(Id('7'), Id('5'))])
  }

  lemma BrokenShape()
    ensures CheckBlock(Broken()).Ok?
  {
    Shapes(Id('6'), "", 0);
    Shapes(Id('7'), Id('5'), 0);
  }

  lemma BrokenFacts(v: int64)
    requires 0 <= v <= FULL
    ensures |Broken().txs| == 2
    ensures FactsOfBlock(MAINNET, Broken(), v) == Ok(BlockFacts(FULL, v, 0, FULL + v))
  {
    var outs := Bodies(Broken().txs[0].outputs);
    FullSubsidy(2);
    assert OutputSum(outs, 0) == Ok(0);
    assert OutputSum(outs, 1) == Ok(0);
  }

  lemma NegativeRow(ar: Archive, canonical: set<Hash>, rollup: map<Hash, RollupRow>, b: Block, before: Checkpoint, v: int64)
    requires 0 < v <= FULL && b.height != 0 && b.prev in rollup && rollup[b.prev] == Totals1(v)
    requires ExcludedSums(b.txs, false, |b.txs|) == Ok(0)
    ensures ApplyRollup(ar, canonical, rollup, b, before, BlockFacts(FULL, v, 0, FULL + v)) == Err(RollupInvariant)
  {
  }

  lemma RefusedByRollup(db: Database, b: Block, canonical: set<Hash>, lp: Loop, facts: BlockFacts)
    requires |b.txs| > 0 && lp.touched == {} && db.addresses == map[] && db.buckets == EMPTY_BUCKETS
    requires FactsOfBlock(MAINNET, b, lp.fee) == Ok(facts) && b.hash !in db.accounting
    requires ApplyRollup(lp.ar, canonical, db.rollup, b, db.checkpoint, facts) == Err(RollupInvariant)
    ensures Publish(MAINNET, db, b, canonical, lp) == Err(RollupInvariant)
  {
    hide FactsOfBlock, ApplyRollup, SliceFits;
    assert Refresh(map[], lp.ar, lp.coins, {}) == map[];
    BucketsStay();
  }

  lemma BrokenPublish(v: int64, canonical: set<Hash>, lp: Loop)
    requires 0 < v <= FULL && lp.touched == {} && lp.fee == v
    ensures |Broken().txs| == 2 && Publish(MAINNET, AfterFirst(v), Broken(), canonical, lp) == Err(RollupInvariant)
  {
    hide FactsOfBlock, ApplyRollup, PairTables, PairCoins, Publish;
    TheseDiffer();
    BrokenFacts(v);
    NothingExcluded(Broken().txs, 2);
    NegativeRow(lp.ar, canonical, AfterFirst(v).rollup, Broken(), AfterFirst(v).checkpoint, v);
    RefusedByRollup(AfterFirst(v), Broken(), canonical, lp, BlockFacts(FULL, v, 0, FULL + v));
  }

  /** ErrRollupInvariant can be reached: this block's every transaction is accepted, its
      coinbase claims nothing, and the derived supply would be -v. */
  lemma InvariantErrorReached(v: int64)
    requires 0 < v <= FULL
    ensures ApplyAll(MAINNET, EMPTY, [Genesis(), First(v)]) == Ok(AfterFirst(v))
    ensures ApplyBlock(MAINNET, AfterFirst(v), Broken()) == Err(RollupInvariant)
  {
    hide CheckBlock, Mint, Burn, Id, ApplyTxs, Publish, AfterFirst;
    FirstReached(v);
    BrokenShape();
    BrokenAdmitted(v);
    BrokenLoop(v);
    BrokenPublish(v, AfterFirst(v).canonical + {Id('3')},
                  Loop(PairTables(AfterFirst(v), Broken(), Id('6'), 0, Id('5'), v), PairCoins(AfterFirst(v), Broken(), Id('6'), Id('5')), v, {}));
  }

  lemma FirstReached(v: int64)
    requires 0 <= v <= FULL
    ensures ApplyAll(MAINNET, EMPTY, [Genesis(), First(v)]) == Ok(AfterFirst(v))
  {
    hide ApplyBlock, Genesis, First, AfterGenesis, AfterFirst, AfterPair;
    GenesisApplies();
    FirstApplies(v);
    var bs := [Genesis(), First(v)];
    assert bs[..1] == [Genesis()] && bs[..1][..0] == [];
    assert ApplyAll(MAINNET, EMPTY, bs[..1][..0]) == Ok(EMPTY);
    assert ApplyAll(MAINNET, EMPTY, bs[..1]) == Ok(AfterGenesis());
  }

  lemma BrokenAdmitted(v: int64)
    requires 0 < v <= FULL && CheckBlock(Broken()).Ok?
    ensures Admit(AfterFirst(v), Broken()) == Ok(Header(Start(AfterFirst(v), Broken()), AfterFirst(v).canonical + {Id('3')}, true))
  {
    hide CheckBlock, Mint, Burn, Id, PairCoins, Admit;
    TheseDiffer();
    NewHeader(AfterFirst(v), Broken());
  }

  lemma BrokenLoop(v: int64)
    requires 0 < v <= FULL
    ensures ApplyTxs(Start(AfterFirst(v), Broken()), AfterFirst(v).coins, Broken(), 2)
            == Ok(Loop(PairTables(AfterFirst(v), Broken(), Id('6'), 0, Id('5'), v), PairCoins(AfterFirst(v), Broken(), Id('6'), Id('5')), v, {}))
  {
    hide CheckBlock, Mint, Burn, Id, ApplyTxs;
    TheseDiffer();
    MintStored(v);
    BurnHalf(AfterFirst(v), Broken(), Id('6'), 0, Id('5'), v);
  }
}
