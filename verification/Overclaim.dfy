/** An overclaiming coinbase can be reported as a broken invariant: the buckets are updated
    before the reward is checked, and two outputs are enough to overflow one. */
module Overclaim {
  import opened Wrappers
  import opened Errors
  import opened Int64
  import opened Sums
  import opened Chain
  import opened Tables
  import opened Accounting
  import opened Shape
  import opened Coins
  import opened TxSpec
  import opened Cache
  import opened Distribution
  import opened StoreSpec
  import opened Coherence
  import opened Recovery
  import opened InternalErrors
  import opened Overcount
  import opened Regained

  const LEFT := "b"
  const RIGHT := "c"

  function GreedyTx(): Transaction {
    Transaction(Id('5'), "", true, [Input(0, None, [1], [], 0)],
                [Output(OutBody(0, MAX_INT64, []), LEFT), Output(OutBody(1, MAX_INT64, []), RIGHT)])
  }

  /** Claims twice the largest int64. */
  function Greedy(): Block {
    Block(Id('2'), 1, Id('1'), "", 1, [GreedyTx()])
  }

  function First(): OutPoint {
    OutPoint(Id('5'), 0)
  }

  function Second(): OutPoint {
    OutPoint(Id('5'), 1)
  }

  function GreedyCoins(): CoinSet {
    map[First() := Coin(Id('2'), None), Second() := Coin(Id('2'), None)]
  }

  function GreedyTables(): Archive {
    var g := AfterGenesis();
    Archive(g.ar.blocks[Id('2') := BlockRow(1, Id('1'), "", 1)], g.ar.blockTxs[Id('2') := [Id('5')]],
            g.ar.txs[Id('5') := RowOf(GreedyTx(), None)], map[First() := LEFT, Second() := RIGHT])
  }

  lemma GreedyShape()
    ensures CheckBlock(Greedy()).Ok?
  {
    TransactionShape(GreedyTx(), 0);
    assert CheckTransaction(GreedyTx(), 0).Ok?;
  }

  lemma GreedyApplies()
    ensures ApplyTx(Start(AfterGenesis(), Greedy()), map[], Id('2'), 0, GreedyTx(), false)
            == Ok(TxStep(GreedyTables(), GreedyCoins(), None, {LEFT, RIGHT}))
  {
    hide Id;
    TheseDiffer();
    var ar, h, x, txn := Start(AfterGenesis(), Greedy()), Id('2'), Id('5'), GreedyTx();
    var row := RowOf(txn, None);
    assert TxIdsOf(ar, h) + [x] == [x];
    var ar1 := Persist(ar, h, 0, x, row).value;
    assert ar1 == GreedyTables().(outAddrs := map[]);
    var s0 := OutStep(map[], map[]);
    var s1 := OutStep(map[First() := LEFT], map[First() := Coin(h, None)]);
    var s2 := OutStep(GreedyTables().outAddrs, GreedyCoins());
    assert PersistOutputs(s0, h, x, txn.outputs, false, true, 0) == Ok(s0);
    assert PersistOutput(s0, h, First(), txn.outputs[0], false, true) == Ok(s1);
    assert PersistOutputs(s0, h, x, txn.outputs, false, true, 1) == Ok(s1);
    assert PersistOutput(s1, h, Second(), txn.outputs[1], false, true) == Ok(s2);
    assert PersistOutputs(s0, h, x, txn.outputs, false, true, 2) == Ok(s2);
    assert txn.outputs[0].address in OutAddresses(txn.outputs, 2) && txn.outputs[1].address in OutAddresses(txn.outputs, 2);
    assert OutAddresses(txn.outputs, 2) == {LEFT, RIGHT};
  }

  lemma GreedyLoop()
    ensures LoopOf(AfterGenesis(), Greedy()) == Ok(Loop(GreedyTables(), GreedyCoins(), 0, {LEFT, RIGHT}))
  {
    hide CheckBlock, ApplyTx, GreedyTx, GreedyTables, GreedyCoins, Id, Admit;
    TheseDiffer();
    GreedyShape();
    NewHeader(AfterGenesis(), Greedy());
    GreedyApplies();
    var ar, b := Start(AfterGenesis(), Greedy()), Greedy();
    assert ApplyTxs(ar, map[], b, 0) == Ok(Loop(ar, map[], 0, {}));
    assert {} + {LEFT, RIGHT} == {LEFT, RIGHT};
  }

  lemma GreedyValues()
    ensures Value(GreedyTables(), First()) == MAX_INT64 && Value(GreedyTables(), Second()) == MAX_INT64
  {
    hide Id;
    TheseDiffer();
  }

  lemma OwnsOne(a: Address, op: OutPoint)
    requires (a == LEFT && op == First()) || (a == RIGHT && op == Second())
    ensures var s := SliceOf(GreedyTables(), GreedyCoins(), a);
            s != map[] && SliceFits(s) && Summary(s).balance == MAX_INT64
  {
    hide Id, Value, HeightOf, SliceFits;
    GreedyValues();
    var ar, c := GreedyTables(), GreedyCoins();
    assert SliceOf(ar, c, a) == map[op := ActivityOf(ar, op, c[op])];
    OneFits(op, MAX_INT64, ActivityOf(ar, op, c[op]));
    OneBalance(op, MAX_INT64, ActivityOf(ar, op, c[op]));
  }

  lemma OneBalance(op: OutPoint, v: int64, act: Activity)
    requires act.value == v && act.spend.None?
    ensures var s := map[op := act]; s != map[] && Summary(s).balance == v
  {
    var s := map[op := act];
    assert op in s;
    assert Held(s) == map[op := v as int];
    SumOfOne(op, v);
  }

  lemma GreedyRows() returns (m: map<Address, AddressRow>)
    ensures RefreshChecked(map[], GreedyTables(), GreedyCoins(), {LEFT, RIGHT}) == Ok(m)
    ensures m.Keys == {LEFT, RIGHT} && m[LEFT].balance == MAX_INT64 && m[RIGHT].balance == MAX_INT64
  {
    hide GreedyTables, GreedyCoins, SliceOf, SliceFits, First, Second;
    OwnsOne(LEFT, First());
    OwnsOne(RIGHT, Second());
    m := Refresh(map[], GreedyTables(), GreedyCoins(), {LEFT, RIGHT});
  }

  lemma TopBucketOverflows(m: map<Address, AddressRow>)
    requires m.Keys == {LEFT, RIGHT} && m[LEFT].balance == MAX_INT64 && m[RIGHT].balance == MAX_INT64
    ensures SomeBucketNegative(m)
  {
    assert Within(7, MAX_INT64);
    assert BucketOf(MAX_INT64) == Some(7);
    assert Members(m, 7) == {LEFT, RIGHT};
    var one: map<Address, int> := map[LEFT := MAX_INT64 as int];
    assert Balances(m, {LEFT, RIGHT}) == one[RIGHT := MAX_INT64 as int];
    var none: map<Address, int> := map[];
    SumPut(none, LEFT, MAX_INT64);
    assert none[LEFT := MAX_INT64 as int] == one;
    SumPut(one, RIGHT, MAX_INT64);
    assert HistBalance(m, 7) == 2 * MAX_INT64 as int;
    TwiceTheLargest();
  }

  lemma TwiceTheLargest()
    ensures Wrap(2 * MAX_INT64 as int) < 0
  {
  }

  /** One block on genesis, refused by the buckets and not for its claim. */
  lemma OverclaimBreaksBuckets()
    ensures ApplyAll(MAINNET, EMPTY, [Genesis()]) == Ok(AfterGenesis())
    ensures ApplyBlock(MAINNET, AfterGenesis(), Greedy()) == Err(DistributionInvariant)
  {
    hide ApplyBlock, Genesis, Greedy, Coherent, LoopOf, GreedyTables, GreedyCoins, RefreshChecked, SomeBucketNegative;
    GenesisApplies();
    var bs := [Genesis()];
    assert bs[..0] == [];
    assert ApplyAll(MAINNET, EMPTY, bs[..0]) == Ok(EMPTY);
    EmptyIsCoherent(MAINNET);
    var chain := RunOnBase(MAINNET, EMPTY, [], bs, AfterGenesis());
    GreedyLoop();
    var m := GreedyRows();
    TopBucketOverflows(m);
    assert AtBuckets(AfterGenesis(), Greedy(), Loop(GreedyTables(), GreedyCoins(), 0, {LEFT, RIGHT}), m);
    InvariantErrorsIff(MAINNET, AfterGenesis(), chain, Greedy());
  }
}
