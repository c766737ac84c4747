/** Why rolling back is not always the exact inverse: replaying the tip with a destination
    that was not named the first time is accepted, and the rollback that follows keeps it. */
module Regained {
  import opened Wrappers
  import opened Int64
  import opened Sums
  import opened Chain
  import opened Tables
  import opened Accounting
  import opened Shape
  import opened TxSpec
  import opened TxFacts
  import opened Cache
  import opened Distribution
  import opened StoreSpec
  import opened Integrity
  import opened Coherence
  import opened Conservation
  import opened Supply
  import opened Determined
  import opened Prefixes
  import opened Recovery
  import opened Inverse
  import opened Republication
  import opened Overcount
  import opened Originals
  import opened Reorgs

  function MintTo(v: int64, a: Address): Transaction {
    Transaction(Id('5'), "", true, [Input(0, None, [1], [], 0)], [Output(OutBody(0, v, []), a)])
  }

  /** The block after the first, with or without a destination for its only output. */
  function Only(v: int64, a: Address): Block {
    Block(Id('2'), 1, Id('1'), "", 1, [MintTo(v, a)])
  }

  function TheCoin(): OutPoint {
    OutPoint(Id('5'), 0)
  }

  function OnlyFacts(v: int64): BlockFacts
    requires 0 <= v <= FULL
  {
    BlockFacts(FULL, 0, v, FULL - v)
  }

  function OnlyTotals(v: int64): RollupRow
    requires 0 <= v <= FULL
  {
    RollupRow(0, 2 * FULL, 0, v, FULL + (FULL - v), 0, v)
  }

  /** The tables after genesis and the block without destination. */
  function AfterOnly(v: int64): Database
    requires 0 <= v <= FULL
  {
    var g, h := AfterGenesis(), Id('2');
    var tip := Checkpoint(1, h);
    Database(Archive(g.ar.blocks[h := BlockRow(1, Id('1'), "", 1)], g.ar.blockTxs[h := [Id('5')]], g.ar.txs[Id('5') := MintRow(v)], map[]),
             g.canonical + {h}, map[TheCoin() := Coin(h, None)], map[], EMPTY_BUCKETS, tip,
             g.accounting[h := OnlyFacts(v)], g.rollup[h := OnlyTotals(v)], tip)
  }

  lemma OnlyShape(v: int64, a: Address)
    ensures CheckBlock(Only(v, a)).Ok?
  {
    TransactionShape(MintTo(v, a), 0);
    assert CheckTransaction(MintTo(v, a), 0).Ok?;
  }

  lemma OnlyReward(v: int64, a: Address)
    requires 0 <= v <= FULL
    ensures |Only(v, a).txs| == 1 && FactsOfBlock(MAINNET, Only(v, a), 0) == Ok(OnlyFacts(v))
  {
    FullSubsidy(1);
    var outs := Bodies(Only(v, a).txs[0].outputs);
    assert OutputSum(outs, 0) == Ok(0);
    assert OutputSum(outs, 1) == Ok(v);
  }

  lemma OnlyExtends(v: int64)
    requires 0 <= v <= FULL
    ensures Extended(TOTALS_0, 0, OnlyFacts(v), OnlyTotals(v))
  {
  }

  // --- the block without destination ---

  lemma OnlyLoop(v: int64)
    requires 0 <= v <= FULL
    ensures ApplyTxs(Start(AfterGenesis(), Only(v, "")), map[], Only(v, ""), 1)
            == Ok(Loop(AfterOnly(v).ar, AfterOnly(v).coins, 0, {}))
  {
    hide ApplyTx, Id;
    TheseDiffer();
    var b := Only(v, "");
    var ar := Start(AfterGenesis(), b);
    assert MintTo(v, "") == Mint(Id('5'), v);
    MintApplies(ar, map[], b.hash, Id('5'), v, false);
    assert ApplyTxs(ar, map[], b, 0) == Ok(Loop(ar, map[], 0, {}));
    assert var none: set<Address> := {}; none + none == {};
  }

  lemma OnlyRollup(v: int64, a: Address, ar: Archive, canonical: set<Hash>, rollup: map<Hash, RollupRow>, before: Checkpoint)
    requires 0 <= v <= FULL && Id('1') in rollup && rollup[Id('1')] == TOTALS_0
    requires Id('2') in rollup ==> rollup[Id('2')] == OnlyTotals(v)
    ensures ApplyRollup(ar, canonical, rollup, Only(v, a), before, OnlyFacts(v)) == Ok(rollup[Id('2') := OnlyTotals(v)])
  {
    hide ExtendRollup, OnlyFacts, OnlyTotals, Extended, RollupChecks, ExcludedSums;
    OnlyExtends(v);
    NothingExcluded(Only(v, a).txs, 1);
    ExtendAgain(TOTALS_0, 0, OnlyFacts(v), OnlyTotals(v));
  }

  lemma OnlyPublishes(v: int64)
    requires 0 <= v <= FULL
    ensures |Only(v, "").txs| == 1
    ensures Publish(MAINNET, AfterGenesis(), Only(v, ""), AfterGenesis().canonical + {Id('2')}, Loop(AfterOnly(v).ar, AfterOnly(v).coins, 0, {}))
            == Ok(AfterOnly(v))
  {
    hide FactsOfBlock, ApplyRollup, OnlyFacts, OnlyTotals, Id;
    TheseDiffer();
    OnlyReward(v, "");
    var g, lp := AfterGenesis(), Loop(AfterOnly(v).ar, AfterOnly(v).coins, 0, {});
    OnlyRollup(v, "", lp.ar, g.canonical + {Id('2')}, g.rollup, g.checkpoint);
    QuietPublish(g, Only(v, ""), g.canonical + {Id('2')}, lp, OnlyFacts(v), g.rollup[Id('2') := OnlyTotals(v)]);
  }

  lemma OnlyApplies(v: int64)
    requires 0 <= v <= FULL
    ensures ApplyBlock(MAINNET, AfterGenesis(), Only(v, "")) == Ok(AfterOnly(v))
  {
    hide CheckBlock, ApplyTxs, Publish, MintTo, Id;
    TheseDiffer();
    OnlyShape(v, "");
    NewHeader(AfterGenesis(), Only(v, ""));
    OnlyLoop(v);
    OnlyPublishes(v);
  }

  // --- the same block again, now with a destination ---

  function WithDestination(v: int64, a: Address): Archive
    requires 0 <= v <= FULL
  {
    AfterOnly(v).ar.(outAddrs := map[TheCoin() := a])
  }

  lemma ReplayAdmitted(v: int64, a: Address)
    requires 0 <= v <= FULL
    ensures Admit(AfterOnly(v), Only(v, a)) == Ok(Header(AfterOnly(v).ar, AfterOnly(v).canonical, false))
  {
    hide CheckBlock, MintTo, Id;
    TheseDiffer();
    OnlyShape(v, a);
  }

  lemma ReplayTx(v: int64, a: Address)
    requires 0 <= v <= FULL && a != ""
    ensures ApplyTx(AfterOnly(v).ar, AfterOnly(v).coins, Id('2'), 0, MintTo(v, a), false)
            == Ok(TxStep(WithDestination(v, a), AfterOnly(v).coins, None, {a}))
  {
    hide Id;
    TheseDiffer();
    var ar, c, h, x, txn := AfterOnly(v).ar, AfterOnly(v).coins, Id('2'), Id('5'), MintTo(v, a);
    assert RowOf(txn, None) == MintRow(v);
    assert Persist(ar, h, 0, x, MintRow(v)) == Ok(ar);
    var s, m := OutStep(ar.outAddrs, c), map[TheCoin() := a];
    assert ar.outAddrs[TheCoin() := a] == m;
    assert PersistOutputs(s, h, x, txn.outputs, false, false, 0) == Ok(s);
    assert PersistOutput(s, h, TheCoin(), txn.outputs[0], false, false) == Ok(OutStep(m, c));
    assert PersistOutputs(s, h, x, txn.outputs, false, false, 1) == Ok(OutStep(m, c));
    assert txn.outputs[0].address in OutAddresses(txn.outputs, 1);
    assert OutAddresses(txn.outputs, 1) == {a};
  }

  lemma ReplayLoop(v: int64, a: Address)
    requires 0 <= v <= FULL && a != ""
    ensures ApplyTxs(AfterOnly(v).ar, AfterOnly(v).coins, Only(v, a), 1)
            == Ok(Loop(WithDestination(v, a), AfterOnly(v).coins, 0, {a}))
  {
    hide ApplyTx, Id, MintTo;
    ReplayTx(v, a);
    var ar, c, b := AfterOnly(v).ar, AfterOnly(v).coins, Only(v, a);
    assert ApplyTxs(ar, c, b, 0) == Ok(Loop(ar, c, 0, {}));
    assert {} + {a} == {a};
  }

  lemma CoinValue(v: int64, a: Address)
    requires 0 <= v <= FULL
    ensures HasOutput(WithDestination(v, a), TheCoin()) && Value(WithDestination(v, a), TheCoin()) == v
    ensures HasOutput(AfterOnly(v).ar, TheCoin()) && Value(AfterOnly(v).ar, TheCoin()) == v
  {
    hide Id;
    TheseDiffer();
  }

  lemma SumOfOne(op: OutPoint, v: int)
    ensures Sum(map[op := v]) == v
  {
    var none: map<OutPoint, int> := map[];
    SumPut(none, op, v);
    assert none[op := v] == map[op := v];
  }

  lemma SliceOfOne(v: int64, a: Address)
    requires 0 <= v <= FULL
    ensures SliceFits(SliceOf(WithDestination(v, a), AfterOnly(v).coins, a))
  {
    hide Id, Value, HeightOf, SliceFits;
    CoinValue(v, a);
    var ar, c, op := WithDestination(v, a), AfterOnly(v).coins, TheCoin();
    assert SliceOf(ar, c, a) == map[op := ActivityOf(ar, op, c[op])];
    OneFits(op, v, ActivityOf(ar, op, c[op]));
  }

  lemma OneFits(op: OutPoint, v: int64, act: Activity)
    requires act.value == v && act.spend.None?
    ensures SliceFits(map[op := act])
  {
    var s := map[op := act];
    assert Received(s) == map[op := v as int] && Held(s) == map[op := v as int] && Sent(s) == map[];
    SumOfOne(op, v);
    assert TxIdsIn(s) == {op.txid};
  }

  lemma OthersOwnNothing(v: int64, a: Address)
    requires 0 <= v <= FULL
    ensures CacheCoherent(map[], AfterOnly(v).ar, AfterOnly(v).coins)
    ensures SlicesAgreeOff(AfterOnly(v).ar, AfterOnly(v).coins, WithDestination(v, a), AfterOnly(v).coins, {a})
  {
    hide Id;
    forall x
      ensures SliceOf(AfterOnly(v).ar, AfterOnly(v).coins, x) == map[]
      ensures x != a ==> SliceOf(WithDestination(v, a), AfterOnly(v).coins, x) == map[]
    {
    }
  }

  lemma ReplayCaches(v: int64, a: Address)
    requires 0 <= v <= FULL
    ensures var n := Refresh(map[], WithDestination(v, a), AfterOnly(v).coins, {a});
            && RefreshChecked(map[], WithDestination(v, a), AfterOnly(v).coins, {a}) == Ok(n)
            && BucketsAfter(EMPTY_BUCKETS, map[], n).Ok?
  {
    hide Id, Refresh, SliceOf, SliceFits, Value, HasOutput;
    var ar, c, op := WithDestination(v, a), AfterOnly(v).coins, TheCoin();
    SliceOfOne(v, a);
    OthersOwnNothing(v, a);
    RefreshCoherent(map[], AfterOnly(v).ar, c, ar, c, {a});
    CoinValue(v, a);
    assert UnspentValues(ar, c) == map[op := v as int];
    SumOfOne(op, v);
    EmptyBucketsCoherent();
    BucketsAccept(EMPTY_BUCKETS, map[], Refresh(map[], ar, c, {a}), ar, c);
  }

  lemma ReplayPublishes(v: int64, a: Address)
    requires 0 <= v <= FULL
    ensures |Only(v, a).txs| == 1
    ensures Publish(MAINNET, AfterOnly(v), Only(v, a), AfterOnly(v).canonical, Loop(WithDestination(v, a), AfterOnly(v).coins, 0, {a})).Ok?
  {
    hide FactsOfBlock, ApplyRollup, RefreshChecked, BucketsAfter, OnlyFacts, OnlyTotals, Id;
    TheseDiffer();
    ReplayCaches(v, a);
    OnlyReward(v, a);
    var db := AfterOnly(v);
    OnlyRollup(v, a, WithDestination(v, a), db.canonical, db.rollup, db.checkpoint);
  }

  lemma ReplayAccepted(v: int64, a: Address)
    requires 0 <= v <= FULL && a != ""
    ensures ApplyBlock(MAINNET, AfterOnly(v), Only(v, a)).Ok?
  {
    hide ApplyTxs, Publish, Admit, AfterOnly, MintTo, Id;
    ReplayAdmitted(v, a);
    ReplayLoop(v, a);
    ReplayPublishes(v, a);
  }

  lemma OnlyReached(v: int64) returns (chain: seq<Hash>)
    requires 0 <= v <= FULL
    ensures ApplyAll(MAINNET, EMPTY, [Genesis(), Only(v, "")]) == Ok(AfterOnly(v))
    ensures Coherent(MAINNET, AfterOnly(v), chain) && PrefixesFit(AfterOnly(v).ar, chain)
  {
    hide ApplyBlock, Genesis, Only, AfterGenesis, AfterOnly, Coherent, PrefixesFit;
    GenesisApplies();
    OnlyApplies(v);
    var bs := [Genesis(), Only(v, "")];
    assert bs[..1] == [Genesis()] && bs[..1][..0] == [];
    assert ApplyAll(MAINNET, EMPTY, bs[..1][..0]) == Ok(EMPTY);
    assert ApplyAll(MAINNET, EMPTY, bs[..1]) == Ok(AfterGenesis());
    EmptyIsCoherent(MAINNET);
    NothingFits(EMPTY.ar);
    chain := RunOnBase(MAINNET, EMPTY, [], bs, AfterOnly(v));
  }

  lemma OnlyTip(v: int64, chain: seq<Hash>)
    requires 0 <= v <= FULL && Coherent(MAINNET, AfterOnly(v), chain)
    ensures chain != []
  {
    hide ArchiveOk, ChainOk, CoinsOk, AccountingOk, RollupOk, DerivedOk;
  }

  /** The coin gains a destination, and it shows whatever the coin is worth: the address
      had no transaction before. */
  lemma DestinationGained(v: int64, a: Address)
    requires 0 <= v <= FULL && a != ""
    ensures Gains(AfterOnly(v), Only(v, a), TheCoin(), a) && !Invisible(AfterOnly(v), TheCoin(), a)
  {
    hide Id;
    var b := Only(v, a);
    assert Supplies(b.txs[0].txid, b.txs[0].outputs, |b.txs[0].outputs|, TheCoin());
    assert SliceOf(AfterOnly(v).ar, AfterOnly(v).coins, a) == map[];
  }

  /** The inverse fails here: the replay is accepted, the rollback to the same tip is
      accepted, and the address cache is not what it was. */
  lemma RollbackKeepsDestination(v: int64, a: Address) returns (db1: Database, db2: Database)
    requires 0 <= v <= FULL && a != ""
    ensures ApplyAll(MAINNET, EMPTY, [Genesis(), Only(v, "")]) == Ok(AfterOnly(v))
    ensures ApplyAll(MAINNET, AfterOnly(v), [Only(v, a)]) == Ok(db1)
    ensures RollbackTo(db1, AfterOnly(v).checkpoint.hash) == Ok(db2)
    ensures db2.coins == AfterOnly(v).coins && db2.addresses != AfterOnly(v).addresses
  {
    hide ApplyBlock, Coherent, PrefixesFit, AfterOnly, Only, Genesis, Gains, Invisible, SameDerived, RollbackTo;
    var chain := OnlyReached(v);
    OnlyTip(v, chain);
    ReplayAccepted(v, a);
    var db, bs := AfterOnly(v), [Only(v, a)];
    db1 := ApplyBlock(MAINNET, db, Only(v, a)).value;
    assert bs[..0] == [];
    assert ApplyAll(MAINNET, db, bs[..0]) == Ok(db);
    DestinationGained(v, a);
    db2 := RollbackInverse(MAINNET, db, chain, bs, db1);
    assert Gains(db, bs[0], TheCoin(), a);
  }

  lemma TheyDisagree(v: int64, a: Address)
    requires a != ""
    ensures !BlocksAgree(Only(v, ""), Only(v, a))
  {
    assert !SameNames(Only(v, "").txs[0], Only(v, a).txs[0]) by {
      assert Only(v, "").txs[0].outputs[0].address == "" && Only(v, a).txs[0].outputs[0].address == a;
    }
  }

  lemma GenesisReached() returns (chain: seq<Hash>)
    ensures ApplyAll(MAINNET, EMPTY, [Genesis()]) == Ok(AfterGenesis())
    ensures Coherent(MAINNET, AfterGenesis(), chain) && PrefixesFit(AfterGenesis().ar, chain) && chain != []
  {
    hide ApplyBlock, Genesis, AfterGenesis, Coherent, PrefixesFit;
    GenesisApplies();
    var bs := [Genesis()];
    assert bs[..0] == [];
    assert ApplyAll(MAINNET, EMPTY, bs[..0]) == Ok(EMPTY);
    EmptyIsCoherent(MAINNET);
    NothingFits(EMPTY.ar);
    chain := RunOnBase(MAINNET, EMPTY, [], bs, AfterGenesis());
    NotEmpty(chain);
  }

  lemma NotEmpty(chain: seq<Hash>)
    requires Coherent(MAINNET, AfterGenesis(), chain)
    ensures chain != []
  {
    hide ArchiveOk, ChainOk, CoinsOk, AccountingOk, RollupOk, DerivedOk;
  }

  /** The same two calls, undone and made again: the block that was accepted first, without
      a destination, is now refused. */
  lemma UndoneRunRefused(v: int64, a: Address) returns (db1: Database, db2: Database)
    requires 0 <= v <= FULL && a != ""
    ensures ApplyAll(MAINNET, EMPTY, [Genesis()]) == Ok(AfterGenesis())
    ensures ApplyAll(MAINNET, AfterGenesis(), [Only(v, ""), Only(v, a)]) == Ok(db1)
    ensures RollbackTo(db1, AfterGenesis().checkpoint.hash) == Ok(db2)
    ensures ApplyAll(MAINNET, db2, [Only(v, ""), Only(v, a)]).Err?
  {
    hide ApplyBlock, Coherent, PrefixesFit, AfterGenesis, AfterOnly, Only, Genesis, RollbackTo, BlocksAgree;
    var chain := GenesisReached();
    OnlyApplies(v);
    ReplayAccepted(v, a);
    var g, bs := AfterGenesis(), [Only(v, ""), Only(v, a)];
    assert bs[..1] == [Only(v, "")] && bs[..1][..0] == [];
    assert ApplyAll(MAINNET, g, bs[..1][..0]) == Ok(g);
    assert ApplyAll(MAINNET, g, bs[..1]) == Ok(AfterOnly(v));
    db1 := ApplyBlock(MAINNET, AfterOnly(v), Only(v, a)).value;
    db2 := RunReaccepted(MAINNET, g, chain, bs, db1);
    TheyDisagree(v, a);
    assert !BlocksAgree(bs[0], bs[1]);
  }
}
