/** Bounds: what the coin set, every balance and every bucket can hold. */
module Supply {
  import opened Wrappers
  import opened Int64
  import opened Sums
  import opened Chain
  import opened Tables
  import opened Accounting
  import opened Coins
  import opened TxFacts
  import opened Cache
  import opened Distribution
  import opened StoreSpec
  import opened Integrity
  import opened BlockLoop
  import opened Replay
  import opened Coherence
  import opened Conservation
  import opened Respending

  // --- nothing but a coinbase ever adds value ---

  lemma {:induction false} ExcludedOfNonNegative(outs: seq<OutBody>, genesis: bool, k: nat)
    requires k <= |outs| && NonNegativeOutputs(outs)
    ensures 0 <= ExcludedOf(outs, genesis, k) <= OutputTotal(outs, k)
    ensures (forall i :: 0 <= i < k ==> Excluded(outs[i], genesis)) ==> ExcludedOf(outs, genesis, k) == OutputTotal(outs, k)
  {
    if k > 0 {
      ExcludedOfNonNegative(outs, genesis, k - 1);
    }
  }

  lemma {:induction false} GenesisCreatesNothing(h: Hash, txid: TxId, outs: seq<OutBody>, k: nat)
    requires k <= |outs|
    ensures Creates(map[], h, txid, outs, true, k) == map[]
  {
    if k > 0 {
      GenesisCreatesNothing(h, txid, outs, k - 1);
    }
  }

  lemma {:induction false} GenesisSpendsNothing(h: Hash, txid: TxId, ins: seq<Input>, k: nat)
    requires k <= |ins|
    ensures Spends(map[], h, txid, ins, k) == map[]
  {
    if k > 0 {
      GenesisSpendsNothing(h, txid, ins, k - 1);
    }
  }

  /** The genesis block leaves the coin set empty. */
  lemma {:induction false} GenesisHasNoCoins(txs: map<TxId, TxRow>, h: Hash, ids: seq<TxId>, k: nat)
    requires k <= |ids|
    ensures BlockEffect(txs, map[], h, true, ids, k) == map[]
  {
    if k > 0 {
      GenesisHasNoCoins(txs, h, ids, k - 1);
      if ids[k - 1] in txs {
        var row := txs[ids[k - 1]];
        GenesisCreatesNothing(h, ids[k - 1], row.outputs, |row.outputs|);
        GenesisSpendsNothing(h, ids[k - 1], row.inputs, |row.inputs|);
      }
    }
  }

  /** So only coinbase transactions fit into a block at height 0. */
  lemma GenesisIsCoinbaseOnly(ar: Archive, chain: seq<Hash>, n: nat, x: TxId)
    requires ArchiveOk(ar) && ChainOk(ar, chain) && n < |chain|
    requires HeightOf(ar, chain[n]) == 0 && x in TxIdsOf(ar, chain[n])
    ensures x in ar.txs && ar.txs[x].isCoinbase
  {
    assert chain[0] in ar.blocks && BlockRowOk(ar, chain[0]);
    assert chain[n] in ar.blocks;
    assert n == 0;
    var ids := TxIdsOf(ar, chain[0]);
    var m :| 0 <= m < |ids| && ids[m] == x;
    assert chain[..0] == [];
    assert BlockValid(ar, CoinsOf(ar, chain[..0]), chain[0]);
    assert ValidAt(ar.txs, map[], chain[0], true, ids, m);
    GenesisHasNoCoins(ar.txs, chain[0], ids, m);
    assert TxRowOk(ar, x);
    NothingSpendable(x, ar.txs[x].inputs);
  }

  lemma NothingSpendable(txid: TxId, ins: seq<Input>)
    requires |ins| > 0
    ensures !InputsSpendable(map[], txid, ins, |ins|)
  {
    if ins[0].prev.Some? {
      assert !Spendable(map[], ins[0].prev.value, txid, 0);
    }
  }

  /** A transaction that repeats can only have excluded outputs. */
  lemma RepeatedOutputsExcluded(ar: Archive, chain: seq<Hash>, n: nat, j: nat, i: nat)
    requires Sited(ar, chain, j, i) && n < j && TxIdsOf(ar, chain[j])[i] in TxIdsOf(ar, chain[n])
    ensures var x := TxIdsOf(ar, chain[j])[i];
            && x in ar.txs
            && (ar.txs[x].isCoinbase
                || forall v :: 0 <= v < |ar.txs[x].outputs| ==> Excluded(ar.txs[x].outputs[v], HeightOf(ar, chain[j]) == 0))
  {
    hide ArchiveOk, CoinsOk, CoinsMet;
    var x, ids, genesis := TxIdsOf(ar, chain[j])[i], TxIdsOf(ar, chain[j]), HeightOf(ar, chain[j]) == 0;
    OccurredIsSettled(ar, chain, n, x, j, i);
    NewAtSite(ar, chain, j, i);
    LaterIsNotGenesis(ar, chain, n, j);
    if HeightOf(ar, chain[n]) == 0 {
      GenesisIsCoinbaseOnly(ar, chain, n, x);
    } else {
      SettledAndNew(CoinsMet(ar, chain, j, i), x, ar.txs[x], false);
    }
  }

  lemma SettledAndNew(c: CoinSet, x: TxId, row: TxRow, genesis: bool)
    requires Settled(c, x, row, genesis) && OutputsNew(c, x, row.outputs, genesis, |row.outputs|)
    ensures forall v :: 0 <= v < |row.outputs| ==> Excluded(row.outputs[v], genesis)
  {
  }

  lemma LaterIsNotGenesis(ar: Archive, chain: seq<Hash>, n: nat, j: nat)
    requires ArchiveOk(ar) && Linked(ar, chain) && n < j < |chain|
    ensures HeightOf(ar, chain[j]) > 0
  {
    assert chain[0] in ar.blocks && BlockRowOk(ar, chain[0]);
    assert chain[j] in ar.blocks;
  }

  lemma NewAtSite(ar: Archive, chain: seq<Hash>, j: nat, i: nat)
    requires Sited(ar, chain, j, i)
    ensures var x := TxIdsOf(ar, chain[j])[i];
            x in ar.txs && OutputsNew(CoinsMet(ar, chain, j, i), x, ar.txs[x].outputs, HeightOf(ar, chain[j]) == 0, |ar.txs[x].outputs|)
  {
    var h, ids := chain[j], TxIdsOf(ar, chain[j]);
    assert h in ar.blocks && BlockRowOk(ar, h);
    assert BlockValid(ar, CoinsOf(ar, chain[..j]), h);
    assert ValidAt(ar.txs, CoinsOf(ar, chain[..j]), h, HeightOf(ar, h) == 0, ids, i);
    NotMentioned(ar, chain, j);
    TransactionIsNew(ar, CoinsOf(ar, chain[..j]), h, HeightOf(ar, h) == 0, ids, i);
  }

  /** What a transaction re-spends is covered by its fee and its excluded outputs. */
  lemma RespentCovered(ar: Archive, chain: seq<Hash>, j: nat, i: nat)
    requires Sited(ar, chain, j, i)
    ensures var x := TxIdsOf(ar, chain[j])[i];
            && x in ar.txs
            && TxRespent(ar, CoinsMet(ar, chain, j, i), ar.txs[x])
               <= FeeValue(ar.txs[x]) + ExcludedOf(ar.txs[x].outputs, HeightOf(ar, chain[j]) == 0, |ar.txs[x].outputs|)
  {
    hide CoinsMet, ChainOk, CoinsOk, TxRespent, InputTotal, OutputTotal;
    var x, genesis := TxIdsOf(ar, chain[j])[i], HeightOf(ar, chain[j]) == 0;
    SiteRespent(ar, chain, j, i);
    assert TxRowOk(ar, x);
    var outs := ar.txs[x].outputs;
    ExcludedOfNonNegative(outs, genesis, |outs|);
    if Occurs(ar, chain[..j], x) {
      var n :| 0 <= n < j && x in TxIdsOf(ar, chain[..j][n]);
      RepeatedOutputsExcluded(ar, chain, n, j, i);
      WorthOfCoinbase(ar, x);
    }
  }

  lemma WorthOfCoinbase(ar: Archive, x: TxId)
    ensures x in ar.txs && ar.txs[x].isCoinbase ==> Worth(ar, x) == 0
  {
  }

  lemma {:induction false} BlockRespentCovered(ar: Archive, chain: seq<Hash>, j: nat, k: nat)
    requires ArchiveOk(ar) && ChainOk(ar, chain) && CoinsOk(ar, CoinsOf(ar, chain))
    requires j < |chain| && k <= |TxIdsOf(ar, chain[j])|
    ensures var ids, genesis := TxIdsOf(ar, chain[j]), HeightOf(ar, chain[j]) == 0;
            RespentUpTo(ar, CoinsOf(ar, chain[..j]), chain[j], genesis, ids, k)
            <= FeeTotal(ar.txs, ids, k) + ExcludedTotal(ar.txs, genesis, ids, k)
  {
    hide ArchiveOk, ChainOk, CoinsOk, TxRespent, ExcludedOf;
    if k > 0 {
      BlockRespentCovered(ar, chain, j, k - 1);
      RespentCovered(ar, chain, j, k - 1);
    }
  }

  /** Every block adds at most its coinbase to the unspent total, re-spends or not. */
  lemma BlockAddsAtMostCoinbase(ar: Archive, chain: seq<Hash>, n: nat)
    requires ArchiveOk(ar) && ChainOk(ar, chain) && CoinsOk(ar, CoinsOf(ar, chain)) && n < |chain|
    ensures Unspent(ar, CoinsOf(ar, chain[..n + 1])) <= Unspent(ar, CoinsOf(ar, chain[..n])) + CoinbaseTotal(ar, chain[n])
  {
    hide ArchiveOk, ChainOk, CoinsOk, CoinbaseTotal, RespentUpTo, FeeTotal, ExcludedTotal;
    ChainOkPrefix(ar, chain, n + 1);
    var prefix := chain[..n + 1];
    assert prefix[n] == chain[n] && prefix[..n] == chain[..n];
    ChainBalance(ar, prefix);
    BlockRespentCovered(ar, chain, n, |TxIdsOf(ar, chain[n])|);
  }

  /** The coin set is never worth more than all coinbases ever paid. */
  lemma {:induction false} UnspentBelowCoinbase(sch: SubsidySchedule, db: Database, chain: seq<Hash>, n: nat)
    requires Sound(sch) && Ledgered(sch, db, chain) && CoinsOk(db.ar, CoinsOf(db.ar, chain)) && 0 < n <= |chain|
    ensures chain[n - 1] in db.rollup
    ensures Unspent(db.ar, CoinsOf(db.ar, chain[..n])) <= db.rollup[chain[n - 1]].coinbase <= MAX_INT64
  {
    hide ArchiveOk, ChainOk, CoinsOk, AccountingOk, RollupOk, CoinbaseTotal, BlockFees, BlockExcluded;
    BlockAddsAtMostCoinbase(db.ar, chain, n - 1);
    RollupAt(sch, db, chain, n - 1);
    if n == 1 {
      NothingUnspent(db.ar);
      assert chain[..0] == [];
    } else {
      UnspentBelowCoinbase(sch, db, chain, n - 1);
    }
  }

  // --- scheduled supply ---

  lemma {:induction false} SubsidyOfChain(sch: SubsidySchedule, db: Database, chain: seq<Hash>, n: nat)
    requires Sound(sch) && Ledgered(sch, db, chain) && 0 < n <= |chain|
    ensures chain[n - 1] in db.rollup
    ensures db.rollup[chain[n - 1]].subsidy == SubsidySum(sch, n)
  {
    hide ArchiveOk, ChainValid, AccountingOk, RollupOk, BlockFees, CoinbaseTotal, BlockExcluded;
    RollupAt(sch, db, chain, n - 1);
    assert db.ar.blocks[chain[n - 1]].height == n - 1;
    if n > 1 {
      SubsidyOfChain(sch, db, chain, n - 1);
    }
  }

  /** The derived coin-set value never exceeds what the schedule allows up to the tip. */
  lemma DerivedBelowSchedule(sch: SubsidySchedule, db: Database, chain: seq<Hash>, n: nat)
    requires Sound(sch) && Ledgered(sch, db, chain) && 0 < n <= |chain|
    ensures chain[n - 1] in db.rollup
    ensures 0 <= db.rollup[chain[n - 1]].utxoValue <= SubsidySum(sch, n) <= 2 * sch.interval * sch.initial
  {
    hide ArchiveOk, ChainOk, AccountingOk, RollupOk, BlockFees, CoinbaseTotal, BlockExcluded;
    SubsidyOfChain(sch, db, chain, n);
    RollupAt(sch, db, chain, n - 1);
    SubsidyBound(sch, n);
  }

  /** The whole coin set fits the schedule, unless value was re-spent. */
  lemma UnspentBelowSchedule(sch: SubsidySchedule, db: Database, chain: seq<Hash>)
    requires Sound(sch) && Coherent(sch, db, chain) && GenesisRooted(db.ar, chain) && Residue(db.ar, chain) == 0
    ensures db.checkpoint.height == |chain| - 1
    ensures 0 <= Unspent(db.ar, db.coins) <= SubsidySum(sch, |chain|) < 0x8000_0000_0000_0000
  {
    hide ArchiveOk, ChainValid, AccountingOk, RollupOk, CoinsOk, Unspent;
    CoherentIsLedgered(sch, db, chain);
    SupplyConservation(sch, db, chain);
    DerivedBelowSchedule(sch, db, chain, |chain|);
    assert db.ar.blocks[chain[|chain| - 1]].height == |chain| - 1;
  }

  // --- balances and buckets ---

  function HeldBy(ar: Archive, c: CoinSet, s: set<Address>): map<OutPoint, int> {
    map op | op in c && c[op].spend.None? && op in ar.outAddrs && ar.outAddrs[op] in s :: Value(ar, op)
  }

  lemma HeldByOne(ar: Archive, c: CoinSet, a: Address)
    ensures HeldBy(ar, c, {a}) == Held(SliceOf(ar, c, a))
  {
  }

  lemma BalanceIsHeld(m: map<Address, AddressRow>, ar: Archive, c: CoinSet, a: Address)
    requires CacheCoherent(m, ar, c) && a in m
    ensures m[a].balance == Sum(HeldBy(ar, c, {a}))
  {
    assert RowCoherent(m, ar, c, a);
    HeldByOne(ar, c, a);
  }

  lemma HeldSplits(ar: Archive, c: CoinSet, s: set<Address>, a: Address)
    requires a in s
    ensures Sum(HeldBy(ar, c, s)) == Sum(HeldBy(ar, c, {a})) + Sum(HeldBy(ar, c, s - {a}))
  {
    var all, one, rest := HeldBy(ar, c, s), HeldBy(ar, c, {a}), HeldBy(ar, c, s - {a});
    SumSplit(all, one.Keys);
    assert (map op | op in all && op in one.Keys :: all[op]) == one;
    assert all - one.Keys == rest;
  }

  /** The balances of a set of addresses add up to the coins they hold. */
  lemma {:induction false} BalancesAreHeld(m: map<Address, AddressRow>, ar: Archive, c: CoinSet, s: set<Address>)
    requires CacheCoherent(m, ar, c) && s <= m.Keys
    ensures Sum(Balances(m, s)) == Sum(HeldBy(ar, c, s))
    decreases |s|
  {
    if s == {} {
      assert Balances(m, s) == map[];
      assert HeldBy(ar, c, s) == map[];
    } else {
      var a := Pick(s);
      BalancesAreHeld(m, ar, c, s - {a});
      SumTake(Balances(m, s), a);
      assert Balances(m, s) - {a} == Balances(m, s - {a});
      BalanceIsHeld(m, ar, c, a);
      HeldSplits(ar, c, s, a);
    }
  }

  /** No bucket holds more than the whole coin set. */
  lemma BucketBelowUnspent(m: map<Address, AddressRow>, ar: Archive, c: CoinSet, i: nat)
    requires CacheCoherent(m, ar, c) && Backed(ar, c)
    ensures HistBalance(m, i) <= Unspent(ar, c)
  {
    BalancesAreHeld(m, ar, c, Members(m, i));
    SumMonotone(HeldBy(ar, c, Members(m, i)), UnspentValues(ar, c));
  }

  lemma BucketsAccept(b: seq<BucketRow>, m: map<Address, AddressRow>, n: map<Address, AddressRow>, ar: Archive, c: CoinSet)
    requires BucketsCoherent(b, m) && CacheCoherent(n, ar, c) && Backed(ar, c) && Unspent(ar, c) <= MAX_INT64
    ensures BucketsAfter(b, m, n).Ok?
  {
    hide BucketsCoherent, CacheCoherent, BucketsAfter;
    BucketsAfterIff(b, m, n);
    forall i | 0 <= i < 8
      ensures NonNegativeRow(Rescanned(n, i))
    {
      BucketBelowUnspent(n, ar, c, i);
      RescannedNonNegative(n, i);
    }
  }

  lemma BucketsEqualHistogram(b: seq<BucketRow>, m: map<Address, AddressRow>, ar: Archive, c: CoinSet)
    requires BucketsCoherent(b, m) && CacheCoherent(m, ar, c) && Backed(ar, c) && Unspent(ar, c) <= MAX_INT64
    ensures forall i :: 0 <= i < 8 ==> b[i].count == HistCount(m, i) && b[i].balance == HistBalance(m, i)
  {
    hide CacheCoherent;
    forall i | 0 <= i < 8
      ensures b[i].count == HistCount(m, i) && b[i].balance == HistBalance(m, i)
    {
      BucketBelowUnspent(m, ar, c, i);
      BucketExact(b, m, i);
    }
  }

  lemma UnspentFits(sch: SubsidySchedule, db: Database, chain: seq<Hash>, n: nat)
    requires Sound(sch) && Coherent(sch, db, chain) && GenesisRooted(db.ar, chain) && n <= |chain|
    ensures Unspent(db.ar, CoinsOf(db.ar, chain[..n])) <= MAX_INT64
  {
    hide ArchiveOk, ChainOk, AccountingOk, RollupOk, CoinsOk, Unspent;
    CoherentIsLedgered(sch, db, chain);
    if n > 0 {
      UnspentBelowCoinbase(sch, db, chain, n);
    } else {
      NothingUnspent(db.ar);
      assert chain[..0] == [];
    }
  }

  /** In a store indexed from genesis every bucket is the exact histogram of all
      positive balances: no addition on it ever wrapped. */
  lemma BucketsAreExact(sch: SubsidySchedule, db: Database, chain: seq<Hash>)
    requires Sound(sch) && Coherent(sch, db, chain) && GenesisRooted(db.ar, chain)
    ensures forall i :: 0 <= i < 8 ==>
              db.buckets[i].count == HistCount(db.addresses, i) && db.buckets[i].balance == HistBalance(db.addresses, i)
  {
    hide ChainOk, AccountingOk, RollupOk, Unspent, CacheCoherent, BucketsCoherent, CoinsOf;
    UnspentFits(sch, db, chain, |chain|);
    assert chain[..|chain|] == chain;
    CoinsBacked(db.ar, db.coins);
    BucketsEqualHistogram(db.buckets, db.addresses, db.ar, db.coins);
  }
}
