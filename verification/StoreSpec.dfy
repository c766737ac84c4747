/** What a committed ApplyBlock or RollbackTo leaves in the tables. An Err result
    stands for a rolled-back SQL transaction: every table keeps its old value. */
module StoreSpec {
  import opened Wrappers
  import opened Errors
  import opened Int64
  import opened Chain
  import opened Tables
  import opened Accounting
  import opened Shape
  import opened Coins
  import opened TxSpec
  import opened Cache
  import opened Distribution

  const EMPTY: Database := Database(
    Archive(map[], map[], map[], map[]), {}, map[], map[], EMPTY_BUCKETS, BOOTSTRAP, map[], map[], BOOTSTRAP)

  function InsertOrVerify<K(==), V(==)>(m: map<K, V>, k: K, v: V): (r: Result<map<K, V>, Error>)
    ensures r.Ok? <==> k in m ==> m[k] == v
    ensures r.Ok? ==> r.value == m[k := v]
    ensures r.Err? ==> r.error == ImmutableConflict
  {
    if k in m then
      if m[k] == v then
        assert m[k := v] == m;
        Ok(m)
      else Err(ImmutableConflict)
    else Ok(m[k := v])
  }

  // --- the block header ---

  datatype Header = Header(ar: Archive, canonical: set<Hash>, isNew: bool)

  function HeaderRow(b: Block): BlockRow {
    BlockRow(b.height, b.prev, b.header, b.txCount)
  }

  /** The partial unique index: one canonical block per height. */
  predicate HeightTaken(ar: Archive, canonical: set<Hash>, height: int64) {
    exists h :: h in canonical && HeightOf(ar, h) == height
  }

  /** CHECK and FOREIGN KEY constraints of a new blocks row. A row may reference itself. */
  predicate InsertableHeader(ar: Archive, b: Block) {
    WellFormedHash(b.hash) && b.height >= 0 && (b.prev == "" || b.prev in ar.blocks || b.prev == b.hash)
  }

  function ApplyHeader(ar: Archive, canonical: set<Hash>, b: Block): Result<Header, Error> {
    if b.hash in ar.blocks then
      if ar.blocks[b.hash] != HeaderRow(b) then Err(ImmutableConflict)
      else if b.hash in canonical then Ok(Header(ar, canonical, false))
      else if HeightTaken(ar, canonical, b.height) then Err(DatabaseConstraint)
      else Ok(Header(ar, canonical + {b.hash}, false))
    else if !InsertableHeader(ar, b) || HeightTaken(ar, canonical, b.height) then Err(DatabaseConstraint)
    else Ok(Header(ar.(blocks := ar.blocks[b.hash := HeaderRow(b)]), canonical + {b.hash}, true))
  }

  // --- accounting and supply rollup ---

  function FactsOfBlock(sch: SubsidySchedule, b: Block, fee: int64): Result<BlockFacts, Error>
    requires Sound(sch) && |b.txs| > 0
  {
    var coinbase :- OutputSum(Bodies(b.txs[0].outputs), |b.txs[0].outputs|);
    ComputeBlockFacts(sch, b.height, fee, coinbase)
  }

  /** localExcludedOutputValue's inner loop, continuing from `total`. */
  function ExcludedSum(total: int64, outs: seq<OutBody>, genesis: bool, k: nat): Result<int64, Error>
    requires k <= |outs|
  {
    if k == 0 then Ok(total)
    else
      var sum :- ExcludedSum(total, outs, genesis, k - 1);
      if !Excluded(outs[k - 1], genesis) then Ok(sum)
      else
        var next := AddChecked(sum, outs[k - 1].value);
        if next.None? then Err(AmountOverflow) else Ok(next.value)
  }

  function ExcludedSums(txs: seq<Transaction>, genesis: bool, k: nat): Result<int64, Error>
    requires k <= |txs|
  {
    if k == 0 then Ok(0)
    else
      var total :- ExcludedSums(txs, genesis, k - 1);
      ExcludedSum(total, Bodies(txs[k - 1].outputs), genesis, |txs[k - 1].outputs|)
  }

  const ZERO_ROLLUP := RollupRow(0, 0, 0, 0, 0, 0, 0)

  function ExtendRollup(parent: RollupRow, excluded: int64, facts: BlockFacts): Result<RollupRow, Error> {
    var subsidy := AddChecked(parent.subsidy, facts.subsidy);
    var fee := AddChecked(parent.fee, facts.fee);
    var coinbase := AddChecked(parent.coinbase, facts.coinbase);
    var unclaimed := AddChecked(parent.unclaimed, facts.unclaimed);
    var cumExcluded := AddChecked(parent.cumExcluded, excluded);
    if subsidy.None? || fee.None? || coinbase.None? || unclaimed.None? || cumExcluded.None? then Err(AmountOverflow)
    else
      var net := SubChecked(coinbase.value, fee.value);
      if net.None? then Err(AmountOverflow)
      else
        var utxoValue := SubChecked(net.value, cumExcluded.value);
        if utxoValue.None? then Err(AmountOverflow)
        else if utxoValue.value < 0 then Err(RollupInvariant)
        else Ok(RollupRow(excluded, subsidy.value, fee.value, coinbase.value, unclaimed.value, cumExcluded.value, utxoValue.value))
  }

  /** The CHECK constraints of block_supply_rollup. PostgreSQL evaluates both sides of
      the reward identity in BIGINT and raises an error when one does not fit. */
  predicate RollupChecks(r: RollupRow) {
    && r.excluded >= 0 && r.subsidy >= 0 && r.fee >= 0 && r.coinbase >= 0
    && r.unclaimed >= 0 && r.cumExcluded >= 0 && r.utxoValue >= 0
    && InRange(r.coinbase + r.unclaimed)
    && r.coinbase + r.unclaimed == r.subsidy + r.fee
    && r.utxoValue + r.fee + r.cumExcluded == r.coinbase
  }

  predicate GenesisRollupExists(ar: Archive, canonical: set<Hash>, rollup: map<Hash, RollupRow>) {
    exists h :: h in canonical && h in rollup && HeightOf(ar, h) == 0
  }

  function ApplyRollup(
    ar: Archive, canonical: set<Hash>, rollup: map<Hash, RollupRow>, b: Block, before: Checkpoint, facts: BlockFacts)
    : Result<map<Hash, RollupRow>, Error>
  {
    if b.height != 0 && b.prev !in rollup then
      if before.hash == "" || !GenesisRollupExists(ar, canonical, rollup) then Ok(rollup)
      else Err(RollupParentMissing)
    else
      var parent := if b.height == 0 then ZERO_ROLLUP else rollup[b.prev];
      var excluded :- ExcludedSums(b.txs, b.height == 0, |b.txs|);
      var row :- ExtendRollup(parent, excluded, facts);
      if b.hash !in rollup && !RollupChecks(row) then Err(DatabaseConstraint)
      else InsertOrVerify(rollup, b.hash, row)
  }

  // --- the two mutations ---

  ghost function RefreshChecked(
    addresses: map<Address, AddressRow>, ar: Archive, c: CoinSet, touched: set<Address>): Result<map<Address, AddressRow>, Error>
  {
    if forall a :: a in touched ==> SliceFits(SliceOf(ar, c, a)) then Ok(Refresh(addresses, ar, c, touched))
    else Err(DatabaseConstraint)
  }

  /** Everything ApplyBlock checks before the transaction loop. */
  function Admit(db: Database, b: Block): Result<Header, Error> {
    var _ :- CheckBlock(b);
    var _ :- CheckContinuity(b, db.checkpoint);
    var hd :- ApplyHeader(db.ar, db.canonical, b);
    if !hd.isNew && |TxIdsOf(hd.ar, b.hash)| != |b.txs| then Err(ImmutableConflict) else Ok(hd)
  }

  /** Everything ApplyBlock writes after the transaction loop. */
  ghost function Publish(sch: SubsidySchedule, db: Database, b: Block, canonical: set<Hash>, loop: Loop): (r: Result<Database, Error>)
    requires Sound(sch) && |db.buckets| == 8 && |b.txs| > 0
    ensures r.Ok? ==> |r.value.buckets| == 8
  {
    var addresses :- RefreshChecked(db.addresses, loop.ar, loop.coins, loop.touched);
    var buckets :- BucketsAfter(db.buckets, db.addresses, addresses);
    var facts :- FactsOfBlock(sch, b, loop.fee);
    var accounting :- InsertOrVerify(db.accounting, b.hash, facts);
    var rollup :- ApplyRollup(loop.ar, canonical, db.rollup, b, db.checkpoint, facts);
    var tip := Checkpoint(HeightOf(loop.ar, b.hash), b.hash);
    Ok(Database(loop.ar, canonical, loop.coins, addresses, buckets, tip, accounting, rollup, tip))
  }

  ghost function ApplyBlock(sch: SubsidySchedule, db: Database, b: Block): (r: Result<Database, Error>)
    requires Sound(sch) && |db.buckets| == 8
    ensures r.Ok? ==> |r.value.buckets| == 8
  {
    var hd :- Admit(db, b);
    var loop :- ApplyTxs(hd.ar, db.coins, b, |b.txs|);
    Publish(sch, db, b, hd.canonical, loop)
  }

  function Orphans(ar: Archive, canonical: set<Hash>, ancestor: Hash): set<Hash> {
    set h | h in canonical && HeightOf(ar, h) > HeightOf(ar, ancestor)
  }

  /** The destinations of every deleted or restored utxo_state row. */
  function RolledBackAddresses(ar: Archive, c: CoinSet, orphans: set<Hash>): set<Address> {
    set op | op in c && op in ar.outAddrs
             && (c[op].creation in orphans || (c[op].spend.Some? && c[op].spend.value.block in orphans)) :: ar.outAddrs[op]
  }

  ghost function RollbackTo(db: Database, ancestor: Hash): (r: Result<Database, Error>)
    requires |db.buckets| == 8
    ensures r.Ok? ==> |r.value.buckets| == 8
  {
    if ancestor !in db.canonical || ancestor !in db.ar.blocks then Err(AncestorNotFound)
    else
      var orphans := Orphans(db.ar, db.canonical, ancestor);
      var coins := Undo(db.coins, orphans);
      var addresses :- RefreshChecked(db.addresses, db.ar, coins, RolledBackAddresses(db.ar, db.coins, orphans));
      var buckets :- BucketsAfter(db.buckets, db.addresses, addresses);
      var tip := Checkpoint(HeightOf(db.ar, ancestor), ancestor);
      Ok(db.(canonical := db.canonical - orphans, coins := coins, addresses := addresses,
             buckets := buckets, anchor := tip, checkpoint := tip))
  }

  // --- histories ---

  datatype Op = Apply(block: Block) | Rollback(ancestor: Hash)

  ghost function Attempt(sch: SubsidySchedule, db: Database, op: Op): Result<Database, Error>
    requires Sound(sch) && |db.buckets| == 8
  {
    match op
    case Apply(b) => ApplyBlock(sch, db, b)
    case Rollback(a) => RollbackTo(db, a)
  }

  /** A rejected call leaves the database unchanged. */
  ghost function Step(sch: SubsidySchedule, db: Database, op: Op): (db': Database)
    requires Sound(sch) && |db.buckets| == 8
    ensures |db'.buckets| == 8
  {
    match Attempt(sch, db, op)
    case Ok(next) => next
    case Err(_) => db
  }

  /** The database after any history of calls on an empty store. */
  ghost function Run(sch: SubsidySchedule, ops: seq<Op>): (db: Database)
    requires Sound(sch)
    ensures |db.buckets| == 8
  {
    if ops == [] then EMPTY else Step(sch, Run(sch, ops[..|ops| - 1]), ops[|ops| - 1])
  }
}
