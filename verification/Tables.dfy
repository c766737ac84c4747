/** The explorer's database, one field per table. The rows of transactions,
    transaction_inputs and transaction_outputs that share a txid are kept as one
    row, because foreign keys and the exact-count checks make them appear and be
    compared together. */
module Tables {
  import opened Wrappers
  import opened Int64
  import opened Chain
  import opened Script
  import opened Accounting

  datatype BlockRow = BlockRow(height: int64, prev: Hash, header: string, txCount: int)

  datatype TxRow = TxRow(meta: string, isCoinbase: bool, fee: Option<int64>, inputs: seq<Input>, outputs: seq<OutBody>)

  datatype Spend = Spend(txid: TxId, vin: nat, block: Hash)

  /** One utxo_state row. The two height columns are derived from the block hashes
      by trigger, so they are looked up instead of stored. */
  datatype Coin = Coin(creation: Hash, spend: Option<Spend>)

  datatype AddressRow = AddressRow(
    received: int, sent: int, balance: int, txCount: nat, firstSeen: int, lastSeen: int)

  datatype BucketRow = BucketRow(count: int64, balance: int64)

  datatype RollupRow = RollupRow(
    excluded: int64, subsidy: int64, fee: int64, coinbase: int64,
    unclaimed: int64, cumExcluded: int64, utxoValue: int64)

  /** height == -1 and hash == "" before anything was indexed. */
  datatype Checkpoint = Checkpoint(height: int64, hash: Hash)

  const BOOTSTRAP := Checkpoint(-1, "")

  /** The tables RollbackTo never touches. */
  datatype Archive = Archive(
    blocks: map<Hash, BlockRow>,
    blockTxs: map<Hash, seq<TxId>>,
    txs: map<TxId, TxRow>,
    outAddrs: map<OutPoint, Address>)

  datatype Database = Database(
    ar: Archive,
    canonical: set<Hash>,
    coins: map<OutPoint, Coin>,
    addresses: map<Address, AddressRow>,
    buckets: seq<BucketRow>,
    anchor: Checkpoint,
    accounting: map<Hash, BlockFacts>,
    rollup: map<Hash, RollupRow>,
    checkpoint: Checkpoint)

  predicate HasOutput(ar: Archive, op: OutPoint) {
    op.txid in ar.txs && op.vout < |ar.txs[op.txid].outputs|
  }

  function Value(ar: Archive, op: OutPoint): int64 {
    if HasOutput(ar, op) then ar.txs[op.txid].outputs[op.vout].value else 0
  }

  function HeightOf(ar: Archive, h: Hash): int64 {
    if h in ar.blocks then ar.blocks[h].height else 0
  }

  function TxIdsOf(ar: Archive, h: Hash): seq<TxId> {
    if h in ar.blockTxs then ar.blockTxs[h] else []
  }

  /** Core never admits these outputs to the coin set. */
  predicate Excluded(out: OutBody, genesis: bool) {
    genesis || IsUnspendable(out.script)
  }

  ghost predicate SubMap<K, V>(m: map<K, V>, n: map<K, V>) {
    forall k :: k in m ==> k in n && n[k] == m[k]
  }

  /** Immutable tables only grow. */
  ghost predicate Extends(ar: Archive, ar': Archive) {
    && SubMap(ar.blocks, ar'.blocks)
    && SubMap(ar.blockTxs, ar'.blockTxs)
    && SubMap(ar.txs, ar'.txs)
    && SubMap(ar.outAddrs, ar'.outAddrs)
  }
}
