/** internal/chain: the already decoded block model that the store is given. Header
    fields and transaction metadata that never reach derived state (merkle root,
    time, bits, version, lock time, ...) are carried as one opaque string. */
module Chain {
  import opened Wrappers
  import opened Int64
  import opened Script

  type Hash = string
  type TxId = string
  type Address = string

  datatype OutPoint = OutPoint(txid: TxId, vout: nat)

  datatype Input = Input(index: nat, prev: Option<OutPoint>, coinbase: Bytes, scriptSig: Bytes, sequence: nat)

  /** The immutable part of an output, without the destination Core reports for it. */
  datatype OutBody = OutBody(index: nat, value: int64, script: Bytes)

  datatype Output = Output(body: OutBody, address: Address)

  datatype Transaction = Transaction(txid: TxId, meta: string, isCoinbase: bool, inputs: seq<Input>, outputs: seq<Output>)

  datatype Block = Block(hash: Hash, height: int64, prev: Hash, header: string, txCount: int, txs: seq<Transaction>)

  function Bodies(outs: seq<Output>): (r: seq<OutBody>)
    ensures |r| == |outs|
    ensures forall i :: 0 <= i < |outs| ==> r[i] == outs[i].body
  {
    seq(|outs|, i requires 0 <= i < |outs| => outs[i].body)
  }

  /** The format CHECK every hash and txid column carries: 64 lower-case hex digits. */
  predicate WellFormedHash(s: string) {
    |s| == 64 && forall i :: 0 <= i < |s| ==> '0' <= s[i] <= '9' || 'a' <= s[i] <= 'f'
  }
}
