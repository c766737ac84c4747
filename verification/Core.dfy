/** Qogecoin Core behind RPC, and the caller's context: everything the indexer does not
    control. */
module Core {
  import opened Wrappers
  import opened Int64
  import opened Chain

  /** A getblock answer: no answer, an answer the decoder refuses, or a decoded block. */
  datatype Fetched = Unavailable | Undecodable | Decoded(block: Block)

  /** One RPC call. */
  datatype Query = CountAsked | HashAsked(height: int64) | BlockAsked(hash: Hash)

  /** Core's n-th answer may have nothing to do with its earlier ones. The log holds the
      calls actually made; the n-th of them got the n-th answer. */
  class Rpc {
    const counts: nat -> Option<int64>
    const hashes: (nat, int64) -> Option<Hash>
    const blocks: (nat, Hash) -> Fetched
    var log: seq<Query>

    constructor (counts: nat -> Option<int64>, hashes: (nat, int64) -> Option<Hash>, blocks: (nat, Hash) -> Fetched)
      ensures this.counts == counts && this.hashes == hashes && this.blocks == blocks && log == []
    {
      this.counts, this.hashes, this.blocks, log := counts, hashes, blocks, [];
    }

    method GetBlockCount() returns (r: Option<int64>)
      modifies this
      ensures log == old(log) + [CountAsked] && r == counts(|old(log)|)
    {
      r := counts(|log|);
      log := log + [CountAsked];
    }

    method GetBlockHash(height: int64) returns (r: Option<Hash>)
      modifies this
      ensures log == old(log) + [HashAsked(height)] && r == hashes(|old(log)|, height)
    {
      r := hashes(|log|, height);
      log := log + [HashAsked(height)];
    }

    method GetBlock(hash: Hash) returns (r: Fetched)
      modifies this
      ensures log == old(log) + [BlockAsked(hash)] && r == blocks(|old(log)|, hash)
    {
      r := blocks(|log|, hash);
      log := log + [BlockAsked(hash)];
    }

    /** The n-th call asked for the chain's length, and Core said `height`. */
    ghost predicate Counted(n: nat, height: int64)
      reads this
    {
      n < |log| && log[n] == CountAsked && counts(n) == Some(height)
    }

    /** The n-th call asked for the hash at `height`, and Core said `hash`. */
    ghost predicate Named(n: nat, height: int64, hash: Hash)
      reads this
    {
      n < |log| && log[n] == HashAsked(height) && hashes(n, height) == Some(hash)
    }

    /** The n-th call got no answer. */
    ghost predicate Unanswered(n: nat)
      reads this
    {
      n < |log| && match log[n]
        case CountAsked => counts(n) == None
        case HashAsked(height) => hashes(n, height) == None
        case BlockAsked(hash) => blocks(n, hash) == Unavailable
    }

    /** The n-th call got an answer that no honest node gives: a negative height, or
        something that does not decode as a block. */
    ghost predicate Negative(n: nat)
      reads this
    {
      n < |log| && log[n] == CountAsked && counts(n).Some? && counts(n).value < 0
    }

    ghost predicate Garbled(n: nat)
      reads this
    {
      n < |log| && log[n].BlockAsked? && blocks(n, log[n].hash) == Undecodable
    }

    /** The n-th call asked for the block that Core had named for this height, and got
        another one. */
    ghost predicate Mistaken(n: nat, height: int64, hash: Hash)
      reads this
    {
      && n < |log| && log[n] == BlockAsked(hash) && blocks(n, hash).Decoded?
      && (blocks(n, hash).block.height != height || blocks(n, hash).block.hash != hash)
    }

    /** The n-th call asked for b by its hash, and Core delivered it. */
    ghost predicate Delivered(n: nat, b: Block)
      reads this
    {
      n < |log| && log[n] == BlockAsked(b.hash) && blocks(n, b.hash) == Decoded(b)
    }
  }

  /** A context that is cancelled after some number of further checks. */
  class Context {
    var remaining: nat

    constructor (remaining: nat)
      ensures this.remaining == remaining
    {
      this.remaining := remaining;
    }

    method Cancelled() returns (cancelled: bool)
      modifies this
      ensures cancelled <==> old(remaining) == 0
      ensures remaining == if cancelled then 0 else old(remaining) - 1
    {
      cancelled := remaining == 0;
      if !cancelled {
        remaining := remaining - 1;
      }
    }
  }

  // --- a Core that does not move ---

  function Hashes(core: seq<Block>): (r: seq<Hash>)
    ensures |r| == |core| && forall i :: 0 <= i < |core| ==> r[i] == core[i].hash
  {
    seq(|core|, i requires 0 <= i < |core| => core[i].hash)
  }

  /** A hash-linked chain from height 0. */
  ghost predicate LinkedBlocks(core: seq<Block>) {
    && core != []
    && (forall i :: 0 <= i < |core| ==> core[i].height == i)
    && (forall i :: 0 < i < |core| ==> core[i].prev == core[i - 1].hash)
  }

  /** Every answer, now and later, describes that one chain. */
  ghost predicate Frozen(rpc: Rpc, core: seq<Block>) {
    && (forall n: nat :: rpc.counts(n) == Some(|core| - 1))
    && (forall n: nat, h: int64 :: 0 <= h < |core| ==> rpc.hashes(n, h) == Some(core[h].hash))
    && (forall n: nat, i: nat :: i < |core| ==> rpc.blocks(n, core[i].hash) == Decoded(core[i]))
  }
}
