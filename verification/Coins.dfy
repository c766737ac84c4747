/** The coin set as a fold over the canonical chain, and why undoing the orphaned
    blocks' rows is the exact inverse of having applied them. */
module Coins {
  import opened Wrappers
  import opened Chain
  import opened Tables

  type CoinSet = map<OutPoint, Coin>

  function Create(c: CoinSet, op: OutPoint, h: Hash): CoinSet {
    if op in c then c else c[op := Coin(h, None)]
  }

  function MarkSpent(c: CoinSet, op: OutPoint, sp: Spend): CoinSet {
    if op in c && c[op].spend.None? then c[op := c[op].(spend := Some(sp))] else c
  }

  /** The coin set after the first k outputs of a transaction. */
  function Creates(c: CoinSet, h: Hash, txid: TxId, outs: seq<OutBody>, genesis: bool, k: nat): CoinSet
    requires k <= |outs|
  {
    if k == 0 then c
    else
      var p := Creates(c, h, txid, outs, genesis, k - 1);
      if Excluded(outs[k - 1], genesis) then p else Create(p, OutPoint(txid, k - 1), h)
  }

  /** The coin set after the first k inputs of a transaction. */
  function Spends(c: CoinSet, h: Hash, txid: TxId, ins: seq<Input>, k: nat): CoinSet
    requires k <= |ins|
  {
    if k == 0 then c
    else
      var p := Spends(c, h, txid, ins, k - 1);
      if ins[k - 1].prev.None? then p
      else MarkSpent(p, ins[k - 1].prev.value, Spend(txid, k - 1, h))
  }

  function TxEffect(c: CoinSet, h: Hash, txid: TxId, row: TxRow, genesis: bool): CoinSet {
    var created := Creates(c, h, txid, row.outputs, genesis, |row.outputs|);
    if row.isCoinbase then created else Spends(created, h, txid, row.inputs, |row.inputs|)
  }

  /** The coin set after the first k transactions of a block with these txids. */
  function BlockEffect(txs: map<TxId, TxRow>, c: CoinSet, h: Hash, genesis: bool, ids: seq<TxId>, k: nat): CoinSet
    requires k <= |ids|
  {
    if k == 0 then c
    else
      var p := BlockEffect(txs, c, h, genesis, ids, k - 1);
      var txid := ids[k - 1];
      if txid in txs then TxEffect(p, h, txid, txs[txid], genesis) else p
  }

  function AfterBlock(ar: Archive, c: CoinSet, h: Hash): CoinSet {
    BlockEffect(ar.txs, c, h, HeightOf(ar, h) == 0, TxIdsOf(ar, h), |TxIdsOf(ar, h)|)
  }

  function CoinsOf(ar: Archive, chain: seq<Hash>): CoinSet {
    if chain == [] then map[]
    else AfterBlock(ar, CoinsOf(ar, chain[..|chain| - 1]), chain[|chain| - 1])
  }

  // --- undoing blocks ---

  /** RollbackTo's two statements: delete what the orphans created, then restore what
      they spent. */
  function Undo(c: CoinSet, orphans: set<Hash>): CoinSet {
    map op | op in c && c[op].creation !in orphans ::
      if c[op].spend.Some? && c[op].spend.value.block in orphans then c[op].(spend := None) else c[op]
  }

  /** h neither created nor spent any coin of c. */
  ghost predicate Mentions(c: CoinSet, h: Hash) {
    exists op :: op in c && (c[op].creation == h || (c[op].spend.Some? && c[op].spend.value.block == h))
  }

  lemma UndoCreate(c: CoinSet, op: OutPoint, h: Hash)
    ensures Undo(Create(c, op, h), {h}) == Undo(c, {h})
  {
  }

  lemma UndoMarkSpent(c: CoinSet, op: OutPoint, sp: Spend)
    ensures Undo(MarkSpent(c, op, sp), {sp.block}) == Undo(c, {sp.block})
  {
  }

  lemma {:induction false} UndoCreates(c: CoinSet, h: Hash, txid: TxId, outs: seq<OutBody>, genesis: bool, k: nat)
    requires k <= |outs|
    ensures Undo(Creates(c, h, txid, outs, genesis, k), {h}) == Undo(c, {h})
  {
    if k > 0 {
      UndoCreates(c, h, txid, outs, genesis, k - 1);
      UndoCreate(Creates(c, h, txid, outs, genesis, k - 1), OutPoint(txid, k - 1), h);
    }
  }

  lemma {:induction false} UndoSpends(c: CoinSet, h: Hash, txid: TxId, ins: seq<Input>, k: nat)
    requires k <= |ins|
    ensures Undo(Spends(c, h, txid, ins, k), {h}) == Undo(c, {h})
  {
    if k > 0 {
      UndoSpends(c, h, txid, ins, k - 1);
      if ins[k - 1].prev.Some? {
        UndoMarkSpent(Spends(c, h, txid, ins, k - 1), ins[k - 1].prev.value, Spend(txid, k - 1, h));
      }
    }
  }

  lemma {:induction false} UndoBlockEffect(txs: map<TxId, TxRow>, c: CoinSet, h: Hash, genesis: bool, ids: seq<TxId>, k: nat)
    requires k <= |ids|
    ensures Undo(BlockEffect(txs, c, h, genesis, ids, k), {h}) == Undo(c, {h})
  {
    if k > 0 {
      UndoBlockEffect(txs, c, h, genesis, ids, k - 1);
      var p := BlockEffect(txs, c, h, genesis, ids, k - 1);
      var txid := ids[k - 1];
      if txid in txs {
        var row := txs[txid];
        UndoCreates(p, h, txid, row.outputs, genesis, |row.outputs|);
        UndoSpends(Creates(p, h, txid, row.outputs, genesis, |row.outputs|), h, txid, row.inputs, |row.inputs|);
      }
    }
  }

  lemma UndoCompose(c: CoinSet, a: set<Hash>, b: set<Hash>)
    ensures Undo(Undo(c, a), b) == Undo(c, a + b)
  {
  }

  lemma UndoUnmentioned(c: CoinSet, s: set<Hash>)
    requires forall h :: h in s ==> !Mentions(c, h)
    ensures Undo(c, s) == c
  {
    forall op | op in c
      ensures c[op].creation !in s && (c[op].spend.Some? ==> c[op].spend.value.block !in s)
    {
      assert forall h :: h in s ==> c[op].creation != h;
    }
  }

  // --- which blocks a coin set mentions ---

  lemma {:induction false} CreatesMention(c: CoinSet, h: Hash, txid: TxId, outs: seq<OutBody>, genesis: bool, k: nat, g: Hash)
    requires k <= |outs| && Mentions(Creates(c, h, txid, outs, genesis, k), g)
    ensures g == h || Mentions(c, g)
  {
    if k > 0 {
      if Mentions(Creates(c, h, txid, outs, genesis, k - 1), g) {
        CreatesMention(c, h, txid, outs, genesis, k - 1, g);
      }
    }
  }

  lemma {:induction false} SpendsMention(c: CoinSet, h: Hash, txid: TxId, ins: seq<Input>, k: nat, g: Hash)
    requires k <= |ins| && Mentions(Spends(c, h, txid, ins, k), g)
    ensures g == h || Mentions(c, g)
  {
    if k > 0 {
      if Mentions(Spends(c, h, txid, ins, k - 1), g) {
        SpendsMention(c, h, txid, ins, k - 1, g);
      }
    }
  }

  lemma {:induction false} BlockEffectMentions(
    txs: map<TxId, TxRow>, c: CoinSet, h: Hash, genesis: bool, ids: seq<TxId>, k: nat, g: Hash)
    requires k <= |ids| && Mentions(BlockEffect(txs, c, h, genesis, ids, k), g)
    ensures g == h || Mentions(c, g)
  {
    if k > 0 && g != h {
      var p := BlockEffect(txs, c, h, genesis, ids, k - 1);
      var txid := ids[k - 1];
      if txid in txs {
        var row := txs[txid];
        var created := Creates(p, h, txid, row.outputs, genesis, |row.outputs|);
        if !row.isCoinbase {
          SpendsMention(created, h, txid, row.inputs, |row.inputs|, g);
        }
        CreatesMention(p, h, txid, row.outputs, genesis, |row.outputs|, g);
      }
      BlockEffectMentions(txs, c, h, genesis, ids, k - 1, g);
    }
  }

  /** Only blocks of the chain are ever named by its coins. */
  lemma {:induction false} CoinsMentionChain(ar: Archive, chain: seq<Hash>, g: Hash)
    requires Mentions(CoinsOf(ar, chain), g)
    ensures g in chain
  {
    if chain != [] {
      var init, h := chain[..|chain| - 1], chain[|chain| - 1];
      BlockEffectMentions(ar.txs, CoinsOf(ar, init), h, HeightOf(ar, h) == 0, TxIdsOf(ar, h), |TxIdsOf(ar, h)|, g);
      if g != h {
        CoinsMentionChain(ar, init, g);
      }
    }
  }

  function Elems<T>(s: seq<T>): set<T> {
    set x | x in s
  }

  ghost predicate Distinct<T>(s: seq<T>) {
    forall i, j :: 0 <= i < j < |s| ==> s[i] != s[j]
  }

  /** RollbackTo's coin repair gives exactly the coin set of the surviving prefix. */
  lemma {:induction false} UndoIsPrefix(ar: Archive, chain: seq<Hash>, k: nat)
    requires k <= |chain| && Distinct(chain)
    ensures Undo(CoinsOf(ar, chain), Elems(chain[k..])) == CoinsOf(ar, chain[..k])
    decreases |chain| - k
  {
    var orphans := Elems(chain[k..]);
    if k == |chain| {
      assert chain[..k] == chain;
      UndoUnmentioned(CoinsOf(ar, chain), orphans);
    } else {
      var h := chain[k];
      var rest := Elems(chain[k + 1..]);
      assert chain[k..] == [h] + chain[k + 1..];
      assert orphans == rest + {h};
      UndoIsPrefix(ar, chain, k + 1);
      UndoCompose(CoinsOf(ar, chain), rest, {h});
      var upto := chain[..k + 1];
      assert upto[..k] == chain[..k];
      UndoBlockEffect(ar.txs, CoinsOf(ar, chain[..k]), h, HeightOf(ar, h) == 0, TxIdsOf(ar, h), |TxIdsOf(ar, h)|);
      if Mentions(CoinsOf(ar, chain[..k]), h) {
        CoinsMentionChain(ar, chain[..k], h);
      }
      UndoUnmentioned(CoinsOf(ar, chain[..k]), {h});
    }
  }

  // --- a block's effect depends only on its own rows ---

  ghost predicate SameRows(txs: map<TxId, TxRow>, txs': map<TxId, TxRow>, ids: seq<TxId>, k: nat)
    requires k <= |ids|
  {
    forall i :: 0 <= i < k ==> ids[i] in txs && ids[i] in txs' && txs[ids[i]] == txs'[ids[i]]
  }

  lemma {:induction false} BlockEffectSame(
    txs: map<TxId, TxRow>, txs': map<TxId, TxRow>, c: CoinSet, h: Hash, genesis: bool, ids: seq<TxId>, k: nat)
    requires k <= |ids| && SameRows(txs, txs', ids, k)
    ensures BlockEffect(txs, c, h, genesis, ids, k) == BlockEffect(txs', c, h, genesis, ids, k)
  {
    if k > 0 {
      BlockEffectSame(txs, txs', c, h, genesis, ids, k - 1);
    }
  }

  ghost predicate SameBlock(ar: Archive, ar': Archive, h: Hash) {
    && TxIdsOf(ar, h) == TxIdsOf(ar', h)
    && HeightOf(ar, h) == HeightOf(ar', h)
    && SameRows(ar.txs, ar'.txs, TxIdsOf(ar, h), |TxIdsOf(ar, h)|)
  }

  lemma {:induction false} CoinsOfSame(ar: Archive, ar': Archive, chain: seq<Hash>)
    requires forall h :: h in chain ==> SameBlock(ar, ar', h)
    ensures CoinsOf(ar, chain) == CoinsOf(ar', chain)
  {
    if chain != [] {
      var h := chain[|chain| - 1];
      assert h in chain;
      CoinsOfSame(ar, ar', chain[..|chain| - 1]);
      BlockEffectSame(ar.txs, ar'.txs, CoinsOf(ar, chain[..|chain| - 1]), h, HeightOf(ar, h) == 0, TxIdsOf(ar, h), |TxIdsOf(ar, h)|);
    }
  }
}
