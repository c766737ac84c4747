/** The life of a coin: created by one canonical block, spent at most once, and spent
    rows matching canonical inputs one to one. */
module Lifecycle {
  import opened Wrappers
  import opened Errors
  import opened Int64
  import opened Chain
  import opened Tables
  import opened Coins
  import opened TxSpec
  import opened TxFacts
  import opened Integrity
  import opened BlockLoop
  import opened Replay
  import opened Coherence
  import opened Respending
  import opened Supply
  import opened Recovery

  ghost predicate Tracked(ar: Archive, chain: seq<Hash>) {
    ArchiveOk(ar) && ChainOk(ar, chain) && CoinsOk(ar, CoinsOf(ar, chain))
  }

  // --- creation ---

  /** The block position a coin was created at. */
  lemma {:induction false} CreatedAt(ar: Archive, chain: seq<Hash>, n: nat, op: OutPoint) returns (m: nat)
    requires n <= |chain| && op in CoinsOf(ar, chain[..n])
    ensures m < n && op !in CoinsOf(ar, chain[..m]) && op in CoinsOf(ar, chain[..m + 1])
    decreases n
  {
    assert n > 0;
    if op in CoinsOf(ar, chain[..n - 1]) {
      m := CreatedAt(ar, chain, n - 1, op);
    } else {
      m := n - 1;
    }
  }

  lemma {:induction false} BlockCreates(txs: map<TxId, TxRow>, c: CoinSet, h: Hash, genesis: bool, ids: seq<TxId>, k: nat, op: OutPoint)
    requires k <= |ids| && op !in c && op in BlockEffect(txs, c, h, genesis, ids, k)
    ensures op.txid in ids[..k] && BlockEffect(txs, c, h, genesis, ids, k)[op].creation == h
  {
    var p := BlockEffect(txs, c, h, genesis, ids, k - 1);
    assert ids[..k] == ids[..k - 1] + [ids[k - 1]];
    if ids[k - 1] in txs {
      TxEffectCoin(p, h, ids[k - 1], txs[ids[k - 1]], genesis, op);
    }
    if op in p {
      BlockCreates(txs, c, h, genesis, ids, k - 1, op);
    }
  }

  lemma CreationStays(ar: Archive, chain: seq<Hash>, m: nat, op: OutPoint)
    requires m < |chain| && op !in CoinsOf(ar, chain[..m]) && op in CoinsOf(ar, chain[..m + 1])
    ensures op.txid in TxIdsOf(ar, chain[m])
    ensures op in CoinsOf(ar, chain) && CoinsOf(ar, chain)[op].creation == chain[m]
  {
    var ids := TxIdsOf(ar, chain[m]);
    assert chain[..m + 1][..m] == chain[..m];
    BlockCreates(ar.txs, CoinsOf(ar, chain[..m]), chain[m], HeightOf(ar, chain[m]) == 0, ids, |ids|, op);
    ChainGrows(ar, chain, m + 1, |chain|);
    assert chain[..|chain|] == chain;
  }

  /** Every admissible output of a canonical transaction is a coin. */
  lemma OutputIsCoin(ar: Archive, chain: seq<Hash>, n: nat, x: TxId, v: nat)
    requires Tracked(ar, chain) && n < |chain| && x in TxIdsOf(ar, chain[n])
    ensures x in ar.txs
    ensures v < |ar.txs[x].outputs| && !Excluded(ar.txs[x].outputs[v], HeightOf(ar, chain[n]) == 0)
            ==> OutPoint(x, v) in CoinsOf(ar, chain[..n + 1]) && OutPoint(x, v) in CoinsOf(ar, chain)
  {
    hide ArchiveOk, CoinsOk, CoinsOf;
    SettledByItsBlock(ar, chain, n, x);
    ChainGrows(ar, chain, n + 1, |chain|);
    assert chain[..|chain|] == chain;
  }

  lemma EarlierWouldCreate(ar: Archive, chain: seq<Hash>, j: nat, m: nat, op: OutPoint)
    requires Tracked(ar, chain) && j < m < |chain| && op !in CoinsOf(ar, chain[..m])
    requires op in CoinsOf(ar, chain[..m + 1]) && HeightOf(ar, chain[j]) != 0
    ensures op.txid !in TxIdsOf(ar, chain[j])
  {
    hide ArchiveOk, ChainValid, CoinsOk, CoinsOf;
    CoinsAdmissible(ar, chain[..m + 1], op);
    ChainGrows(ar, chain, j + 1, m);
    if op.txid in TxIdsOf(ar, chain[j]) {
      OutputIsCoin(ar, chain, j, op.txid, op.vout);
    }
  }

  /** Above height 0 a coin's transaction occurs in exactly one canonical block: the one
      that created it. (The genesis block creates no coin, so its coinbase may recur.) */
  lemma CoinCreatedOnce(ar: Archive, chain: seq<Hash>, op: OutPoint, j: nat)
    requires Tracked(ar, chain) && op in CoinsOf(ar, chain) && j < |chain|
    ensures CoinsOf(ar, chain)[op].creation in chain
    ensures HeightOf(ar, chain[j]) != 0 ==>
              (op.txid in TxIdsOf(ar, chain[j]) <==> chain[j] == CoinsOf(ar, chain)[op].creation)
    ensures HeightOf(ar, chain[j]) == 0 ==> chain[j] != CoinsOf(ar, chain)[op].creation
  {
    hide ArchiveOk, ChainValid, CoinsOk, CoinsOf;
    assert chain[..|chain|] == chain;
    var m := CreatedAt(ar, chain, |chain|, op);
    CreationStays(ar, chain, m, op);
    LinkedDistinct(ar, chain);
    CreationHeight(ar, chain, m, op);
    if m < j {
      CreatorNotRepeated(ar, chain, m + 1, j, op);
    } else if j < m && HeightOf(ar, chain[j]) != 0 {
      EarlierWouldCreate(ar, chain, j, m, op);
    }
  }

  lemma CreationHeight(ar: Archive, chain: seq<Hash>, m: nat, op: OutPoint)
    requires Tracked(ar, chain) && m < |chain| && op !in CoinsOf(ar, chain[..m]) && op in CoinsOf(ar, chain[..m + 1])
    ensures HeightOf(ar, chain[m]) > 0
  {
    hide CoinsOk, CoinsOf, ChainValid;
    assert chain[0] in ar.blocks && BlockRowOk(ar, chain[0]);
    if m == 0 {
      FirstBlockCoins(ar, chain);
    } else {
      LaterIsNotGenesis(ar, chain, 0, m);
    }
  }

  lemma FirstBlockCoins(ar: Archive, chain: seq<Hash>)
    requires chain != []
    ensures HeightOf(ar, chain[0]) == 0 ==> CoinsOf(ar, chain[..1]) == map[]
  {
    var ids := TxIdsOf(ar, chain[0]);
    assert chain[..1][..0] == [];
    GenesisHasNoCoins(ar.txs, chain[0], ids, |ids|);
  }

  // --- spending ---

  /** Right after its transaction, an input's previous output is spent by that input. */
  lemma TxSpends(c: CoinSet, h: Hash, x: TxId, row: TxRow, genesis: bool, j: nat)
    requires TxValid(c, h, x, row, genesis) && !row.isCoinbase && j < |row.inputs|
    ensures row.inputs[j].prev.Some?
    ensures var c', op := TxEffect(c, h, x, row, genesis), row.inputs[j].prev.value;
            op in c' && c'[op].spend.Some? && c'[op].spend.value.txid == x && c'[op].spend.value.vin == j
  {
    var created := Creates(c, h, x, row.outputs, genesis, |row.outputs|);
    SpendableAfterCreates(c, h, x, row, genesis);
    assert Spendable(created, row.inputs[j].prev.value, x, j);
    SpendsShape(created, h, x, row.inputs, |row.inputs|);
  }

  /** Every canonical non-coinbase input is recorded, by itself, as the spender of its
      previous output. */
  lemma InputIsSpent(ar: Archive, chain: seq<Hash>, n: nat, x: TxId, j: nat)
    requires Tracked(ar, chain) && n < |chain| && x in TxIdsOf(ar, chain[n])
    requires x in ar.txs && !ar.txs[x].isCoinbase && j < |ar.txs[x].inputs|
    ensures ar.txs[x].inputs[j].prev.Some?
    ensures var c, op := CoinsOf(ar, chain), ar.txs[x].inputs[j].prev.value;
            op in c && c[op].spend.Some? && c[op].spend.value.txid == x && c[op].spend.value.vin == j
  {
    hide ArchiveOk, CoinsOk, TxValid, TxEffect;
    var ids, h, genesis, c0 := TxIdsOf(ar, chain[n]), chain[n], HeightOf(ar, chain[n]) == 0, CoinsOf(ar, chain[..n]);
    var i :| 0 <= i < |ids| && ids[i] == x;
    assert BlockValid(ar, c0, h);
    assert ValidAt(ar.txs, c0, h, genesis, ids, i);
    TxSpends(BlockEffect(ar.txs, c0, h, genesis, ids, i), h, x, ar.txs[x], genesis, j);
    BlockEffectGrows(ar.txs, c0, h, genesis, ids, i + 1, |ids|);
    assert chain[..n + 1][..n] == chain[..n];
    ChainGrows(ar, chain, n + 1, |chain|);
    assert chain[..|chain|] == chain;
  }

  /** Conversely a spent row names a canonical non-coinbase input that consumes it. */
  lemma SpentIsInput(ar: Archive, chain: seq<Hash>, op: OutPoint)
    requires Tracked(ar, chain) && op in CoinsOf(ar, chain) && CoinsOf(ar, chain)[op].spend.Some?
    ensures var sp := CoinsOf(ar, chain)[op].spend.value;
            && sp.block in chain && sp.txid in TxIdsOf(ar, sp.block)
            && sp.txid in ar.txs && !ar.txs[sp.txid].isCoinbase
            && sp.vin < |ar.txs[sp.txid].inputs| && ar.txs[sp.txid].inputs[sp.vin].prev == Some(op)
  {
    var c := CoinsOf(ar, chain);
    assert CoinOk(ar, op, c[op]);
    assert Mentions(c, c[op].spend.value.block);
    CoinsMentionChain(ar, chain, c[op].spend.value.block);
  }

  /** Two canonical inputs that name the same previous output are the same input: no
      outpoint is spent twice on one branch. */
  lemma SpentOnce(ar: Archive, chain: seq<Hash>, n: nat, x: TxId, j: nat, n': nat, x': TxId, j': nat)
    requires Tracked(ar, chain) && n < |chain| && n' < |chain| && x in TxIdsOf(ar, chain[n]) && x' in TxIdsOf(ar, chain[n'])
    requires x in ar.txs && !ar.txs[x].isCoinbase && j < |ar.txs[x].inputs|
    requires x' in ar.txs && !ar.txs[x'].isCoinbase && j' < |ar.txs[x'].inputs|
    requires ar.txs[x].inputs[j].prev == ar.txs[x'].inputs[j'].prev
    ensures x == x' && j == j'
  {
    hide Tracked, CoinsOf;
    InputIsSpent(ar, chain, n, x, j);
    InputIsSpent(ar, chain, n', x', j');
  }

  // --- repeated prevouts within a transaction ---

  lemma {:induction false} OnlyRepeatsFail(c: CoinSet, h: Hash, x: TxId, ins: seq<Input>, k: nat)
    requires k <= |ins| && InputsSpendable(c, x, ins, k)
    ensures MarkInputs(c, h, x, ins, k).Err? ==> MarkInputs(c, h, x, ins, k) == Err(DoubleSpend)
  {
    hide MarkInputs, Spends, Spendable;
    MarkInputsIff(c, h, x, ins, k);
    if k > 0 {
      OnlyRepeatsFail(c, h, x, ins, k - 1);
      MarkInputsIff(c, h, x, ins, k - 1);
      LastMark(c, h, x, ins, k);
    }
  }

  lemma LastMark(c: CoinSet, h: Hash, x: TxId, ins: seq<Input>, k: nat)
    requires 0 < k <= |ins| && InputsSpendable(c, x, ins, k)
    requires MarkInputs(c, h, x, ins, k - 1).Ok? ==> MarkInputs(c, h, x, ins, k - 1).value == Spends(c, h, x, ins, k - 1)
    ensures MarkInputs(c, h, x, ins, k - 1).Err? ==> MarkInputs(c, h, x, ins, k) == MarkInputs(c, h, x, ins, k - 1)
    ensures MarkInputs(c, h, x, ins, k - 1).Ok? && MarkInputs(c, h, x, ins, k).Err? ==> MarkInputs(c, h, x, ins, k) == Err(DoubleSpend)
  {
    hide Spends;
    SpendsShape(c, h, x, ins, k - 1);
    assert Spendable(c, ins[k - 1].prev.value, x, k - 1);
  }

  /** checkPrevout reads the coins before any input of the transaction is marked. So if
      each input alone is spendable and the total fits, a prevout may be named any number
      of times and is counted every time; markSpent refuses exactly the lists in which
      some prevout repeats. */
  lemma RepeatRefusedOnlyByMarking(ar: Archive, c: CoinSet, h: Hash, x: TxId, ins: seq<Input>)
    requires Backed(ar, c) && InputsSpendable(c, x, ins, |ins|) && InputTotal(ar, ins, |ins|) <= MAX_INT64
    ensures InputSum(ar, c, x, ins, |ins|) == Ok(InputTotal(ar, ins, |ins|))
    ensures MarkInputs(c, h, x, ins, |ins|) == Err(DoubleSpend)
            <==> exists i, j :: 0 <= i < j < |ins| && ins[i].prev == ins[j].prev
  {
    hide MarkInputs, InputSum, InputTotal, Spends, InputsSpendable;
    InputSumIsTotal(ar, c, x, ins, |ins|);
    MarkInputsIff(c, h, x, ins, |ins|);
    OnlyRepeatsFail(c, h, x, ins, |ins|);
  }
}
