/** When an address row does not change although the address gained outputs: exactly when
    none of them is worth anything and none brings a new transaction. */
module Unnoticed {
  import opened Wrappers
  import opened Chain
  import opened Tables
  import opened Coins
  import opened Sums
  import opened Cache
  import opened Integrity
  import opened Coherence
  import opened Supply
  import opened Determined
  import opened TxFacts
  import opened Recovery
  import opened Lifecycle

  // --- two sets of outputs of one address ---

  /** t holds all that s holds, nothing of negative value, and nothing above height top. */
  ghost predicate Grows(s: Slice, t: Slice, top: int) {
    && (forall x :: x in s ==> x in t && t[x] == s[x])
    && (forall x :: x in t ==> t[x].value >= 0 && t[x].created <= top && LastActivity(t[x]) <= top)
  }

  /** What t holds beyond s happened at height top; and if its transaction was known to s,
      then s already reached that height. */
  ghost predicate GainsAtTop(s: Slice, t: Slice, top: int) {
    forall x :: x in t && x !in s ==>
      && t[x].created == top && LastActivity(t[x]) == top
      && (x.txid in TxIdsIn(s) ==> exists y :: y in s && LastActivity(s[y]) == top)
  }

  /** An output that adds nothing to the row of an address with outputs s. */
  ghost predicate AddsNothing(s: Slice, x: OutPoint, act: Activity) {
    && act.value == 0
    && x.txid in TxIdsIn(s)
    && (act.spend.Some? ==> act.spend.value.txid in TxIdsIn(s))
  }

  ghost predicate SameRow(s: Slice, t: Slice) {
    && (s == map[] <==> t == map[])
    && (s != map[] && t != map[] ==> Summary(s) == Summary(t))
  }

  lemma TxIdsGrow(s: Slice, t: Slice, top: int)
    requires Grows(s, t, top)
    ensures TxIdsIn(s) <= TxIdsIn(t)
    ensures (forall x :: x in t && x !in s ==> AddsNothing(s, x, t[x])) ==> TxIdsIn(s) == TxIdsIn(t)
    ensures forall x :: x in t ==> x.txid in TxIdsIn(t) && (t[x].spend.Some? ==> t[x].spend.value.txid in TxIdsIn(t))
  {
  }

  lemma SameSize<T>(a: set<T>, b: set<T>)
    requires a <= b
    ensures |a| == |b| <==> a == b
  {
    if a != b {
      SubsetSize(a, b - (b - a));
      assert b == a + (b - a);
    }
  }

  lemma HeightsStay(s: Slice, t: Slice, top: int)
    requires Grows(s, t, top) && GainsAtTop(s, t, top) && s != map[]
    requires forall x :: x in t && x !in s ==> AddsNothing(s, x, t[x])
    ensures t != map[]
    ensures CreatedHeights(s) != {} && LastHeights(s) != {} && CreatedHeights(t) != {} && LastHeights(t) != {}
    ensures Min(CreatedHeights(s)) == Min(CreatedHeights(t)) && Max(LastHeights(s)) == Max(LastHeights(t))
  {
    var y :| y in s;
    assert s[y].created in CreatedHeights(s) && LastActivity(s[y]) in LastHeights(s);
    assert t[y].created in CreatedHeights(t) && LastActivity(t[y]) in LastHeights(t);
    assert CreatedHeights(s) <= CreatedHeights(t) && LastHeights(s) <= LastHeights(t);
    forall h | h in CreatedHeights(t)
      ensures Min(CreatedHeights(s)) <= h
    {
      var x :| x in t && t[x].created == h;
      assert x in s ==> s[x].created in CreatedHeights(s);
    }
    forall h | h in LastHeights(t)
      ensures h <= Max(LastHeights(s))
    {
      var x :| x in t && LastActivity(t[x]) == h;
      if x !in s {
        var z :| z in s && LastActivity(s[z]) == top;
        assert LastActivity(s[z]) in LastHeights(s);
      } else {
        assert LastActivity(s[x]) in LastHeights(s);
      }
    }
  }

  lemma SumsStay(s: Slice, t: Slice, top: int)
    requires Grows(s, t, top)
    ensures Sum(Received(s)) == Sum(Received(t)) <==> forall x :: x in t && x !in s ==> t[x].value == 0
    ensures (forall x :: x in t && x !in s ==> t[x].value == 0) ==>
              Sum(Sent(s)) == Sum(Sent(t)) && Sum(Held(s)) == Sum(Held(t))
  {
    SumExtended(Received(s), Received(t));
    SumExtended(Sent(s), Sent(t));
    SumExtended(Held(s), Held(t));
    assert forall x :: x in Received(t) <==> x in t;
  }

  /** The row changes exactly if some gained output has a value or brings a transaction
      that the address did not have. */
  lemma SameRowIff(s: Slice, t: Slice, top: int)
    requires Grows(s, t, top) && GainsAtTop(s, t, top)
    ensures SameRow(s, t) <==> forall x :: x in t && x !in s ==> AddsNothing(s, x, t[x])
  {
    hide Received, Sent, Held, CreatedHeights, LastHeights, TxIdsIn;
    SumsStay(s, t, top);
    TxIdsGrow(s, t, top);
    SameSize(TxIdsIn(s), TxIdsIn(t));
    if s == map[] {
      NoTransactions(s);
    } else {
      var y :| y in s;
      if forall x :: x in t && x !in s ==> AddsNothing(s, x, t[x]) {
        HeightsStay(s, t, top);
      }
    }
  }

  lemma NoTransactions(s: Slice)
    requires s == map[]
    ensures TxIdsIn(s) == {}
  {
  }

  // --- coins whose transaction is in the tip block ---

  lemma {:induction false} FreshSpend(txs: map<TxId, TxRow>, c: CoinSet, h: Hash, genesis: bool, ids: seq<TxId>, k: nat, op: OutPoint)
    requires k <= |ids| && op !in c && op in BlockEffect(txs, c, h, genesis, ids, k)
    ensures var coin := BlockEffect(txs, c, h, genesis, ids, k)[op];
            coin.spend.Some? ==> coin.spend.value.block == h
  {
    var p := BlockEffect(txs, c, h, genesis, ids, k - 1);
    if ids[k - 1] in txs {
      TxEffectCoin(p, h, ids[k - 1], txs[ids[k - 1]], genesis, op);
    }
    if op in p {
      FreshSpend(txs, c, h, genesis, ids, k - 1, op);
    }
  }

  lemma TipAboveGenesis(ar: Archive, chain: seq<Hash>, op: OutPoint)
    requires Tracked(ar, chain) && chain != [] && op in CoinsOf(ar, chain)
    ensures HeightOf(ar, chain[|chain| - 1]) != 0
  {
    hide ChainValid, CoinsOk, CoinsOf;
    if |chain| == 1 {
      assert chain[..1] == chain;
      FirstBlockCoins(ar, chain);
    } else {
      LaterIsNotGenesis(ar, chain, 0, |chain| - 1);
    }
  }

  /** A coin whose transaction is in the tip block was created, and if spent then spent,
      by that block. */
  lemma TipCoin(ar: Archive, chain: seq<Hash>, op: OutPoint)
    requires Tracked(ar, chain) && chain != [] && op in CoinsOf(ar, chain) && op.txid in TxIdsOf(ar, chain[|chain| - 1])
    ensures CoinsOf(ar, chain)[op].creation == chain[|chain| - 1]
    ensures CoinsOf(ar, chain)[op].spend.Some? ==> CoinsOf(ar, chain)[op].spend.value.block == chain[|chain| - 1]
  {
    hide ArchiveOk, ChainOk, CoinsOk;
    var n, tip := |chain| - 1, chain[|chain| - 1];
    TipAboveGenesis(ar, chain, op);
    CoinCreatedOnce(ar, chain, op, n);
    if op in CoinsOf(ar, chain[..n]) {
      CreatorNotRepeated(ar, chain, n, n, op);
    }
    FreshSpend(ar.txs, CoinsOf(ar, chain[..n]), tip, HeightOf(ar, tip) == 0, TxIdsOf(ar, tip), |TxIdsOf(ar, tip)|, op);
  }

  /** And whatever such a transaction spent, it spent in the tip block. */
  lemma SpentAtTip(ar: Archive, chain: seq<Hash>, x: OutPoint, y: OutPoint)
    requires Tracked(ar, chain) && chain != [] && x in CoinsOf(ar, chain) && x.txid in TxIdsOf(ar, chain[|chain| - 1])
    requires y in CoinsOf(ar, chain) && CoinsOf(ar, chain)[y].spend.Some? && CoinsOf(ar, chain)[y].spend.value.txid == x.txid
    ensures CoinsOf(ar, chain)[y].spend.value.block == chain[|chain| - 1]
  {
    hide ArchiveOk, ChainOk, CoinsOk, CoinsOf;
    TipCoin(ar, chain, x);
    SpentIsInput(ar, chain, y);
    var j :| 0 <= j < |chain| && chain[j] == CoinsOf(ar, chain)[y].spend.value.block;
    if HeightOf(ar, chain[j]) == 0 {
      GenesisIsCoinbaseOnly(ar, chain, j, x.txid);
    } else {
      CoinCreatedOnce(ar, chain, x, j);
    }
  }

  lemma BelowTip(ar: Archive, chain: seq<Hash>, h: Hash)
    requires Linked(ar, chain) && h in chain
    ensures chain != [] && HeightOf(ar, h) <= HeightOf(ar, chain[|chain| - 1])
  {
  }

  lemma ActivityBelowTip(ar: Archive, chain: seq<Hash>, op: OutPoint)
    requires Tracked(ar, chain) && chain != [] && op in CoinsOf(ar, chain)
    ensures var act := ActivityOf(ar, op, CoinsOf(ar, chain)[op]);
            act.created <= HeightOf(ar, chain[|chain| - 1]) && LastActivity(act) <= HeightOf(ar, chain[|chain| - 1])
  {
    hide ArchiveOk, ChainValid, Linked, CoinsOk, CoinsOf;
    var c := CoinsOf(ar, chain);
    SpenderMentioned(c, op);
    CoinsMentionChain(ar, chain, c[op].creation);
    BelowTip(ar, chain, c[op].creation);
    if c[op].spend.Some? {
      CoinsMentionChain(ar, chain, c[op].spend.value.block);
      BelowTip(ar, chain, c[op].spend.value.block);
    }
  }

  /** Later tables name destinations only for coins of the tip block's transactions. */
  ghost predicate GainedAtTip(ar: Archive, ar': Archive, chain: seq<Hash>) {
    chain != [] && forall op :: op in CoinsOf(ar, chain) && op !in ar.outAddrs && op in ar'.outAddrs ==>
      op.txid in TxIdsOf(ar, chain[|chain| - 1])
  }

  lemma SliceKept(ar: Archive, ar': Archive, chain: seq<Hash>, a: Address, x: OutPoint)
    requires Tracked(ar, chain) && SameChainRows(ar, ar', chain) && Extends(ar, ar')
    ensures var s, t := SliceOf(ar, CoinsOf(ar, chain), a), SliceOf(ar', CoinsOf(ar, chain), a);
            && (x in s ==> x in t)
            && (x in t ==> x in CoinsOf(ar, chain) && x in ar'.outAddrs && ar'.outAddrs[x] == a
                           && t[x] == ActivityOf(ar, x, CoinsOf(ar, chain)[x]))
            && (x in s ==> s[x] == ActivityOf(ar, x, CoinsOf(ar, chain)[x]))
            && (x in t && x !in s ==> x !in ar.outAddrs)
  {
    hide ArchiveOk, ChainOk, CoinsOk, CoinsOf, ActivityOf, SameChainRows;
    if x in CoinsOf(ar, chain) {
      SameActivity(ar, ar', chain, x);
    }
  }

  lemma SliceGrows(ar: Archive, ar': Archive, chain: seq<Hash>, a: Address)
    requires Tracked(ar, chain) && SameChainRows(ar, ar', chain) && Extends(ar, ar') && chain != []
    requires Backed(ar, CoinsOf(ar, chain))
    ensures Grows(SliceOf(ar, CoinsOf(ar, chain), a), SliceOf(ar', CoinsOf(ar, chain), a), HeightOf(ar, chain[|chain| - 1]))
  {
    hide Tracked, SameChainRows, CoinsOf, SliceOf, LastActivity;
    var c := CoinsOf(ar, chain);
    var s, t, top := SliceOf(ar, c, a), SliceOf(ar', c, a), HeightOf(ar, chain[|chain| - 1]);
    forall x
      ensures x in s ==> x in t && t[x] == s[x]
      ensures x in t ==> t[x].value >= 0 && t[x].created <= top && LastActivity(t[x]) <= top
    {
      SliceKept(ar, ar', chain, a, x);
      if x in t {
        ActivityBelowTip(ar, chain, x);
      }
    }
  }

  lemma SliceGainsAtTop(ar: Archive, ar': Archive, chain: seq<Hash>, a: Address)
    requires Tracked(ar, chain) && SameChainRows(ar, ar', chain) && Extends(ar, ar') && GainedAtTip(ar, ar', chain)
    ensures GainsAtTop(SliceOf(ar, CoinsOf(ar, chain), a), SliceOf(ar', CoinsOf(ar, chain), a), HeightOf(ar, chain[|chain| - 1]))
  {
    hide Tracked, SameChainRows, CoinsOf, SliceOf;
    var c, tip := CoinsOf(ar, chain), chain[|chain| - 1];
    var s, t, top := SliceOf(ar, c, a), SliceOf(ar', c, a), HeightOf(ar, tip);
    forall x | x in t && x !in s
      ensures t[x].created == top && LastActivity(t[x]) == top
      ensures x.txid in TxIdsIn(s) ==> exists y :: y in s && LastActivity(s[y]) == top
    {
      SliceKept(ar, ar', chain, a, x);
      TipCoin(ar, chain, x);
      if x.txid in TxIdsIn(s) {
        var y := KnownAtTip(ar, ar', chain, a, x);
      }
    }
  }

  /** An output of the address by which it already knew x's transaction. */
  lemma KnownAtTip(ar: Archive, ar': Archive, chain: seq<Hash>, a: Address, x: OutPoint) returns (y: OutPoint)
    requires Tracked(ar, chain) && SameChainRows(ar, ar', chain) && Extends(ar, ar') && chain != []
    requires x in CoinsOf(ar, chain) && x.txid in TxIdsOf(ar, chain[|chain| - 1])
    requires x.txid in TxIdsIn(SliceOf(ar, CoinsOf(ar, chain), a))
    ensures y in SliceOf(ar, CoinsOf(ar, chain), a)
    ensures LastActivity(SliceOf(ar, CoinsOf(ar, chain), a)[y]) == HeightOf(ar, chain[|chain| - 1])
  {
    hide Tracked, SameChainRows, CoinsOf, SliceOf;
    var c := CoinsOf(ar, chain);
    var s := SliceOf(ar, c, a);
    if z :| z in s && z.txid == x.txid {
      y := z;
      SliceKept(ar, ar', chain, a, y);
      TipCoin(ar, chain, y);
    } else {
      y :| y in s && s[y].spend.Some? && s[y].spend.value.txid == x.txid;
      SliceKept(ar, ar', chain, a, y);
      SpentAtTip(ar, chain, x, y);
    }
    ActivityBelowTip(ar, chain, y);
  }
}
