/** recomputeAddress's aggregate query as a single pass over the address's rows. */
module Recompute {
  import opened Wrappers
  import opened Chain
  import opened Tables
  import opened Coins
  import opened Sums
  import opened Cache

  lemma ReceivedPut(s: Slice, op: OutPoint, act: Activity)
    requires op !in s
    ensures Received(s[op := act]) == Received(s)[op := act.value]
    ensures Sum(Received(s[op := act])) == Sum(Received(s)) + act.value
  {
    SumPut(Received(s), op, act.value);
  }

  lemma SentPut(s: Slice, op: OutPoint, act: Activity)
    requires op !in s
    ensures Sum(Sent(s[op := act])) == Sum(Sent(s)) + if act.spend.Some? then act.value else 0
  {
    if act.spend.Some? {
      assert Sent(s[op := act]) == Sent(s)[op := act.value];
      SumPut(Sent(s), op, act.value);
    } else {
      assert Sent(s[op := act]) == Sent(s);
    }
  }

  lemma HeldPut(s: Slice, op: OutPoint, act: Activity)
    requires op !in s
    ensures Sum(Held(s[op := act])) == Sum(Held(s)) + if act.spend.None? then act.value else 0
  {
    if act.spend.None? {
      assert Held(s[op := act]) == Held(s)[op := act.value];
      SumPut(Held(s), op, act.value);
    } else {
      assert Held(s[op := act]) == Held(s);
    }
  }

  lemma IdsPut(s: Slice, op: OutPoint, act: Activity)
    requires op !in s
    ensures TxIdsIn(s[op := act]) == TxIdsIn(s) + {op.txid} + if act.spend.Some? then {act.spend.value.txid} else {}
  {
    var s' := s[op := act];
    forall x
      ensures x in TxIdsIn(s') <==> x in TxIdsIn(s) + {op.txid} + if act.spend.Some? then {act.spend.value.txid} else {}
    {
      if x in TxIdsIn(s) {
        var o :| o in s && (o.txid == x || (s[o].spend.Some? && s[o].spend.value.txid == x));
        assert o in s' && s'[o] == s[o];
      }
      assert op in s' && s'[op] == act;
    }
  }

  lemma HeightsPut(s: Slice, op: OutPoint, act: Activity)
    requires op !in s
    ensures CreatedHeights(s[op := act]) == CreatedHeights(s) + {act.created}
    ensures LastHeights(s[op := act]) == LastHeights(s) + {LastActivity(act)}
  {
    var s' := s[op := act];
    forall h
      ensures h in CreatedHeights(s') <==> h in CreatedHeights(s) + {act.created}
      ensures h in LastHeights(s') <==> h in LastHeights(s) + {LastActivity(act)}
    {
      if h in CreatedHeights(s) {
        var o :| o in s && s[o].created == h;
        assert o in s' && s'[o] == s[o];
      }
      if h in LastHeights(s) {
        var o :| o in s && LastActivity(s[o]) == h;
        assert o in s' && s'[o] == s[o];
      }
      assert op in s' && s'[op] == act;
    }
  }

  /** The running aggregates over the rows seen so far. */
  datatype Totals = Totals(received: int, sent: int, held: int, ids: set<TxId>, first: int, last: int)

  ghost predicate Describes(t: Totals, s: Slice) {
    && t.received == Sum(Received(s)) && t.sent == Sum(Sent(s)) && t.held == Sum(Held(s))
    && t.ids == TxIdsIn(s)
    && (s != map[] ==> IsMin(t.first, CreatedHeights(s)) && IsMax(t.last, LastHeights(s)))
  }

  function Include(t: Totals, isFirst: bool, op: OutPoint, act: Activity): Totals {
    Totals(
      t.received + act.value,
      t.sent + (if act.spend.Some? then act.value else 0),
      t.held + (if act.spend.None? then act.value else 0),
      t.ids + {op.txid} + (if act.spend.Some? then {act.spend.value.txid} else {}),
      if isFirst || act.created < t.first then act.created else t.first,
      if isFirst || LastActivity(act) > t.last then LastActivity(act) else t.last)
  }

  lemma NothingDescribed()
    ensures Describes(Totals(0, 0, 0, {}, 0, 0), map[])
  {
    var s: Slice := map[];
    assert Received(s) == map[] && Sent(s) == map[] && Held(s) == map[];
  }

  lemma IncludeDescribes(t: Totals, s: Slice, op: OutPoint, act: Activity)
    requires Describes(t, s) && op !in s
    ensures Describes(Include(t, s == map[], op, act), s[op := act])
  {
    hide TxIdsIn, CreatedHeights, LastHeights, Received, Sent, Held;
    ReceivedPut(s, op, act);
    SentPut(s, op, act);
    HeldPut(s, op, act);
    IdsPut(s, op, act);
    HeightsPut(s, op, act);
    EmptyHeights(s);
  }

  lemma EmptyHeights(s: Slice)
    ensures s == map[] ==> CreatedHeights(s) == {} && LastHeights(s) == {}
  {
  }

  lemma ExtremesAgree(t: Totals, s: Slice)
    requires Describes(t, s) && s != map[]
    ensures Summary(s) == AddressRow(t.received, t.sent, t.held, |t.ids|, t.first, t.last)
  {
    hide TxIdsIn, Received, Sent, Held;
    var op :| op in s;
    assert s[op].created in CreatedHeights(s) && LastActivity(s[op]) in LastHeights(s);
  }

  lemma RowsSeen(s: Slice, rest: set<OutPoint>, op: OutPoint)
    requires rest <= s.Keys && op in rest
    ensures s - (rest - {op}) == (s - rest)[op := s[op]]
    ensures (s - rest == map[]) == (rest == s.Keys)
  {
    assert (s - rest).Keys == s.Keys - rest;
    if s.Keys - rest == {} {
      forall o | o in s.Keys
        ensures o in rest
      {
        assert o in rest || o in s.Keys - rest;
      }
    }
  }

  /** One row for the whole slice, or None when the address has no activity. */
  method Aggregate(s: Slice) returns (row: Option<AddressRow>)
    ensures row.None? <==> s == map[]
    ensures row.Some? ==> row.value == Summary(s) && SliceSays(s, row.value)
  {
    hide SliceSays, Summary, Include, TxIdsIn, CreatedHeights, LastHeights, Received, Sent, Held, Sum;
    var t := Totals(0, 0, 0, {}, 0, 0);
    var rest := s.Keys;
    assert s - rest == map[];
    NothingDescribed();
    while rest != {}
      invariant rest <= s.Keys
      invariant Describes(t, s - rest)
      decreases |rest|
    {
      var op :| op in rest;
      RowsSeen(s, rest, op);
      IncludeDescribes(t, s - rest, op, s[op]);
      t := Include(t, rest == s.Keys, op, s[op]);
      rest := rest - {op};
    }
    assert s - {} == s;
    if |t.ids| == 0 {
      NoIdsNoRows(s);
      return None;
    }
    NoIdsNoRows(s);
    ExtremesAgree(t, s);
    SummarySays(s);
    return Some(AddressRow(t.received, t.sent, t.held, |t.ids|, t.first, t.last));
  }

  lemma NoIdsNoRows(s: Slice)
    ensures |TxIdsIn(s)| == 0 <==> s == map[]
  {
    if s != map[] {
      var op :| op in s;
      assert op.txid in TxIdsIn(s);
    }
  }

  // --- refreshing one address after another ---

  lemma RefreshOne(m: map<Address, AddressRow>, ar: Archive, c: CoinSet, done: set<Address>, a: Address)
    ensures Refresh(Refresh(m, ar, c, done), ar, c, {a}) == Refresh(m, ar, c, done + {a})
  {
    hide SliceOf, Summary;
  }

  lemma RefreshIs(m: map<Address, AddressRow>, ar: Archive, c: CoinSet, a: Address)
    ensures SliceOf(ar, c, a) == map[] ==> Refresh(m, ar, c, {a}) == m - {a}
    ensures SliceOf(ar, c, a) != map[] ==> Refresh(m, ar, c, {a}) == m[a := Summary(SliceOf(ar, c, a))]
  {
    hide SliceOf, Summary;
  }

  lemma RefreshNone(m: map<Address, AddressRow>, ar: Archive, c: CoinSet)
    ensures Refresh(m, ar, c, {}) == m
  {
  }
}
