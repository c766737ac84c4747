/** The address cache: recomputeAddress's aggregate query, and why refreshing only
    touched addresses keeps every row equal to a full recomputation. */
module Cache {
  import opened Wrappers
  import opened Int64
  import opened Chain
  import opened Tables
  import opened Coins
  import opened Sums

  datatype Spender = Spender(txid: TxId, height: int)

  /** One row of recomputeAddress's join of output_addresses, transaction_outputs and
      utxo_state. */
  datatype Activity = Activity(value: int, created: int, spend: Option<Spender>)

  type Slice = map<OutPoint, Activity>

  function ActivityOf(ar: Archive, op: OutPoint, coin: Coin): Activity {
    Activity(Value(ar, op), HeightOf(ar, coin.creation),
             if coin.spend.Some? then Some(Spender(coin.spend.value.txid, HeightOf(ar, coin.spend.value.block))) else None)
  }

  predicate Owned(ar: Archive, c: CoinSet, a: Address, op: OutPoint) {
    op in c && op in ar.outAddrs && ar.outAddrs[op] == a
  }

  function SliceOf(ar: Archive, c: CoinSet, a: Address): Slice {
    map op | op in c && Owned(ar, c, a, op) :: ActivityOf(ar, op, c[op])
  }

  ghost predicate OwnsAlike(ar: Archive, c: CoinSet, ar': Archive, c': CoinSet, a: Address, op: OutPoint) {
    && (Owned(ar', c', a, op) <==> Owned(ar, c, a, op))
    && (Owned(ar, c, a, op) ==> ActivityOf(ar', op, c'[op]) == ActivityOf(ar, op, c[op]))
  }

  lemma SliceEqual(ar: Archive, c: CoinSet, ar': Archive, c': CoinSet, a: Address)
    requires forall op :: OwnsAlike(ar, c, ar', c', a, op)
    ensures SliceOf(ar', c', a) == SliceOf(ar, c, a)
  {
    var s, s' := SliceOf(ar, c, a), SliceOf(ar', c', a);
    forall op
      ensures op in s <==> op in s'
      ensures op in s ==> s[op] == s'[op]
    {
      assert OwnsAlike(ar, c, ar', c', a, op);
    }
  }

  function LastActivity(act: Activity): int {
    if act.spend.Some? && act.spend.value.height > act.created then act.spend.value.height else act.created
  }

  function TxIdsIn(s: Slice): set<TxId> {
    (set op | op in s :: op.txid) + (set op | op in s && s[op].spend.Some? :: s[op].spend.value.txid)
  }

  function Received(s: Slice): map<OutPoint, int> {
    map op | op in s :: s[op].value
  }

  function Sent(s: Slice): map<OutPoint, int> {
    map op | op in s && s[op].spend.Some? :: s[op].value
  }

  function Held(s: Slice): map<OutPoint, int> {
    map op | op in s && s[op].spend.None? :: s[op].value
  }

  function CreatedHeights(s: Slice): set<int> {
    set op | op in s :: s[op].created
  }

  function LastHeights(s: Slice): set<int> {
    set op | op in s :: LastActivity(s[op])
  }

  /** The row a full recomputation gives. */
  ghost function Summary(s: Slice): AddressRow
    requires s != map[]
  {
    var op :| op in s;
    assert s[op].created in CreatedHeights(s) && LastActivity(s[op]) in LastHeights(s);
    AddressRow(
      Sum(Received(s)), Sum(Sent(s)), Sum(Held(s)), |TxIdsIn(s)|, Min(CreatedHeights(s)), Max(LastHeights(s)))
  }

  /** A row of the slice was created or spent at this height. */
  ghost predicate SeenIn(s: Slice, op: OutPoint, height: int) {
    op in s && (height == s[op].created || (s[op].spend.Some? && height == s[op].spend.value.height))
  }

  /** What each column says about the slice. */
  ghost predicate SliceSays(s: Slice, row: AddressRow) {
    && row.balance == Sum(map op | op in s && s[op].spend == None :: s[op].value)
    && row.sent == Sum(map op | op in s && s[op].spend != None :: s[op].value)
    && row.received == row.sent + row.balance
    && row.txCount == |(set op | op in s :: op.txid) + (set op | op in s && s[op].spend.Some? :: s[op].spend.value.txid)|
    && (forall op :: op in s ==> row.firstSeen <= s[op].created)
    && (forall op, height :: SeenIn(s, op, height) ==> height <= row.lastSeen)
    && (exists op :: op in s && s[op].created == row.firstSeen)
    && (exists op :: SeenIn(s, op, row.lastSeen))
  }

  lemma SummarySays(s: Slice)
    requires s != map[]
    ensures SliceSays(s, Summary(s))
  {
    var row := Summary(s);
    ReceivedSplits(s);
    assert Held(s) == map op | op in s && s[op].spend == None :: s[op].value;
    assert Sent(s) == map op | op in s && s[op].spend != None :: s[op].value;
    assert row.firstSeen in CreatedHeights(s) && row.lastSeen in LastHeights(s);
    var last :| last in s && LastActivity(s[last]) == row.lastSeen;
    assert SeenIn(s, last, row.lastSeen);
    forall op | op in s
      ensures row.firstSeen <= s[op].created && LastActivity(s[op]) <= row.lastSeen
    {
      assert s[op].created in CreatedHeights(s) && LastActivity(s[op]) in LastHeights(s);
    }
  }

  /** Everything received is either held or sent on. */
  lemma ReceivedSplits(s: Slice)
    ensures Sum(Received(s)) == Sum(Sent(s)) + Sum(Held(s))
  {
    var spent := set op | op in s && s[op].spend.Some?;
    SumSplit(Received(s), spent);
    assert (map op | op in Received(s) && op in spent :: Received(s)[op]) == Sent(s);
    assert Received(s) - spent == Held(s);
  }

  const MAX_INT32 := 0x7FFF_FFFF

  /** The column ranges: BIGINT totals and an INT transaction count. */
  predicate FitsColumns(row: AddressRow) {
    InRange(row.received) && InRange(row.sent) && InRange(row.balance) && row.txCount <= MAX_INT32
  }

  ghost predicate SliceFits(s: Slice) {
    s != map[] ==> FitsColumns(Summary(s))
  }

  /** The cache after recomputing exactly the touched addresses. */
  ghost function Refresh(addresses: map<Address, AddressRow>, ar: Archive, c: CoinSet, touched: set<Address>): map<Address, AddressRow> {
    map a | a in addresses.Keys + touched && (a in touched ==> SliceOf(ar, c, a) != map[]) ::
      if a in touched then Summary(SliceOf(ar, c, a)) else addresses[a]
  }

  /** Every cached row is what recomputing it from scratch would give, every other
      address has no activity at all, and every row fits its columns. */
  ghost predicate CacheCoherent(addresses: map<Address, AddressRow>, ar: Archive, c: CoinSet) {
    forall a :: RowCoherent(addresses, ar, c, a)
  }

  ghost predicate RowCoherent(addresses: map<Address, AddressRow>, ar: Archive, c: CoinSet, a: Address) {
    var s := SliceOf(ar, c, a);
    && (a in addresses <==> s != map[])
    && (s != map[] ==> addresses[a] == Summary(s) && FitsColumns(Summary(s)))
  }

  ghost predicate SlicesAgreeOff(ar: Archive, c: CoinSet, ar': Archive, c': CoinSet, touched: set<Address>) {
    forall a :: a !in touched ==> SliceOf(ar', c', a) == SliceOf(ar, c, a)
  }

  /** Touching is enough: if all other slices are unchanged, refreshing the touched
      addresses restores coherence everywhere. */
  lemma RefreshCoherent(addresses: map<Address, AddressRow>, ar: Archive, c: CoinSet, ar': Archive, c': CoinSet, touched: set<Address>)
    requires CacheCoherent(addresses, ar, c)
    requires SlicesAgreeOff(ar, c, ar', c', touched)
    requires forall a :: a in touched ==> SliceFits(SliceOf(ar', c', a))
    ensures CacheCoherent(Refresh(addresses, ar', c', touched), ar', c')
  {
    forall a
      ensures RowCoherent(Refresh(addresses, ar', c', touched), ar', c', a)
    {
      assert RowCoherent(addresses, ar, c, a);
      if a !in touched {
        assert SliceOf(ar', c', a) == SliceOf(ar, c, a);
      }
    }
  }

  /** A coherent cache is determined by the coin set and the archive. */
  lemma CacheUnique(m: map<Address, AddressRow>, n: map<Address, AddressRow>, ar: Archive, c: CoinSet)
    requires CacheCoherent(m, ar, c) && CacheCoherent(n, ar, c)
    ensures m == n
  {
    forall a
      ensures a in m <==> a in n
      ensures a in m ==> m[a] == n[a]
    {
      assert RowCoherent(m, ar, c, a) && RowCoherent(n, ar, c, a);
    }
  }

  lemma EmptyCoherent(ar: Archive)
    ensures CacheCoherent(map[], ar, map[])
  {
    forall a
      ensures RowCoherent(map[], ar, map[], a)
    {
      assert SliceOf(ar, map[], a) == map[];
    }
  }

  // --- comparing slices ---

  /** s has fewer coins than t, or the same coins spent less often. */
  ghost predicate Precedes(s: Slice, t: Slice) {
    forall op :: op in s ==> op in t && s[op].value == t[op].value
                             && (s[op].spend.Some? ==> t[op].spend == s[op].spend)
  }

  lemma TotalsNonNegative(s: Slice)
    requires forall op :: op in s ==> s[op].value >= 0
    ensures 0 <= Sum(Sent(s)) <= Sum(Received(s)) && 0 <= Sum(Held(s)) <= Sum(Received(s))
  {
    SumNonNegative(Sent(s));
    SumNonNegative(Held(s));
    SumMonotone(Sent(s), Received(s));
    SumMonotone(Held(s), Received(s));
  }

  /** Going back in time never makes a row outgrow its columns. */
  lemma FitsEarlier(s: Slice, t: Slice)
    requires Precedes(s, t) && SliceFits(t)
    requires forall op :: op in t ==> t[op].value >= 0
    ensures SliceFits(s)
  {
    if s != map[] {
      assert exists op :: op in s;
      TotalsNonNegative(s);
      SumMonotone(Received(s), Received(t));
      assert TxIdsIn(s) <= TxIdsIn(t);
      SubsetSize(TxIdsIn(s), TxIdsIn(t));
    }
  }
}
