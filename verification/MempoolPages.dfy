/** internal/query/mempool.go: following cursors through a cache that is replaced
    underneath either fails or lists one snapshot completely, once, newest first. */
module MempoolPages {
  import opened Wrappers
  import opened Errors
  import opened Int64
  import opened Chain
  import opened Tables
  import opened Amount
  import opened Text
  import Mempool

  type Rows = map<TxId, Mempool.Row>

  const MAX_PAGE_SIZE: nat := 100
  const DEFAULT_PAGE_SIZE: nat := 25

  datatype Cursor = Cursor(generation: int64, entryTime: int64, txid: TxId)

  datatype TxSummary = TxSummary(
    txid: TxId, wtxid: TxId, vsize: int, fee: int64, feeText: string, entryTime: int64)

  datatype TxPage = TxPage(txs: seq<TxSummary>, generation: int64, next: Option<Cursor>)

  datatype Freshness = Uninitialized | Fresh | Stale

  /** The snapshot's state beside the confirmed tip read in the same snapshot. */
  datatype StateView = StateView(state: Mempool.State, confirmed: Checkpoint, status: Freshness, stale: bool)

  datatype Overview = Overview(state: StateView, page: TxPage)

  /** Fresh means anchored exactly at the confirmed tip; a mempool never synchronized is
      neither fresh nor stale. */
  function StateFrom(st: Mempool.State, confirmed: Checkpoint): (v: StateView)
    ensures v.state == st && v.confirmed == confirmed
    ensures v.status == Uninitialized <==> !st.initialized
    ensures v.status == Fresh <==> st.initialized && confirmed.hash != "" && Checkpoint(st.tipHeight, st.tipHash) == confirmed
    ensures v.stale <==> v.status == Stale
  {
    if !st.initialized then StateView(st, confirmed, Uninitialized, false)
    else if confirmed.hash != "" && st.tipHeight == confirmed.height && st.tipHash == confirmed.hash then
      StateView(st, confirmed, Fresh, false)
    else StateView(st, confirmed, Stale, true)
  }

  function ClampPageSize(n: int): (size: nat)
    ensures 1 <= size <= 100
    ensures size == n || (n <= 0 && size == 25) || (n > 100 && size == 100)
  {
    if n <= 0 then DEFAULT_PAGE_SIZE else if n > MAX_PAGE_SIZE then MAX_PAGE_SIZE else n
  }

  // --- ORDER BY entry_time DESC, txid DESC ---

  /** The keyset condition of the WHERE clause. */
  predicate Below(rows: Rows, x: TxId, entryTime: int64, txid: TxId)
    requires x in rows
  {
    rows[x].entryTime < entryTime || (rows[x].entryTime == entryTime && TextBelow(x, txid))
  }

  /** x is listed before y. */
  predicate Before(rows: Rows, x: TxId, y: TxId)
    requires x in rows && y in rows
  {
    Below(rows, y, rows[x].entryTime, x)
  }

  lemma BeforeTotal(rows: Rows, x: TxId, y: TxId)
    requires x in rows && y in rows
    ensures x == y || Before(rows, x, y) || Before(rows, y, x)
    ensures !(Before(rows, x, y) && Before(rows, y, x))
  {
    TextTotal(x, y);
  }

  lemma BeforeTransitive(rows: Rows, x: TxId, y: TxId, z: TxId)
    requires x in rows && y in rows && z in rows && Before(rows, x, y) && Before(rows, y, z)
    ensures Before(rows, x, z)
  {
    if rows[x].entryTime == rows[z].entryTime {
      TextTransitive(z, y, x);
    }
  }

  predicate Leads(rows: Rows, s: set<TxId>, m: TxId)
    requires s <= rows.Keys && m in rows
  {
    forall y :: y in s ==> y == m || Before(rows, m, y)
  }

  lemma {:induction false} SomeoneLeads(rows: Rows, s: set<TxId>)
    requires s <= rows.Keys && s != {}
    ensures exists m :: m in s && Leads(rows, s, m)
  {
    hide Before;
    var x :| x in s;
    if s == {x} {
      assert Leads(rows, s, x);
    } else {
      assert s - {x} != {};
      SomeoneLeads(rows, s - {x});
      var m :| m in s - {x} && Leads(rows, s - {x}, m);
      BeforeTotal(rows, x, m);
      if Before(rows, m, x) {
        assert Leads(rows, s, m);
      } else {
        forall y | y in s
          ensures y == x || Before(rows, x, y)
        {
          if y != x && y != m {
            BeforeTransitive(rows, x, m, y);
          }
        }
        assert Leads(rows, s, x);
      }
    }
  }

  lemma OneLeads(rows: Rows, s: set<TxId>)
    requires s <= rows.Keys
    ensures forall m, n :: m in s && n in s && Leads(rows, s, m) && Leads(rows, s, n) ==> m == n
  {
    hide Before;
    forall m, n | m in s && n in s && Leads(rows, s, m) && Leads(rows, s, n)
      ensures m == n
    {
      BeforeTotal(rows, m, n);
    }
  }

  function Newest(rows: Rows, s: set<TxId>): (m: TxId)
    requires s <= rows.Keys && s != {}
    ensures m in s && Leads(rows, s, m)
  {
    SomeoneLeads(rows, s);
    OneLeads(rows, s);
    var m :| m in s && Leads(rows, s, m);
    m
  }

  /** Every row of s, newest first. */
  function Listing(rows: Rows, s: set<TxId>): seq<TxId>
    requires s <= rows.Keys
    decreases |s|
  {
    if s == {} then [] else
      var m := Newest(rows, s);
      [m] + Listing(rows, s - {m})
  }

  ghost predicate Descending(rows: Rows, l: seq<TxId>) {
    && (forall i :: 0 <= i < |l| ==> l[i] in rows)
    && (forall i, j :: 0 <= i < j < |l| ==> Before(rows, l[i], l[j]))
  }

  /** The listing holds exactly the asked rows and descends strictly, so none repeats. */
  lemma {:induction false} ListingIs(rows: Rows, s: set<TxId>)
    requires s <= rows.Keys
    ensures forall x :: x in Listing(rows, s) <==> x in s
    ensures Descending(rows, Listing(rows, s))
    ensures |Listing(rows, s)| == |s|
    decreases |s|
  {
    hide Before;
    if s != {} {
      var m := Newest(rows, s);
      var rest := Listing(rows, s - {m});
      ListingIs(rows, s - {m});
      forall j | 0 <= j < |rest|
        ensures Before(rows, m, rest[j])
      {
        assert rest[j] in s - {m};
      }
    }
  }

  /** A strictly descending list of the same rows is the listing. */
  lemma {:induction false} ListingUnique(rows: Rows, s: set<TxId>, l: seq<TxId>)
    requires s <= rows.Keys && Descending(rows, l) && forall x :: x in l <==> x in s
    ensures l == Listing(rows, s)
    decreases |l|
  {
    hide Before;
    if l == [] {
      assert s == {};
    } else {
      assert l[0] in l;
      var m := Newest(rows, s);
      assert l[0] in s && m in l;
      var k :| 0 <= k < |l| && l[k] == m;
      BeforeTotal(rows, l[0], m);
      assert l[0] == m;
      forall x
        ensures x in l[1..] <==> x in s - {m}
      {
        if x in l[1..] {
          var i :| 1 <= i < |l| && l[i] == x;
          BeforeTotal(rows, l[0], l[i]);
        }
        if x in s - {m} {
          var i :| 0 <= i < |l| && l[i] == x;
          assert l[1..][i - 1] == x;
        }
      }
      ListingUnique(rows, s - {m}, l[1..]);
      assert l == [m] + l[1..];
    }
  }

  // --- one page ---

  function Eligible(rows: Rows, cursor: Option<Cursor>): set<TxId> {
    set x | x in rows && (cursor.None? || Below(rows, x, cursor.value.entryTime, cursor.value.txid))
  }

  /** What the page query answers. */
  function Selected(rows: Rows, cursor: Option<Cursor>, size: nat): seq<TxId> {
    var l := Listing(rows, Eligible(rows, cursor));
    if |l| <= size then l else l[..size]
  }

  function Summary(txid: TxId, row: Mempool.Row): TxSummary {
    TxSummary(txid, row.wtxid, row.vsize, row.fee, Show(row.fee), row.entryTime)
  }

  ghost function Summaries(rows: Rows, l: seq<TxId>): seq<TxSummary>
    requires forall i :: 0 <= i < |l| ==> l[i] in rows
  {
    seq(|l|, i requires 0 <= i < |l| => Summary(l[i], rows[l[i]]))
  }

  ghost function NextCursor(rows: Rows, l: seq<TxId>, generation: int64, size: nat): Option<Cursor>
    requires forall i :: 0 <= i < |l| ==> l[i] in rows
  {
    if size > 0 && |l| == size then Some(Cursor(generation, rows[l[size - 1]].entryTime, l[size - 1])) else None
  }

  lemma SelectedIn(rows: Rows, cursor: Option<Cursor>, size: nat)
    ensures forall i :: 0 <= i < |Selected(rows, cursor, size)| ==> Selected(rows, cursor, size)[i] in rows
  {
    hide Below;
    ListingIs(rows, Eligible(rows, cursor));
  }

  ghost function Page(rows: Rows, generation: int64, cursor: Option<Cursor>, pageSize: int): TxPage {
    var size := ClampPageSize(pageSize);
    var l := Selected(rows, cursor, size);
    SelectedIn(rows, cursor, size);
    TxPage(Summaries(rows, l), generation, NextCursor(rows, l, generation, size))
  }

  ghost function Answer(cache: Mempool.Cache, confirmed: Checkpoint, cursor: Option<Cursor>, pageSize: int): Result<Overview, Error> {
    if cursor.Some? && cursor.value.generation != cache.state.generation then Err(MempoolGenerationChanged)
    else Ok(Overview(StateFrom(cache.state, confirmed), Page(cache.rows, cache.state.generation, cursor, pageSize)))
  }

  /** mempoolTxPageFrom: the query, then the row loop. */
  method TxPageFrom(rows: Rows, generation: int64, cursor: Option<Cursor>, pageSize: int)
    returns (page: TxPage)
    ensures page == Page(rows, generation, cursor, pageSize)
  {
    hide Listing, Eligible, Below, Show;
    var size := ClampPageSize(pageSize);
    SelectedIn(rows, cursor, size);
    var answer := Selected(rows, cursor, size);
    var txs: seq<TxSummary> := [];
    for i := 0 to |answer|
      invariant txs == Summaries(rows, answer[..i])
    {
      txs := txs + [Summary(answer[i], rows[answer[i]])];
    }
    assert answer[..|answer|] == answer;
    var next := None;
    if |txs| == size {
      var last := txs[|txs| - 1];
      next := Some(Cursor(generation, last.entryTime, last.txid));
    }
    return TxPage(txs, generation, next);
  }

  /** MempoolOverview, over one repeatable-read snapshot of the cache. */
  method MempoolOverview(cache: Mempool.Cache, confirmed: Checkpoint, cursor: Option<Cursor>, pageSize: int)
    returns (r: Result<Overview, Error>)
    ensures r == Answer(cache, confirmed, cursor, pageSize)
  {
    var state := StateFrom(cache.state, confirmed);
    if cursor.Some? && cursor.value.generation != cache.state.generation {
      return Err(MempoolGenerationChanged);
    }
    var page := TxPageFrom(cache.rows, cache.state.generation, cursor, pageSize);
    return Ok(Overview(state, page));
  }

  // --- following cursors inside one snapshot ---

  ghost function Everything(rows: Rows): seq<TxId> {
    Listing(rows, rows.Keys)
  }

  /** t is the summary of the k-th row of the whole listing. */
  ghost predicate Shows(rows: Rows, t: TxSummary, k: nat) {
    k < |Everything(rows)| && Everything(rows)[k] in rows && t == Summary(Everything(rows)[k], rows[Everything(rows)[k]])
  }

  /** Where a walk stands after its first k rows. */
  ghost predicate StandsAt(rows: Rows, cursor: Option<Cursor>, k: nat) {
    && k <= |Everything(rows)|
    && match cursor
       case None => k == 0
       case Some(c) => k > 0 && c.txid == Everything(rows)[k - 1] && c.txid in rows && c.entryTime == rows[c.txid].entryTime
  }

  /** The rows a cursor still admits are exactly the ones not yet listed. */
  lemma RemainingListing(rows: Rows, cursor: Option<Cursor>, k: nat)
    requires StandsAt(rows, cursor, k)
    ensures Listing(rows, Eligible(rows, cursor)) == Everything(rows)[k..]
  {
    hide Below, Listing;
    var all := Everything(rows);
    ListingIs(rows, rows.Keys);
    forall x
      ensures x in all[k..] <==> x in Eligible(rows, cursor)
    {
      if x in rows {
        var i :| 0 <= i < |all| && all[i] == x;
        if cursor.Some? {
          BeforeTotal(rows, all[k - 1], all[i]);
          assert i >= k ==> Before(rows, all[k - 1], all[i]);
          assert i < k - 1 ==> Before(rows, all[i], all[k - 1]);
        }
        assert i >= k ==> all[k..][i - k] == x;
        if x in all[k..] {
          var j :| k <= j < |all| && all[j] == x;
          BeforeTotal(rows, all[i], all[j]);
        }
      }
    }
    ListingUnique(rows, Eligible(rows, cursor), all[k..]);
  }

  /** One page advances the walk by the rows it shows; without a next cursor it ends it. */
  lemma PageAdvances(rows: Rows, generation: int64, cursor: Option<Cursor>, pageSize: int, k: nat)
    requires StandsAt(rows, cursor, k)
    ensures var p := Page(rows, generation, cursor, pageSize);
            && k + |p.txs| <= |Everything(rows)|
            && (forall i :: 0 <= i < |p.txs| ==> Shows(rows, p.txs[i], k + i))
            && (p.next.Some? ==> StandsAt(rows, p.next, k + |p.txs|) && p.next.value.generation == generation && |p.txs| > 0)
            && (p.next.None? ==> k + |p.txs| == |Everything(rows)|)
  {
    hide Below, Listing, Eligible, Show;
    RemainingListing(rows, cursor, k);
    SelectedIn(rows, cursor, ClampPageSize(pageSize));
  }

  // --- following cursors while the cache is replaced ---

  /** A call that sees the cache as it stood after `at` replacements, and some confirmed
      tip. */
  datatype Call = Call(at: nat, confirmed: Checkpoint, pageSize: int)

  datatype Progress = Progress(listed: seq<TxSummary>, next: Option<Cursor>)

  /** k calls, each passing on the cursor of the one before; a reader stops when a page
      carries none. */
  ghost function Walk(cs: seq<Mempool.Candidate>, calls: seq<Call>, k: nat): Result<Progress, Error>
    requires k <= |calls| && forall i :: 0 <= i < |calls| ==> calls[i].at <= |cs|
  {
    if k == 0 then Ok(Progress([], None))
    else
      match Walk(cs, calls, k - 1)
      case Err(e) => Err(e)
      case Ok(p) =>
        if k > 1 && p.next.None? then Ok(p)
        else
          match Answer(Mempool.After(cs, calls[k - 1].at), calls[k - 1].confirmed, p.next, calls[k - 1].pageSize)
          case Err(e) => Err(e)
          case Ok(o) => Ok(Progress(p.listed + o.page.txs, o.page.next))
  }

  ghost predicate SameGeneration(cs: seq<Mempool.Candidate>, calls: seq<Call>, i: nat)
    requires i < |calls| && forall j :: 0 <= j < |calls| ==> calls[j].at <= |cs|
  {
    Mempool.After(cs, calls[i].at).state.generation == Mempool.After(cs, calls[0].at).state.generation
  }

  ghost predicate ListsPrefix(rows: Rows, listed: seq<TxSummary>) {
    && |listed| <= |Everything(rows)|
    && forall i :: 0 <= i < |listed| ==> Shows(rows, listed[i], i)
  }

  /** What a walk of k calls, begun in the snapshot `rows` of this generation, knows. */
  ghost predicate OnCourse(rows: Rows, generation: int64, p: Progress, k: nat) {
    && ListsPrefix(rows, p.listed)
    && (p.next.None? ==> |p.listed| == |Everything(rows)|)
    && (p.next.Some? ==> StandsAt(rows, p.next, |p.listed|) && p.next.value.generation == generation && |p.listed| >= k)
  }

  lemma NextPage(rows: Rows, generation: int64, p: Progress, pageSize: int, k: nat)
    requires StandsAt(rows, p.next, |p.listed|) && ListsPrefix(rows, p.listed) && |p.listed| >= k
    ensures var page := Page(rows, generation, p.next, pageSize);
            OnCourse(rows, generation, Progress(p.listed + page.txs, page.next), k + 1)
  {
    hide Everything, Page, Shows;
    PageAdvances(rows, generation, p.next, pageSize, |p.listed|);
  }

  /** Whatever replacements happen between the calls, a walk either stays inside the
      snapshot of its first call or fails with the generation error; it fails only if
      some call did see another generation. */
  lemma {:induction false} WalkStaysOrFails(cs: seq<Mempool.Candidate>, calls: seq<Call>, k: nat)
    requires 0 < k <= |calls| && forall i :: 0 <= i < |calls| ==> calls[i].at <= |cs|
    ensures var first := Mempool.After(cs, calls[0].at);
            match Walk(cs, calls, k)
            case Ok(p) => OnCourse(first.rows, first.state.generation, p, k)
            case Err(e) => e == MempoolGenerationChanged && exists i :: 0 <= i < k && !SameGeneration(cs, calls, i)
  {
    hide OnCourse, Page, Mempool.After, ListsPrefix, Everything;
    var first := Mempool.After(cs, calls[0].at);
    if k == 1 {
      StartsOnCourse(first.rows);
      NextPage(first.rows, first.state.generation, Progress([], None), calls[0].pageSize, 0);
    } else {
      WalkStaysOrFails(cs, calls, k - 1);
      if Walk(cs, calls, k - 1).Ok? {
        var p := Walk(cs, calls, k - 1).value;
        StaysOnCourse(first.rows, first.state.generation, p, k - 1);
        if p.next.Some? && SameGeneration(cs, calls, k - 1) {
          Mempool.GenerationIdentifies(cs, calls[k - 1].at, calls[0].at);
          NextPage(first.rows, first.state.generation, p, calls[k - 1].pageSize, k - 1);
        }
      }
    }
  }

  lemma StartsOnCourse(rows: Rows)
    ensures StandsAt(rows, None, 0) && ListsPrefix(rows, [])
  {
  }

  lemma StaysOnCourse(rows: Rows, generation: int64, p: Progress, k: nat)
    requires OnCourse(rows, generation, p, k)
    ensures p.next.Some? ==> StandsAt(rows, p.next, |p.listed|) && ListsPrefix(rows, p.listed) && |p.listed| >= k && p.next.value.generation == generation
    ensures p.next.None? ==> OnCourse(rows, generation, p, k + 1)
  {
  }

  ghost function TxIds(listed: seq<TxSummary>): seq<TxId> {
    seq(|listed|, i requires 0 <= i < |listed| => listed[i].txid)
  }

  /** The reader holds every transaction of the snapshot exactly once, newest first, and
      nothing else. */
  ghost predicate ListsExactly(rows: Rows, listed: seq<TxSummary>) {
    && Descending(rows, TxIds(listed))
    && |listed| == |rows|
    && (forall x :: x in TxIds(listed) <==> x in rows)
    && (forall i :: 0 <= i < |listed| ==> listed[i].txid in rows && ShowsRow(listed[i], rows[listed[i].txid]))
    && (forall i, j :: 0 <= i < j < |listed| ==> ListedBefore(listed[i], listed[j]))
  }

  /** Every field of the summary, from the row. */
  ghost predicate ShowsRow(t: TxSummary, row: Mempool.Row) {
    && t.wtxid == row.wtxid && t.vsize == row.vsize && t.entryTime == row.entryTime
    && t.fee == row.fee && t.feeText == Show(row.fee)
  }

  /** Entered later, or at the same time with the greater txid. */
  ghost predicate ListedBefore(t: TxSummary, u: TxSummary) {
    t.entryTime > u.entryTime || (t.entryTime == u.entryTime && TextBelow(u.txid, t.txid))
  }

  lemma WholePrefix(rows: Rows, listed: seq<TxSummary>)
    requires ListsPrefix(rows, listed) && |listed| == |Everything(rows)|
    ensures ListsExactly(rows, listed)
  {
    hide Listing, Show, TextBelow;
    ListingIs(rows, rows.Keys);
    assert TxIds(listed) == Everything(rows);
    assert |rows| == |rows.Keys|;
    forall i, j | 0 <= i < j < |listed|
      ensures ListedBefore(listed[i], listed[j])
    {
      assert Shows(rows, listed[i], i) && Shows(rows, listed[j], j);
      assert Before(rows, Everything(rows)[i], Everything(rows)[j]);
    }
  }

  lemma PrefixFits(rows: Rows, listed: seq<TxSummary>)
    requires ListsPrefix(rows, listed)
    ensures |listed| <= |rows|
  {
    hide Listing, Before, Show;
    ListingIs(rows, rows.Keys);
    assert |rows| == |rows.Keys|;
  }

  /** An unfinished walk's next call fails exactly when it sees another generation. */
  lemma ChangeIsNoticed(cs: seq<Mempool.Candidate>, calls: seq<Call>, i: nat)
    requires 0 < i < |calls| && forall j :: 0 <= j < |calls| ==> calls[j].at <= |cs|
    requires Walk(cs, calls, i).Ok? && Walk(cs, calls, i).value.next.Some?
    ensures Walk(cs, calls, i + 1).Err? <==> !SameGeneration(cs, calls, i)
  {
    hide Page, Mempool.After, ListsPrefix, Everything;
    WalkStaysOrFails(cs, calls, i);
  }

  /** Generation-safe pagination. A walk of k calls has failed with the generation error,
      or has listed the newest rows of one snapshot in order, or is finished and has
      listed all of it. It finishes within one call more than there are rows. */
  lemma PaginationIsSafe(cs: seq<Mempool.Candidate>, calls: seq<Call>, k: nat)
    requires 0 < k <= |calls| && forall i :: 0 <= i < |calls| ==> calls[i].at <= |cs|
    ensures var rows := Mempool.After(cs, calls[0].at).rows;
            match Walk(cs, calls, k)
            case Err(e) => e == MempoolGenerationChanged && exists i :: 0 <= i < k && !SameGeneration(cs, calls, i)
            case Ok(p) => ListsPrefix(rows, p.listed) && (p.next.None? ==> ListsExactly(rows, p.listed)) && (k > |rows| ==> p.next.None?)
  {
    hide Walk, Mempool.After, ListsPrefix, ListsExactly, SameGeneration, Everything, StandsAt;
    WalkStaysOrFails(cs, calls, k);
    if Walk(cs, calls, k).Ok? {
      var p := Walk(cs, calls, k).value;
      var rows := Mempool.After(cs, calls[0].at).rows;
      PrefixFits(rows, p.listed);
      if p.next.None? {
        WholePrefix(rows, p.listed);
      }
    }
  }
}
