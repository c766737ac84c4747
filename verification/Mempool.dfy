/** internal/mempool/store.go: a mempool snapshot is replaced as a whole or not at all,
    and its generation number identifies its contents. */
module Mempool {
  import opened Wrappers
  import opened Errors
  import opened Int64
  import opened Chain
  import opened Coins
  import opened Sums

  const MAX_INT32 := 0x7FFF_FFFF

  /** One decoded candidate transaction. Inputs and outputs are carried as one opaque
      body; `coinbase` covers both ways a transaction can be coinbase-shaped. */
  datatype CandidateTx = CandidateTx(
    txid: TxId, wtxid: TxId, body: string, coinbase: bool, vsize: int, fee: int64, entryTime: int64, depends: seq<TxId>)

  datatype Candidate = Candidate(tipHeight: int64, tipHash: Hash, txs: seq<CandidateTx>)

  datatype Row = Row(wtxid: TxId, body: string, vsize: int, fee: int64, entryTime: int64)

  datatype Dependency = Dependency(txid: TxId, on: TxId)

  datatype State = State(
    initialized: bool, generation: int64, tipHeight: int64, tipHash: Hash, txCount: int, totalVSize: int64, totalFee: int64)

  /** The mempool tables. */
  datatype Cache = Cache(state: State, rows: map<TxId, Row>, deps: set<Dependency>)

  const UNINITIALIZED := Cache(State(false, 0, -1, "", 0, 0, 0), map[], {})

  function RowOf(t: CandidateTx): Row {
    Row(t.wtxid, t.body, t.vsize, t.fee, t.entryTime)
  }

  // --- candidate.validate ---

  ghost predicate HasTxId(c: Candidate, x: TxId) {
    exists i :: 0 <= i < |c.txs| && c.txs[i].txid == x
  }

  ghost predicate DependsOk(c: Candidate, t: CandidateTx) {
    forall j :: 0 <= j < |t.depends| ==> t.depends[j] != t.txid && HasTxId(c, t.depends[j])
  }

  ghost predicate ValidCandidate(c: Candidate) {
    && WellFormedHash(c.tipHash) && c.tipHeight >= 0
    && (forall i :: 0 <= i < |c.txs| ==> !c.txs[i].coinbase)
    && (forall i, j :: 0 <= i < j < |c.txs| ==> c.txs[i].txid != c.txs[j].txid && c.txs[i].wtxid != c.txs[j].wtxid)
    && (forall i :: 0 <= i < |c.txs| ==> DependsOk(c, c.txs[i]))
  }

  function TxIdsUpTo(c: Candidate, k: nat): set<TxId>
    requires k <= |c.txs|
  {
    set i | 0 <= i < k :: c.txs[i].txid
  }

  function WTxIdsUpTo(c: Candidate, k: nat): set<TxId>
    requires k <= |c.txs|
  {
    set i | 0 <= i < k :: c.txs[i].wtxid
  }

  lemma NextIds(c: Candidate, k: nat)
    requires k < |c.txs|
    ensures TxIdsUpTo(c, k + 1) == TxIdsUpTo(c, k) + {c.txs[k].txid}
    ensures WTxIdsUpTo(c, k + 1) == WTxIdsUpTo(c, k) + {c.txs[k].wtxid}
  {
  }

  /** Every dependency must name another transaction of the same snapshot. */
  method ValidateDepends(c: Candidate, t: CandidateTx, txids: set<TxId>) returns (ok: bool)
    requires txids == TxIdsUpTo(c, |c.txs|)
    ensures ok <==> DependsOk(c, t)
  {
    for j := 0 to |t.depends|
      invariant forall i :: 0 <= i < j ==> t.depends[i] != t.txid && HasTxId(c, t.depends[i])
    {
      if t.depends[j] == t.txid || t.depends[j] !in txids {
        return false;
      }
    }
    return true;
  }

  method Validate(c: Candidate) returns (ok: bool)
    ensures ok <==> ValidCandidate(c)
  {
    if !WellFormedHash(c.tipHash) || c.tipHeight < 0 {
      return false;
    }
    var txids, wtxids: set<TxId> := {}, {};
    for i := 0 to |c.txs|
      invariant txids == TxIdsUpTo(c, i) && wtxids == WTxIdsUpTo(c, i)
      invariant forall j :: 0 <= j < i ==> !c.txs[j].coinbase
      invariant forall j, k :: 0 <= j < k < i ==> c.txs[j].txid != c.txs[k].txid && c.txs[j].wtxid != c.txs[k].wtxid
    {
      var t := c.txs[i];
      if t.coinbase || t.txid in txids || t.wtxid in wtxids {
        return false;
      }
      NextIds(c, i);
      txids, wtxids := txids + {t.txid}, wtxids + {t.wtxid};
    }
    for i := 0 to |c.txs|
      invariant forall j :: 0 <= j < i ==> DependsOk(c, c.txs[j])
    {
      var dependsOk := ValidateDepends(c, c.txs[i], txids);
      if !dependsOk {
        return false;
      }
    }
    return true;
  }

  // --- the replacement ---

  /** The CHECK constraints of one mempool_transactions row. */
  predicate StorableRow(t: CandidateTx) {
    WellFormedHash(t.txid) && WellFormedHash(t.wtxid) && 0 <= t.vsize <= MAX_INT32 && t.fee >= 0
  }

  function RowsUpTo(c: Candidate, k: nat): map<TxId, Row>
    requires k <= |c.txs|
  {
    if k == 0 then map[] else RowsUpTo(c, k - 1)[c.txs[k - 1].txid := RowOf(c.txs[k - 1])]
  }

  function DepsOf(t: CandidateTx): set<Dependency> {
    set j | 0 <= j < |t.depends| :: Dependency(t.txid, t.depends[j])
  }

  function DepsUpTo(c: Candidate, k: nat): set<Dependency>
    requires k <= |c.txs|
  {
    if k == 0 then {} else DepsUpTo(c, k - 1) + DepsOf(c.txs[k - 1])
  }

  ghost function VSizes(c: Candidate, k: nat): int
    requires k <= |c.txs|
  {
    if k == 0 then 0 else VSizes(c, k - 1) + c.txs[k - 1].vsize
  }

  ghost function Fees(c: Candidate, k: nat): int
    requires k <= |c.txs|
  {
    if k == 0 then 0 else Fees(c, k - 1) + c.txs[k - 1].fee
  }

  /** The CHECK constraints and column types of the state row. */
  predicate StorableState(generation: int64, txCount: int, totalVSize: int64, totalFee: int64) {
    generation < MAX_INT64 && txCount <= MAX_INT32 && totalVSize >= 0 && totalFee >= 0
  }

  /** The primary key of mempool_dependencies: no parent is listed twice. */
  ghost predicate DistinctDepends(c: Candidate) {
    forall i :: 0 <= i < |c.txs| ==> Distinct(c.txs[i].depends)
  }

  ghost predicate StorableRows(c: Candidate) {
    forall i :: 0 <= i < |c.txs| ==> StorableRow(c.txs[i])
  }

  /** What the database refuses beyond candidate.validate. */
  ghost predicate Storable(cache: Cache, c: Candidate) {
    && StorableRows(c)
    && DistinctDepends(c)
    && StorableState(cache.state.generation, |c.txs|, Wrap(VSizes(c, |c.txs|)), Wrap(Fees(c, |c.txs|)))
  }

  /** The whole new snapshot; nothing of the old one is left. */
  ghost function Snapshot(cache: Cache, c: Candidate): Cache
    requires cache.state.generation < MAX_INT64
  {
    Cache(State(true, cache.state.generation + 1, c.tipHeight, c.tipHash, |c.txs|, Wrap(VSizes(c, |c.txs|)), Wrap(Fees(c, |c.txs|))),
          RowsUpTo(c, |c.txs|), DepsUpTo(c, |c.txs|))
  }

  ghost function Replaced(cache: Cache, c: Candidate): Result<Cache, Error> {
    if !ValidCandidate(c) then Err(CandidateInvalid)
    else if !Storable(cache, c) then Err(DatabaseConstraint)
    else Ok(Snapshot(cache, c))
  }

  lemma {:induction false} RowKeys(c: Candidate, k: nat)
    requires k <= |c.txs|
    ensures RowsUpTo(c, k).Keys == TxIdsUpTo(c, k)
  {
    if k > 0 {
      RowKeys(c, k - 1);
      NextIds(c, k - 1);
    }
  }

  /** A dependency pair comes from the transaction it starts at. */
  lemma {:induction false} DepsFrom(c: Candidate, k: nat, d: Dependency)
    requires k <= |c.txs| && d in DepsUpTo(c, k)
    ensures d.txid in TxIdsUpTo(c, k)
  {
    if k > 0 {
      NextIds(c, k - 1);
      if d in DepsUpTo(c, k - 1) {
        DepsFrom(c, k - 1, d);
      }
    }
  }

  lemma WrapZero()
    ensures Wrap(0) == 0
  {
  }

  lemma DepsStep(t: CandidateTx, j: nat, deps: set<Dependency>, before: set<Dependency>)
    requires j < |t.depends| && deps == before + (set i | 0 <= i < j :: Dependency(t.txid, t.depends[i]))
    ensures deps + {Dependency(t.txid, t.depends[j])} == before + (set i | 0 <= i < j + 1 :: Dependency(t.txid, t.depends[i]))
  {
  }

  lemma {:induction false} RowAt(c: Candidate, k: nat, i: nat)
    requires ValidCandidate(c) && i < k <= |c.txs|
    ensures c.txs[i].txid in RowsUpTo(c, k) && RowsUpTo(c, k)[c.txs[i].txid] == RowOf(c.txs[i])
  {
    if i < k - 1 {
      RowAt(c, k - 1, i);
    }
  }

  lemma {:induction false} DepsAt(c: Candidate, k: nat, d: Dependency)
    requires k <= |c.txs|
    ensures d in DepsUpTo(c, k) <==> exists i :: 0 <= i < k && d in DepsOf(c.txs[i])
  {
    hide DepsOf;
    if k > 0 {
      DepsAt(c, k - 1, d);
    }
  }

  // --- what is stored ---

  /** Every field of the row, from the transaction. */
  ghost predicate RowHolds(row: Row, t: CandidateTx) {
    && row.wtxid == t.wtxid && row.body == t.body && row.vsize == t.vsize && row.fee == t.fee && row.entryTime == t.entryTime
    && |t.txid| == 64 && |t.wtxid| == 64 && 0 <= t.vsize <= 2_147_483_647 && t.fee >= 0
  }

  function SizesIn(rows: map<TxId, Row>): map<TxId, int> {
    map x | x in rows :: rows[x].vsize
  }

  function FeesIn(rows: map<TxId, Row>): map<TxId, int> {
    map x | x in rows :: rows[x].fee
  }

  /** The tables hold the candidate and nothing else, one generation later. */
  ghost predicate Holds(c: Candidate, generation: int64, cache: Cache) {
    && cache.state.initialized && cache.state.generation == generation + 1
    && cache.state.tipHeight == c.tipHeight && cache.state.tipHash == c.tipHash
    && cache.state.txCount == |c.txs| == |cache.rows|
    && cache.state.totalVSize == Wrap(Sum(SizesIn(cache.rows))) && cache.state.totalFee == Wrap(Sum(FeesIn(cache.rows)))
    && (forall i :: 0 <= i < |c.txs| ==> c.txs[i].txid in cache.rows && RowHolds(cache.rows[c.txs[i].txid], c.txs[i]))
    && (forall x :: x in cache.rows ==> HasTxId(c, x))
    && (forall x, y :: Dependency(x, y) in cache.deps <==> exists i :: 0 <= i < |c.txs| && c.txs[i].txid == x && y in c.txs[i].depends)
  }

  lemma PutSize(m: map<TxId, Row>, x: TxId, row: Row)
    requires x !in m
    ensures Sum(SizesIn(m[x := row])) == Sum(SizesIn(m)) + row.vsize
  {
    assert SizesIn(m[x := row]) == SizesIn(m)[x := row.vsize];
    SumPut(SizesIn(m), x, row.vsize);
  }

  lemma PutFee(m: map<TxId, Row>, x: TxId, row: Row)
    requires x !in m
    ensures Sum(FeesIn(m[x := row])) == Sum(FeesIn(m)) + row.fee
  {
    assert FeesIn(m[x := row]) == FeesIn(m)[x := row.fee];
    SumPut(FeesIn(m), x, row.fee);
  }

  lemma PutRow(m: map<TxId, Row>, x: TxId, row: Row)
    requires x !in m
    ensures |m[x := row]| == |m| + 1
  {
    assert m[x := row].Keys == m.Keys + {x};
  }

  lemma {:induction false} TotalsOf(c: Candidate, k: nat)
    requires ValidCandidate(c) && k <= |c.txs|
    ensures VSizes(c, k) == Sum(SizesIn(RowsUpTo(c, k))) && Fees(c, k) == Sum(FeesIn(RowsUpTo(c, k)))
    ensures |RowsUpTo(c, k)| == k
  {
    hide ValidCandidate, SizesIn, FeesIn, Sum;
    if k == 0 {
      NothingSummed();
    } else {
      TotalsOf(c, k - 1);
      NewKey(c, k);
      var before, t := RowsUpTo(c, k - 1), c.txs[k - 1];
      PutRow(before, t.txid, RowOf(t));
      PutSize(before, t.txid, RowOf(t));
      PutFee(before, t.txid, RowOf(t));
    }
  }

  lemma NothingSummed()
    ensures Sum(SizesIn(map[])) == 0 && Sum(FeesIn(map[])) == 0
  {
    assert SizesIn(map[]) == map[] && FeesIn(map[]) == map[];
  }

  lemma NewKey(c: Candidate, k: nat)
    requires ValidCandidate(c) && 0 < k <= |c.txs|
    ensures c.txs[k - 1].txid !in RowsUpTo(c, k - 1)
  {
    RowKeys(c, k - 1);
  }

  lemma RowsHold(c: Candidate, i: nat)
    requires ValidCandidate(c) && StorableRows(c) && i < |c.txs|
    ensures c.txs[i].txid in RowsUpTo(c, |c.txs|) && RowHolds(RowsUpTo(c, |c.txs|)[c.txs[i].txid], c.txs[i])
  {
    hide ValidCandidate;
    RowAt(c, |c.txs|, i);
    assert StorableRow(c.txs[i]);
  }

  lemma DepsHold(c: Candidate, x: TxId, y: TxId)
    ensures Dependency(x, y) in DepsUpTo(c, |c.txs|)
            <==> exists i :: 0 <= i < |c.txs| && c.txs[i].txid == x && y in c.txs[i].depends
  {
    DepsAt(c, |c.txs|, Dependency(x, y));
    forall i | 0 <= i < |c.txs|
      ensures Dependency(x, y) in DepsOf(c.txs[i]) <==> c.txs[i].txid == x && y in c.txs[i].depends
    {
    }
  }

  /** An accepted replacement stores the candidate field by field. */
  lemma SnapshotHolds(cache: Cache, c: Candidate)
    requires ValidCandidate(c) && Storable(cache, c)
    ensures Holds(c, cache.state.generation, Snapshot(cache, c))
  {
    hide ValidCandidate, Wrap, StorableRows, DistinctDepends, RowsUpTo, DepsUpTo, RowHolds, Sum, SizesIn, FeesIn, VSizes, Fees;
    var n := |c.txs|;
    TotalsOf(c, n);
    RowKeys(c, n);
    forall i | 0 <= i < n
      ensures c.txs[i].txid in RowsUpTo(c, n) && RowHolds(RowsUpTo(c, n)[c.txs[i].txid], c.txs[i])
    {
      RowsHold(c, i);
    }
    forall x, y
      ensures Dependency(x, y) in DepsUpTo(c, n) <==> exists i :: 0 <= i < n && c.txs[i].txid == x && y in c.txs[i].depends
    {
      DepsHold(c, x, y);
    }
  }

  class Cached {
    var cache: Cache

    constructor ()
      ensures cache == UNINITIALIZED
    {
      cache := UNINITIALIZED;
    }

    /** Pass 1: every transaction row. */
    method InsertBodies(c: Candidate) returns (r: Option<(map<TxId, Row>, int64, int64)>)
      requires ValidCandidate(c)
      ensures r.None? <==> !StorableRows(c)
      ensures r.Some? ==> r.value == (RowsUpTo(c, |c.txs|), Wrap(VSizes(c, |c.txs|)), Wrap(Fees(c, |c.txs|)))
    {
      hide Wrap, StorableRow, ValidCandidate;
      var rows: map<TxId, Row> := map[];
      var totalVSize: int64, totalFee: int64 := 0, 0;
      WrapZero();
      for k := 0 to |c.txs|
        invariant rows == RowsUpTo(c, k) && totalVSize == Wrap(VSizes(c, k)) && totalFee == Wrap(Fees(c, k))
        invariant forall i :: 0 <= i < k ==> StorableRow(c.txs[i])
      {
        var t := c.txs[k];
        if !StorableRow(t) {
          return None;
        }
        rows := rows[t.txid := RowOf(t)];
        WrapAdd(VSizes(c, k), t.vsize);
        WrapAdd(Fees(c, k), t.fee);
        var vsize: int, fee: int := totalVSize, totalFee;
        totalVSize, totalFee := Wrap(vsize + t.vsize), Wrap(fee + t.fee);
      }
      return Some((rows, totalVSize, totalFee));
    }

    /** One transaction's dependency rows: both ends already exist. */
    method InsertDepends(c: Candidate, k: nat, rows: map<TxId, Row>, before: set<Dependency>) returns (r: Option<set<Dependency>>)
      requires ValidCandidate(c) && k < |c.txs| && rows == RowsUpTo(c, |c.txs|) && before == DepsUpTo(c, k)
      ensures r.None? <==> !Distinct(c.txs[k].depends)
      ensures r.Some? ==> r.value == DepsUpTo(c, k + 1)
    {
      var t := c.txs[k];
      var deps := before;
      RowKeys(c, |c.txs|);
      var j := 0;
      while j < |t.depends|
        invariant 0 <= j <= |t.depends|
        invariant deps == before + (set i | 0 <= i < j :: Dependency(t.txid, t.depends[i]))
        invariant forall a, b :: 0 <= a < b < j ==> t.depends[a] != t.depends[b]
      {
        var d := Dependency(t.txid, t.depends[j]);
        if d in before {
          DepsFrom(c, k, d);
        }
        if d in deps {
          return None;
        }
        if t.txid !in rows || t.depends[j] !in rows {
          return None;
        }
        DepsStep(t, j, deps, before);
        deps := deps + {d};
        j := j + 1;
      }
      return Some(deps);
    }

    /** ReplaceSnapshot: clear, insert every transaction, then every dependency, then bump
        the generation. Any failure leaves the previous snapshot as it was. */
    method ReplaceSnapshot(c: Candidate) returns (r: Result<int64, Error>)
      modifies this
      ensures match Replaced(old(cache), c)
              case Ok(next) => r == Ok(next.state.generation) && cache == next
              case Err(e) => r == Err(e) && cache == old(cache)
      ensures r.Ok? ==> Holds(c, old(cache).state.generation, cache)
      ensures r == Err(CandidateInvalid) <==> !ValidCandidate(c)
      ensures r.Err? ==> r.error == CandidateInvalid || r.error == DatabaseConstraint
    {
      hide ValidCandidate, StorableRow, Distinct, Wrap, Holds;
      var valid := Validate(c);
      if !valid {
        return Err(CandidateInvalid);
      }
      var bodies := InsertBodies(c);
      if bodies.None? {
        return Err(DatabaseConstraint);
      }
      var rows, totalVSize, totalFee := bodies.value.0, bodies.value.1, bodies.value.2;
      var deps: set<Dependency> := {};
      for k := 0 to |c.txs|
        invariant cache == old(cache) && deps == DepsUpTo(c, k)
        invariant forall i :: 0 <= i < k ==> Distinct(c.txs[i].depends)
      {
        var more := InsertDepends(c, k, rows, deps);
        if more.None? {
          assert !DistinctDepends(c);
          return Err(DatabaseConstraint);
        }
        deps := more.value;
      }
      assert DistinctDepends(c);
      if !StorableState(cache.state.generation, |c.txs|, totalVSize, totalFee) {
        return Err(DatabaseConstraint);
      }
      ghost var before := cache;
      cache := Cache(State(true, cache.state.generation + 1, c.tipHeight, c.tipHash, |c.txs|, totalVSize, totalFee), rows, deps);
      SnapshotHolds(before, c);
      return Ok(cache.state.generation);
    }
  }

  // --- histories ---

  /** The cache after each of a sequence of replacements, accepted or not. */
  ghost function After(cs: seq<Candidate>, k: nat): Cache
    requires k <= |cs|
  {
    if k == 0 then UNINITIALIZED
    else
      match Replaced(After(cs, k - 1), cs[k - 1])
      case Ok(next) => next
      case Err(_) => After(cs, k - 1)
  }

  lemma {:induction false} GenerationGrows(cs: seq<Candidate>, j: nat, k: nat)
    requires j <= k <= |cs|
    ensures After(cs, j).state.generation <= After(cs, k).state.generation
    ensures After(cs, j).state.generation == After(cs, k).state.generation ==> After(cs, j) == After(cs, k)
  {
    hide ValidCandidate, Storable, RowsUpTo, DepsUpTo;
    if j < k {
      GenerationGrows(cs, j, k - 1);
    }
  }

  /** At any two moments of any history, equal generations mean equal snapshots. */
  lemma GenerationIdentifies(cs: seq<Candidate>, j: nat, k: nat)
    requires j <= |cs| && k <= |cs| && After(cs, j).state.generation == After(cs, k).state.generation
    ensures After(cs, j) == After(cs, k)
  {
    hide After;
    if j <= k {
      GenerationGrows(cs, j, k);
    } else {
      GenerationGrows(cs, k, j);
    }
  }

  // --- the order of a candidate's transactions does not matter ---

  ghost predicate Included(c: Candidate, d: Candidate) {
    forall i :: 0 <= i < |c.txs| ==> c.txs[i] in d.txs
  }

  lemma RowsIncluded(c: Candidate, d: Candidate, x: TxId)
    requires ValidCandidate(c) && ValidCandidate(d) && Included(c, d) && x in RowsUpTo(c, |c.txs|)
    ensures x in RowsUpTo(d, |d.txs|) && RowsUpTo(d, |d.txs|)[x] == RowsUpTo(c, |c.txs|)[x]
  {
    hide ValidCandidate;
    RowKeys(c, |c.txs|);
    var i :| 0 <= i < |c.txs| && c.txs[i].txid == x;
    RowAt(c, |c.txs|, i);
    var j :| 0 <= j < |d.txs| && d.txs[j] == c.txs[i];
    RowAt(d, |d.txs|, j);
  }

  lemma DepsIncluded(c: Candidate, d: Candidate, dep: Dependency)
    requires Included(c, d) && dep in DepsUpTo(c, |c.txs|)
    ensures dep in DepsUpTo(d, |d.txs|)
  {
    hide DepsOf;
    DepsAt(c, |c.txs|, dep);
    DepsAt(d, |d.txs|, dep);
    var i :| 0 <= i < |c.txs| && dep in DepsOf(c.txs[i]);
    var j :| 0 <= j < |d.txs| && d.txs[j] == c.txs[i];
  }

  /** Two valid candidates that list the same transactions in any order store the same
      rows: the two-pass insertion needs no topological order. */
  lemma OrderIndependent(c: Candidate, d: Candidate)
    requires ValidCandidate(c) && ValidCandidate(d) && Included(c, d) && Included(d, c)
    ensures RowsUpTo(c, |c.txs|) == RowsUpTo(d, |d.txs|) && DepsUpTo(c, |c.txs|) == DepsUpTo(d, |d.txs|)
  {
    hide ValidCandidate, Included;
    forall x
      ensures x in RowsUpTo(c, |c.txs|) ==> x in RowsUpTo(d, |d.txs|) && RowsUpTo(d, |d.txs|)[x] == RowsUpTo(c, |c.txs|)[x]
      ensures x in RowsUpTo(d, |d.txs|) ==> x in RowsUpTo(c, |c.txs|)
    {
      if x in RowsUpTo(c, |c.txs|) {
        RowsIncluded(c, d, x);
      }
      if x in RowsUpTo(d, |d.txs|) {
        RowsIncluded(d, c, x);
      }
    }
    forall dep
      ensures dep in DepsUpTo(c, |c.txs|) <==> dep in DepsUpTo(d, |d.txs|)
    {
      if dep in DepsUpTo(c, |c.txs|) {
        DepsIncluded(c, d, dep);
      }
      if dep in DepsUpTo(d, |d.txs|) {
        DepsIncluded(d, c, dep);
      }
    }
  }
}
