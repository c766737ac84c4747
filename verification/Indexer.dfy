/** internal/indexer: the loop that keeps the store on Core's active chain, against a
    Core that may answer anything at any call. */
module Indexer {
  import opened Wrappers
  import opened Errors
  import opened Int64
  import opened Chain
  import opened Tables
  import opened Accounting
  import StoreSpec
  import Integrity
  import Cache
  import Distribution
  import opened BlockLoop
  import opened Coherence
  import opened ApplyProof
  import opened ApplyCoherence
  import Prefixes
  import Refusals
  import Acceptance
  import opened Recovery
  import opened Core
  import opened Syncing
  import S = Store

  /** An accepted block is the new tip. */
  lemma AppliedTip(sch: SubsidySchedule, db: Database, chain: seq<Hash>, b: Block, db': Database)
    requires Sound(sch) && Coherent(sch, db, chain) && |db.buckets| == 8 && StoreSpec.ApplyBlock(sch, db, b) == Ok(db')
    ensures db'.checkpoint == Checkpoint(b.height, b.hash)
  {
    hide StoreSpec.ApplyBlock, Coherent, LoopCoins, StoreSpec.ApplyRollup, StoreSpec.RefreshChecked, Distribution.BucketsAfter;
    var hd, lp, facts := ApplyReached(sch, db, chain, b, db');
    BlockKeys(db.ar, chain, b, hd, lp.ar);
  }

  lemma TipAt(sch: SubsidySchedule, db: Database, chain: seq<Hash>)
    requires Sound(sch) && Coherent(sch, db, chain)
    ensures db.checkpoint == TipOf(db.ar, chain)
    ensures chain != [] ==> db.checkpoint.hash == chain[|chain| - 1] && db.checkpoint.height >= 0
    ensures chain == [] ==> db.checkpoint.height == -1
  {
    hide ChainValid, Integrity.CoinsOk, AccountingOk, RollupOk, Cache.CacheCoherent, Distribution.BucketsCoherent, Integrity.RowsOk;
    if chain != [] {
      TipStored(db.ar, chain);
    }
  }

  /** A block at the next height that is refused for its place names another parent. */
  lemma OutOfPlace(sch: SubsidySchedule, db: Database, chain: seq<Hash>, b: Block)
    requires Sound(sch) && Coherent(sch, db, chain) && |db.buckets| == 8 && b.height == db.checkpoint.height + 1
    requires StoreSpec.ApplyBlock(sch, db, b) == Err(NonSequentialBlock)
    ensures b.prev != db.checkpoint.hash
  {
    hide Coherent, StoreSpec.ApplyBlock, Acceptance.WellFormed;
    Acceptance.NonSequentialIff(sch, db, chain, b);
  }

  /** What a reconciliation against a frozen Core leaves: the part of the local chain
      that Core shares. */
  ghost predicate Followed(db0: Database, chain0: seq<Hash>, core: seq<Block>, db: Database, chain: seq<Hash>)
    requires |db0.buckets| == 8
  {
    || (chain0 == [] && db == db0 && chain == [])
    || exists a: nat :: FollowedAt(db0, chain0, core, db, chain, a)
  }

  ghost predicate FollowedAt(db0: Database, chain0: seq<Hash>, core: seq<Block>, db: Database, chain: seq<Hash>, a: nat)
    requires |db0.buckets| == 8
  {
    && ForkAt(chain0, core, a) && |chain0| - 1 - a <= 100
    && db == AtFork(db0, chain0, a) && chain == chain0[..a + 1]
  }

  /** A store indexed from genesis, looking at a Core that does not move. */
  ghost predicate Faces(rpc: Rpc, sch: SubsidySchedule, db: Database, chain: seq<Hash>, core: seq<Block>) {
    && Sound(sch) && Coherent(sch, db, chain)
    && Frozen(rpc, core) && LinkedBlocks(core)
    && chain != [] && GenesisRooted(db.ar, chain)
  }

  /** Core's chain contains the local tip. */
  ghost predicate TipMeets(chain: seq<Hash>, core: seq<Block>) {
    chain != [] && Meets(chain, core, |chain| - 1)
  }

  class Indexer {
    const rpc: Rpc
    const store: S.Store
    const ctx: Context

    /** The canonical chain after every committed mutation so far. */
    ghost var trace: seq<seq<Hash>>

    ghost predicate Valid()
      reads this, store
    {
      store.Valid() && trace != [] && trace[|trace| - 1] == store.chain && LawfulTrace(trace)
    }

    constructor (rpc: Rpc, store: S.Store, ctx: Context)
      requires store.Valid()
      ensures Valid() && this.rpc == rpc && this.store == store && this.ctx == ctx && trace == [store.chain]
    {
      this.rpc, this.store, this.ctx := rpc, store, ctx;
      trace := [store.chain];
    }

    /** A negative height from Core is malformed, never a tip to catch up with. */
    method GetBlockCount() returns (r: Result<int64, Error>)
      modifies rpc
      ensures rpc.log == old(rpc.log) + [CountAsked]
      ensures r == match rpc.counts(|old(rpc.log)|)
                   case None => Err(RpcFailure)
                   case Some(count) => if count < 0 then Err(MalformedRpcData) else Ok(count)
      ensures r.Err? ==> Faulty(|old(rpc.log)|, r.error)
    {
      hide Faulty;
      var count := rpc.GetBlockCount();
      if count.None? {
        NoAnswer(|old(rpc.log)|, |old(rpc.log)|);
        return Err(RpcFailure);
      }
      if count.value < 0 {
        NoHeight(|old(rpc.log)|, |old(rpc.log)|);
        return Err(MalformedRpcData);
      }
      return Ok(count.value);
    }

    /** A failed getblockhash is a moved chain exactly when Core, asked again, is shorter
        than the requested height; anything else stays the original failure. */
    method ClassifyHashUnavailable(height: int64) returns (e: Error)
      modifies rpc
      ensures rpc.log == old(rpc.log) + [CountAsked]
      ensures e == match rpc.counts(|old(rpc.log)|)
                   case None => RpcFailure
                   case Some(count) => if 0 <= count < height then RemoteChainMoved else RpcFailure
    {
      var newHeight := GetBlockCount();
      if newHeight.Err? {
        return RpcFailure;
      }
      if newHeight.value < height {
        return RemoteChainMoved;
      }
      return RpcFailure;
    }

    /** getblockhash with its failure classified. */
    method HashAt(height: int64) returns (r: Result<Hash, Error>)
      modifies rpc
      ensures r.Ok? <==> rpc.hashes(|old(rpc.log)|, height).Some?
      ensures r.Ok? ==> rpc.log == old(rpc.log) + [HashAsked(height)] && r.value == rpc.hashes(|old(rpc.log)|, height).value
      ensures r.Err? ==>
                && rpc.log == old(rpc.log) + [HashAsked(height), CountAsked]
                && r.error == match rpc.counts(|old(rpc.log)| + 1)
                              case None => RpcFailure
                              case Some(count) => if 0 <= count < height then RemoteChainMoved else RpcFailure
      ensures r == Err(RpcFailure) ==> Faulty(|old(rpc.log)|, RpcFailure)
    {
      hide Faulty;
      var hash := rpc.GetBlockHash(height);
      if hash.None? {
        var e := ClassifyHashUnavailable(height);
        NoAnswer(|old(rpc.log)|, |old(rpc.log)|);
        return Err(e);
      }
      return Ok(hash.value);
    }

    /** Core named this hash at this height in answer to some call made since. */
    ghost predicate Reported(since: nat, height: int64, hash: Hash)
      reads rpc
    {
      exists n: nat :: since <= n && rpc.Named(n, height, hash)
    }

    /** The error reports what Core did in answer to some call made since. */
    ghost predicate Faulty(since: nat, e: Error)
      reads rpc
    {
      match e
      case RpcFailure => exists n: nat :: since <= n && rpc.Unanswered(n)
      case DecodeFailure => exists n: nat :: since <= n && rpc.Garbled(n)
      case MalformedRpcData =>
        || (exists n: nat :: since <= n && rpc.Negative(n))
        || (exists m: nat, n: nat, height: int64, hash: Hash :: since <= m < n && rpc.Named(m, height, hash) && rpc.Mistaken(n, height, hash))
      case _ => false
    }

    lemma NoAnswer(since: nat, n: nat)
      requires since <= n && rpc.Unanswered(n)
      ensures Faulty(since, RpcFailure)
    {
    }

    lemma NoBlock(since: nat, n: nat)
      requires since <= n && rpc.Garbled(n)
      ensures Faulty(since, DecodeFailure)
    {
    }

    lemma NoHeight(since: nat, n: nat)
      requires since <= n && rpc.Negative(n)
      ensures Faulty(since, MalformedRpcData)
    {
    }

    lemma WrongBlock(since: nat, m: nat, n: nat, height: int64, hash: Hash)
      requires since <= m < n && rpc.Named(m, height, hash) && rpc.Mistaken(n, height, hash)
      ensures Faulty(since, MalformedRpcData)
    {
    }

    lemma FaultyEarlier(since: nat, calls: nat, e: Error)
      requires Faulty(calls, e) && since <= calls
      ensures Faulty(since, e)
    {
      hide Rpc.Named, Rpc.Mistaken, Rpc.Unanswered, Rpc.Garbled, Rpc.Negative;
    }

    /** The pass may only end if Core still reports the local tip. */
    method ConfirmCaughtUp(local: Checkpoint) returns (r: Result<bool, Error>)
      modifies rpc
      ensures old(rpc.log) < rpc.log && (r.Err? ==> r.error == RemoteChainMoved || Faulty(|old(rpc.log)|, r.error))
      ensures r == Ok(true) ==> Reported(|old(rpc.log)|, local.height, local.hash)
      ensures r.Ok? <==> rpc.hashes(|old(rpc.log)|, local.height).Some?
      ensures r.Ok? ==> r.value == (rpc.hashes(|old(rpc.log)|, local.height) == Some(local.hash))
    {
      hide Faulty;
      var current := HashAt(local.height);
      if current.Err? {
        return Err(current.error);
      }
      assert rpc.Named(|old(rpc.log)|, local.height, current.value);
      return Ok(current.value == local.hash);
    }

    /** Three calls made since, one after the other, named b's hash at this height, the local
        tip's hash at its own, and b's hash again. */
    ghost predicate NamedInTurn(since: nat, height: int64, b: Block)
      reads rpc, store
    {
      exists m: nat, n: nat, p: nat :: since <= m < n < p
        && rpc.Named(m, height, b.hash)
        && rpc.Named(n, store.db.checkpoint.height, store.db.checkpoint.hash)
        && rpc.Named(p, height, b.hash)
    }

    /** b named another parent than the local tip one below, although Core confirmed both. */
    ghost predicate SelfContradictory(since: nat, b: Block)
      reads rpc, store
    {
      && b.height == store.db.checkpoint.height + 1 && b.prev != store.db.checkpoint.hash
      && NamedInTurn(since, b.height, b)
    }

    /** Some block was found to be so. */
    ghost predicate Blamed(since: nat)
      reads rpc, store
    {
      exists b: Block, f: nat :: since <= f && rpc.Delivered(f, b) && SelfContradictory(f, b)
    }

    /** Core was seen not to be where b and the local tip place it. */
    ghost predicate SeenMoved(since: nat, height: int64, b: Block)
      reads rpc, store
    {
      || store.db.checkpoint.height != Wrap(height - 1)
      || (exists n: nat, hash: Hash :: since <= n && hash != b.hash && rpc.Named(n, height, hash))
      || (exists n: nat, hash: Hash :: since <= n && hash != store.db.checkpoint.hash && rpc.Named(n, store.db.checkpoint.height, hash))
      || (exists n: nat, count: int64 :: since <= n && rpc.Counted(n, count) && (0 <= count < height || 0 <= count < store.db.checkpoint.height))
    }

    /** A rejected block is blamed on its own data only if Core twice confirmed it at its
        height and, in between, confirmed the local tip as its parent; and Core is said to
        have moved only if it was seen to. */
    method DiagnoseNonSequential(height: int64, b: Block, ghost f: nat) returns (e: Error)
      requires store.Valid() && f < |rpc.log|
      modifies rpc
      ensures |rpc.log| > |old(rpc.log)| && rpc.log[f] == old(rpc.log)[f]
      ensures e == RemoteChainMoved || e == NonSequentialBlock || (e == RpcFailure && Faulty(|old(rpc.log)|, e))
      ensures e == RemoteChainMoved ==> SeenMoved(|old(rpc.log)|, height, b)
      ensures e == NonSequentialBlock ==>
                store.db.checkpoint.height == Wrap(height - 1) && NamedInTurn(f, height, b)
    {
      hide Coherent, LawfulTrace, SeenMoved, NamedInTurn, Rpc.Named, Rpc.Counted, Wrap, TipOf, Sound, Faulty, Rpc.Delivered;
      ghost var since := |rpc.log|;
      ghost var m := |rpc.log|;
      var first := HashAt(height);
      if first.Err? {
        if first.error == RemoteChainMoved {
          ShorterMoved(since, height, b, m + 1, height);
        } else {
          FaultyEarlier(since, m, RpcFailure);
        }
        return first.error;
      }
      if first.value != b.hash {
        OtherMoved(since, height, b, m, first.value);
        return RemoteChainMoved;
      }
      var local := store.Tip();
      if local.height != Wrap(height - 1) {
        TipMoved(since, height, b);
        return RemoteChainMoved;
      }
      ghost var n := |rpc.log|;
      var parent := HashAt(local.height);
      if parent.Err? {
        if parent.error == RemoteChainMoved {
          ShorterMoved(since, height, b, n + 1, local.height);
        } else {
          FaultyEarlier(since, n, RpcFailure);
        }
        return parent.error;
      }
      ghost var p := |rpc.log|;
      var second := HashAt(height);
      if second.Err? {
        if second.error == RemoteChainMoved {
          ShorterMoved(since, height, b, p + 1, height);
        } else {
          FaultyEarlier(since, p, RpcFailure);
        }
        return second.error;
      }
      if second.value != b.hash {
        OtherMoved(since, height, b, p, second.value);
        return RemoteChainMoved;
      }
      if parent.value != local.hash {
        ParentMoved(since, height, b, n, parent.value);
        return RemoteChainMoved;
      }
      AllNamed(f, m, n, p, height, b);
      return NonSequentialBlock;
    }

    lemma AllNamed(since: nat, m: nat, n: nat, p: nat, height: int64, b: Block)
      requires since <= m < n < p < |rpc.log|
      requires rpc.log[m] == rpc.log[p] == HashAsked(height) && rpc.hashes(m, height) == rpc.hashes(p, height) == Some(b.hash)
      requires rpc.log[n] == HashAsked(store.db.checkpoint.height)
      requires rpc.hashes(n, store.db.checkpoint.height) == Some(store.db.checkpoint.hash)
      ensures NamedInTurn(since, height, b)
    {
      assert rpc.Named(m, height, b.hash) && rpc.Named(p, height, b.hash);
      assert rpc.Named(n, store.db.checkpoint.height, store.db.checkpoint.hash);
    }

    lemma TipMoved(since: nat, height: int64, b: Block)
      requires store.db.checkpoint.height != Wrap(height - 1)
      ensures SeenMoved(since, height, b)
    {
    }

    lemma OtherMoved(since: nat, height: int64, b: Block, n: nat, hash: Hash)
      requires since <= n < |rpc.log| && rpc.log[n] == HashAsked(height) && rpc.hashes(n, height) == Some(hash) && hash != b.hash
      ensures SeenMoved(since, height, b)
    {
      assert rpc.Named(n, height, hash);
    }

    lemma ParentMoved(since: nat, height: int64, b: Block, n: nat, hash: Hash)
      requires since <= n < |rpc.log| && rpc.log[n] == HashAsked(store.db.checkpoint.height) && hash != store.db.checkpoint.hash
      requires rpc.hashes(n, store.db.checkpoint.height) == Some(hash)
      ensures SeenMoved(since, height, b)
    {
      assert rpc.Named(n, store.db.checkpoint.height, hash);
    }

    lemma ShorterMoved(since: nat, height: int64, b: Block, n: nat, asked: int64)
      requires since <= n < |rpc.log| && rpc.log[n] == CountAsked && rpc.counts(n).Some? && 0 <= rpc.counts(n).value < asked
      requires asked == height || asked == store.db.checkpoint.height
      ensures SeenMoved(since, height, b)
    {
      assert rpc.Counted(n, rpc.counts(n).value);
    }

    /** Of the calls made since, one named b's hash for its height, a later one delivered
        b, and a still later one named the same hash again. */
    ghost predicate Confirmed(since: nat, b: Block)
      reads rpc
    {
      exists m: nat, f: nat, n: nat :: since <= m < f < n
        && rpc.Named(m, b.height, b.hash) && rpc.Delivered(f, b) && rpc.Named(n, b.height, b.hash)
    }

    /** The tip was confirmed so. */
    ghost predicate TipConfirmed(since: nat)
      reads rpc, store
    {
      exists b: Block :: Confirmed(since, b) && store.db.checkpoint == Checkpoint(b.height, b.hash)
    }

    /** Fetch, decode, check that it is what was asked for, and ask Core once more. */
    method FetchBlock(height: int64, ghost core: seq<Block>) returns (r: Result<Block, Error>)
      modifies rpc
      ensures |rpc.log| >= |old(rpc.log)|
      ensures r.Ok? ==> r.value.height == height && Confirmed(|old(rpc.log)|, r.value)
      ensures r.Err? ==> r.error == RemoteChainMoved || Faulty(|old(rpc.log)|, r.error)
      ensures Frozen(rpc, core) && LinkedBlocks(core) && 0 <= height < |core| ==> r == Ok(core[height])
    {
      hide Faulty;
      ghost var m := |rpc.log|;
      var hash1 := HashAt(height);
      if hash1.Err? {
        return Err(hash1.error);
      }
      ghost var f := |rpc.log|;
      var fetched := rpc.GetBlock(hash1.value);
      if fetched.Unavailable? {
        NoAnswer(m, f);
        return Err(RpcFailure);
      }
      if fetched.Undecodable? {
        NoBlock(m, f);
        return Err(DecodeFailure);
      }
      var b := fetched.block;
      if b.height != height || b.hash != hash1.value {
        WrongBlock(m, m, f, height, hash1.value);
        return Err(MalformedRpcData);
      }
      ghost var n := |rpc.log|;
      var hash2 := HashAt(height);
      if hash2.Err? {
        if hash2.error == RpcFailure {
          FaultyEarlier(m, n, RpcFailure);
        }
        return Err(hash2.error);
      }
      if hash2.value != hash1.value {
        return Err(RemoteChainMoved);
      }
      assert m < f < n && rpc.Named(m, b.height, b.hash) && rpc.Delivered(f, b) && rpc.Named(n, b.height, b.hash);
      return Ok(b);
    }

    /** The store itself refuses a block that Core delivered, or a rollback. */
    ghost predicate Refused(since: nat, e: Error)
      reads rpc, store
    {
      && Sound(store.schedule) && |store.db.buckets| == 8
      && ((exists f: nat, b: Block :: since <= f && rpc.Delivered(f, b) && StoreSpec.ApplyBlock(store.schedule, store.db, b) == Err(e))
          || (exists a: Hash :: a in store.chain && StoreSpec.RollbackTo(store.db, a) == Err(e)))
    }

    /** Core named another hash at this height than the local chain has there. */
    ghost predicate Differs(since: nat, height: int64)
      reads rpc, store
    {
      exists n: nat, hash: Hash :: since <= n && rpc.Named(n, height, hash)
        && forall h :: h in store.chain && HeightOf(store.db.ar, h) == height ==> h != hash
    }

    /** Core's chain ends more than 100 blocks below the local tip, or differs at every
        height from there to 100 below. */
    ghost predicate Apart(since: nat, remoteHeight: int64)
      reads rpc, store
    {
      var tip := store.db.checkpoint.height;
      || tip - remoteHeight > 100
      || (forall h: int64 :: 0 <= h <= remoteHeight && tip - 100 <= h <= tip ==> Differs(since, h))
    }

    ghost predicate OutOfBounds(since: nat)
      reads rpc, store
    {
      exists n: nat, remoteHeight: int64 :: since <= n && rpc.Counted(n, remoteHeight) && Apart(since, remoteHeight)
    }

    /** Why a pass may fail with e, by the calls made since: Core failed to answer or gave
        nonsense; the block, or Core's whole chain, is at fault; the store refused; or the
        context ended. */
    ghost predicate Justified(since: nat, e: Error)
      reads rpc, store, ctx
    {
      match e
      case RemoteChainMoved => false
      case UnexpectedTip => false
      case Cancelled => ctx.remaining == 0
      case RpcFailure => Faulty(since, e)
      case DecodeFailure => Faulty(since, e)
      case MalformedRpcData => Faulty(since, e)
      case NonSequentialBlock => Blamed(since)
      case ReorgTooDeep => OutOfBounds(since)
      case LocalChainGap => !GenesisRooted(store.db.ar, store.chain)
      case _ => Refused(since, e)
    }

    lemma FaultIsJust(since: nat, calls: nat, e: Error)
      requires Faulty(calls, e) && since <= calls
      ensures Justified(since, e)
    {
      FaultyEarlier(since, calls, e);
    }

    lemma Ended(since: nat)
      requires ctx.remaining == 0
      ensures Justified(since, Cancelled)
    {
    }

    lemma BlameIsJust(since: nat)
      requires Blamed(since)
      ensures Justified(since, NonSequentialBlock)
    {
    }

    lemma ApartEarlier(since: nat, calls: nat, remoteHeight: int64)
      requires Apart(calls, remoteHeight) && since <= calls
      ensures Apart(since, remoteHeight)
    {
      hide Rpc.Named, HeightOf;
      forall h: int64 | 0 <= h <= remoteHeight && store.db.checkpoint.height - 100 <= h <= store.db.checkpoint.height && Differs(calls, h)
        ensures Differs(since, h)
      {
      }
    }

    lemma JustEarlier(since: nat, calls: nat, e: Error)
      requires Justified(calls, e) && since <= calls
      ensures Justified(since, e)
    {
      hide Faulty, Blamed, OutOfBounds, Refused;
      if Faulty(calls, e) {
        FaultyEarlier(since, calls, e);
      }
      if Blamed(calls) {
        BlamedEarlier(since, calls);
      }
      if OutOfBounds(calls) {
        BoundsEarlier(since, calls);
      }
      if Refused(calls, e) {
        RefusedEarlier(since, calls, e);
      }
    }

    lemma BoundsEarlier(since: nat, calls: nat)
      requires OutOfBounds(calls) && since <= calls
      ensures OutOfBounds(since)
    {
      hide Apart, Rpc.Counted;
      var n: nat, remoteHeight: int64 :| calls <= n && rpc.Counted(n, remoteHeight) && Apart(calls, remoteHeight);
      ApartEarlier(since, calls, remoteHeight);
    }

    lemma RefusedEarlier(since: nat, calls: nat, e: Error)
      requires Refused(calls, e) && since <= calls
      ensures Refused(since, e)
    {
      hide StoreSpec.ApplyBlock, StoreSpec.RollbackTo, Rpc.Delivered;
    }

    /** A block refused by the store for a reason of its own. */
    lemma BlockRefused(since: nat, f: nat, b: Block, e: Error)
      requires store.Valid() && |store.db.buckets| == 8 && since <= f && rpc.Delivered(f, b)
      requires StoreSpec.ApplyBlock(store.schedule, store.db, b) == Err(e) && e != NonSequentialBlock
      ensures Justified(since, e)
    {
      hide Coherent, StoreSpec.ApplyBlock, Rpc.Delivered, StoreSpec.RollbackTo, Faulty, Blamed, OutOfBounds, GenesisRooted, Refused, Sound;
      IsRefused(since, f, b, e);
      Refusals.StoreErrors(store.schedule, store.db, b);
    }

    lemma IsRefused(since: nat, f: nat, b: Block, e: Error)
      requires Sound(store.schedule) && |store.db.buckets| == 8 && since <= f && rpc.Delivered(f, b)
      requires StoreSpec.ApplyBlock(store.schedule, store.db, b) == Err(e)
      ensures Refused(since, e)
    {
      hide StoreSpec.ApplyBlock, StoreSpec.RollbackTo, Rpc.Delivered;
    }

    lemma CutRefused(since: nat, a: Hash, e: Error)
      requires store.Valid() && |store.db.buckets| == 8 && a in store.chain
      requires StoreSpec.RollbackTo(store.db, a) == Err(e)
      ensures Justified(since, e)
    {
      hide Coherent, StoreSpec.ApplyBlock, StoreSpec.RollbackTo;
      Refusals.RollbackErrors(store.db, a);
    }

    /** One height: a block is applied only if Core reported its hash for this height
        both before and after delivering it, and it becomes the new tip. */
    method ApplyHeight(height: int64, ghost core: seq<Block>) returns (r: Result<(), Error>)
      requires Valid() && height == store.db.checkpoint.height + 1
      modifies this, rpc, store
      ensures Valid() && |old(store.db).buckets| == 8 && |rpc.log| >= |old(rpc.log)|
      ensures r.Err? ==> store.db == old(store.db) && store.chain == old(store.chain) && trace == old(trace)
      ensures r.Err? ==> r.error == RemoteChainMoved || Justified(|old(rpc.log)|, r.error)
      ensures r.Ok? ==>
                && store.db.checkpoint.height == height
                && store.chain == old(store.chain) + [store.db.checkpoint.hash] && trace == old(trace) + [store.chain]
                && TipConfirmed(|old(rpc.log)|)
      ensures Frozen(rpc, core) && LinkedBlocks(core) && 0 <= height < |core|
              && StoreSpec.ApplyBlock(store.schedule, old(store.db), core[height]).Ok? ==>
                && r == Ok(()) && store.db == StoreSpec.ApplyBlock(store.schedule, old(store.db), core[height]).value
                && store.db.checkpoint.hash == core[height].hash
    {
      hide Coherent, StoreSpec.ApplyBlock, LawfulTrace, NextChain, Extends, Confirmed, TipConfirmed, Frozen, LinkedBlocks;
      hide Blamed, SelfContradictory, SeenMoved, NamedInTurn, Rpc.Delivered, Rpc.Named, TipOf, Justified, Faulty, StoreSpec.RollbackTo, Wrap;
      S.StoredBalancesFit(store.schedule, store.db, store.chain);
      ghost var since := |rpc.log|;
      var fetched := FetchBlock(height, core);
      if fetched.Err? {
        if fetched.error != RemoteChainMoved {
          FaultIsJust(since, since, fetched.error);
        }
        return Err(fetched.error);
      }
      var b := fetched.value;
      ghost var db0, chain0 := store.db, store.chain;
      TipAt(store.schedule, db0, chain0);
      var applied := store.ApplyBlock(b);
      if applied.Err? {
        ghost var f := DeliveredOnce(since, b);
        if applied.error == NonSequentialBlock {
          OutOfPlace(store.schedule, db0, chain0, b);
          ghost var calls := |rpc.log|;
          WasDelivered(f, b);
          var e := DiagnoseNonSequential(height, b, f);
          StillDelivered(f, b);
          if e == NonSequentialBlock {
            IsBlamed(since, f, b);
          } else if e == RpcFailure {
            FaultIsJust(since, calls, e);
          }
          return Err(e);
        }
        BlockRefused(since, f, b, applied.error);
        return Err(applied.error);
      }
      NextHeightAppends(store.schedule, db0, chain0, b, store.db);
      AppliedTip(store.schedule, db0, chain0, b, store.db);
      IsConfirmed(|old(rpc.log)|, b);
      TraceGrows(trace, store.chain);
      trace := trace + [store.chain];
      return Ok(());
    }

    lemma DeliveredOnce(since: nat, b: Block) returns (f: nat)
      requires Confirmed(since, b)
      ensures since <= f < |rpc.log| && rpc.Delivered(f, b)
    {
      var m: nat, g: nat, n: nat :| since <= m < g < n
        && rpc.Named(m, b.height, b.hash) && rpc.Delivered(g, b) && rpc.Named(n, b.height, b.hash);
      f := g;
    }

    lemma WasDelivered(f: nat, b: Block)
      requires rpc.Delivered(f, b)
      ensures f < |rpc.log| && rpc.log[f] == BlockAsked(b.hash) && rpc.blocks(f, b.hash) == Decoded(b)
    {
    }

    lemma StillDelivered(f: nat, b: Block)
      requires f < |rpc.log| && rpc.log[f] == BlockAsked(b.hash) && rpc.blocks(f, b.hash) == Decoded(b)
      ensures rpc.Delivered(f, b)
    {
    }

    lemma IsBlamed(since: nat, f: nat, b: Block)
      requires since <= f && rpc.Delivered(f, b) && NamedInTurn(f, b.height, b)
      requires b.height == store.db.checkpoint.height + 1 && b.prev != store.db.checkpoint.hash
      ensures Blamed(since) && Justified(since, NonSequentialBlock)
    {
      assert SelfContradictory(f, b);
      BlameIsJust(since);
    }

    lemma IsConfirmed(since: nat, b: Block)
      requires Confirmed(since, b) && store.db.checkpoint == Checkpoint(b.height, b.hash)
      ensures TipConfirmed(since)
    {
    }

    lemma BlamedEarlier(since: nat, calls: nat)
      requires Blamed(calls) && since <= calls
      ensures Blamed(since)
    {
    }

    /** The store holds the first k blocks of a frozen Core, the rest is applicable, and
        the context lasts long enough to apply it. */
    ghost predicate OnCourse(core: seq<Block>, k: int)
      reads store, ctx
    {
      && Sound(store.schedule) && |store.db.buckets| == 8
      && Frozen(rpc, core) && LinkedBlocks(core) && 0 <= k <= |core|
      && store.chain == Hashes(core)[..k]
      && AcceptsFrom(store.schedule, store.db, core, k)
      && ctx.remaining >= |core| - k
    }

    lemma NextOnCourse(core: seq<Block>, k: int, db: Database)
      requires OnCourse(core, k) && k < |core| && db == store.db
      ensures StoreSpec.ApplyBlock(store.schedule, db, core[k]).Ok?
      ensures AcceptsFrom(store.schedule, StoreSpec.ApplyBlock(store.schedule, db, core[k]).value, core, k + 1)
      ensures store.chain + [core[k].hash] == Hashes(core)[..k + 1]
      ensures ctx.remaining >= |core| - k && Frozen(rpc, core) && LinkedBlocks(core) && 0 <= k < |core|
    {
      hide StoreSpec.ApplyBlock;
    }

    lemma ArrivesOnCourse(core: seq<Block>, k: int)
      requires Sound(store.schedule) && |store.db.buckets| == 8
      requires Frozen(rpc, core) && LinkedBlocks(core) && 0 <= k <= |core| && store.chain == Hashes(core)[..k]
      requires AcceptsFrom(store.schedule, store.db, core, k) && ctx.remaining >= |core| - k
      ensures OnCourse(core, k)
    {
    }

    lemma CourseEnds(core: seq<Block>, k: int)
      requires OnCourse(core, k) && k >= |core|
      ensures k == |core| && store.chain == Hashes(core)
    {
      hide AcceptsFrom, Frozen;
    }

    lemma CourseBound(core: seq<Block>, k: int)
      requires OnCourse(core, k)
      ensures 0 <= k <= |core|
    {
      hide AcceptsFrom, Frozen;
    }

    /** Heights from..to in order; Ok(true) when Core moved underneath. */
    method ApplyRange(from: int64, to: int64, ghost core: seq<Block>) returns (r: Result<bool, Error>)
      requires Valid() && from == store.db.checkpoint.height + 1
      modifies this, rpc, store, ctx
      ensures Valid() && |old(store.db).buckets| == 8 && old(trace) <= trace && old(store.chain) <= store.chain
      ensures |rpc.log| >= |old(rpc.log)| && ctx.remaining <= old(ctx.remaining)
      ensures r.Err? ==> Justified(|old(rpc.log)|, r.error)
      ensures r == Ok(false) && from <= to ==> store.db.checkpoint.height == to
      ensures old(OnCourse(core, from)) && to == |core| - 1 ==>
                r == Ok(false) && store.chain == Hashes(core) && ctx.remaining == old(ctx.remaining) - (|core| - from)
    {
      hide Coherent, StoreSpec.ApplyBlock, LawfulTrace, OnCourse, Frozen, LinkedBlocks, AcceptsFrom, Justified;
      S.StoredBalancesFit(store.schedule, store.db, store.chain);
      ghost var follow := OnCourse(core, from) && to == |core| - 1;
      if follow {
        CourseBound(core, from);
      }
      var h: int := from;
      while h <= to
        invariant Valid() && h == store.db.checkpoint.height + 1
        invariant old(trace) <= trace && old(store.chain) <= store.chain
        invariant |rpc.log| >= |old(rpc.log)| && ctx.remaining <= old(ctx.remaining)
        invariant from <= h && (from <= to ==> h <= to + 1)
        invariant follow ==> OnCourse(core, h) && ctx.remaining == old(ctx.remaining) - (h - from)
      {
        ghost var db, chain0 := store.db, store.chain;
        if follow {
          NextOnCourse(core, h, db);
        }
        var cancelled := ctx.Cancelled();
        if cancelled {
          Ended(|old(rpc.log)|);
          return Err(Cancelled);
        }
        ghost var calls := |rpc.log|;
        var applied := ApplyHeight(h, core);
        if applied.Err? {
          if applied.error == RemoteChainMoved {
            return Ok(true);
          }
          JustEarlier(|old(rpc.log)|, calls, applied.error);
          return Err(applied.error);
        }
        S.StoredBalancesFit(store.schedule, store.db, store.chain);
        if follow {
          ArrivesOnCourse(core, h + 1);
        }
        h := h + 1;
      }
      if follow {
        CourseEnds(core, h);
      }
      return Ok(false);
    }

    /** The premises under which a reconciliation's outcome is determined. */
    ghost predicate Facing(core: seq<Block>)
      reads store
    {
      Faces(rpc, store.schedule, store.db, store.chain, core)
    }

    lemma FacingHash(core: seq<Block>, h: int64)
      requires Facing(core) && 0 <= h < |store.chain|
      ensures HeightOf(store.db.ar, store.chain[h]) == h
      ensures h < |core| ==> forall n: nat :: rpc.hashes(n, h) == Some(core[h].hash)
    {
      hide Coherent;
      ChainHeight(store.schedule, store.db, store.chain, h);
    }

    /** One step of the search: the local block at this height, if Core names the same. */
    method SameAt(h: int64, ghost since: nat, ghost core: seq<Block>) returns (r: Result<Option<Hash>, Error>)
      requires Valid() && 0 <= h <= store.db.checkpoint.height && since <= |rpc.log|
      modifies rpc
      ensures old(rpc.log) <= rpc.log && (forall k: int64 :: old(Differs(since, k)) ==> Differs(since, k))
      ensures r.Err? ==> r.error != ReorgTooDeep && (r.error == RemoteChainMoved || Justified(since, r.error))
      ensures r == Ok(None) ==> Differs(since, h)
      ensures r.Ok? && r.value.Some? ==>
                r.value.value in store.chain && HeightOf(store.db.ar, r.value.value) == h && Reported(since, h, r.value.value)
      ensures Facing(core) && h < |store.chain| && h < |core| ==>
                r == Ok(if store.chain[h] == core[h].hash then Some(store.chain[h]) else None)
    {
      hide Coherent, LawfulTrace, Faces, Differs, Justified, Faulty, Reported, TipOf, Wrap, Facing;
      if Facing(core) && h < |store.chain| {
        FacingHash(core, h);
      }
      var localHash := store.CanonicalBlockHash(h);
      if localHash.None? {
        Gap(since, h);
        return Err(LocalChainGap);
      }
      ghost var n := |rpc.log|;
      label Before:
      var coreHash := HashAt(h);
      StillDiffers@Before(since);
      if coreHash.Err? {
        if coreHash.error == RpcFailure {
          FaultIsJust(since, n, RpcFailure);
        }
        return Err(coreHash.error);
      }
      assert rpc.Named(n, h, coreHash.value);
      if localHash.value != coreHash.value {
        NewDifference(since, n, h, localHash.value, coreHash.value);
        return Ok(None);
      }
      NamedIsReported(since, n, h, coreHash.value);
      return Ok(localHash);
    }

    /** The downward search: the highest height in floor..searchTop at which both chains
        name the same block. */
    method FindAncestor(searchTop: int64, floor: int64, local: Checkpoint, ghost core: seq<Block>) returns (r: Result<Option<Checkpoint>, Error>)
      requires Valid() && local == store.db.checkpoint && 0 <= floor && searchTop <= local.height
      modifies rpc
      ensures old(rpc.log) <= rpc.log
      ensures r.Err? ==> r.error != ReorgTooDeep && (r.error == RemoteChainMoved || Justified(|old(rpc.log)|, r.error))
      ensures r == Ok(None) ==> forall h: int64 :: floor <= h <= searchTop ==> Differs(|old(rpc.log)|, h)
      ensures r.Ok? && r.value.Some? ==> Reported(|old(rpc.log)|, r.value.value.height, r.value.value.hash)
      ensures r.Ok? && r.value.Some? ==>
                && r.value.value.hash in store.chain && floor <= r.value.value.height <= searchTop
                && HeightOf(store.db.ar, r.value.value.hash) == r.value.value.height
      ensures Facing(core) && searchTop == (if |store.chain| < |core| then |store.chain| else |core|) - 1 ==>
                && r.Ok?
                && (if r.value.Some? then
                      && 0 <= r.value.value.height < |store.chain| && ForkAt(store.chain, core, r.value.value.height)
                      && r.value.value.hash == store.chain[r.value.value.height]
                    else forall a: nat :: Meets(store.chain, core, a) ==> a < floor)
    {
      hide Coherent, LawfulTrace, Differs, Justified, Reported, TipOf, Wrap, Facing, Meets, ForkAt, MeetsUpTo, Sound, HeightOf;
      ghost var facing := Facing(core) && searchTop == (if |store.chain| < |core| then |store.chain| else |core|) - 1;
      ghost var since := |rpc.log|;
      if facing {
        SearchStarts(core, searchTop);
      }
      var h: int := searchTop;
      while h >= floor
        invariant floor - 1 <= h <= searchTop || h == searchTop
        invariant old(rpc.log) <= rpc.log
        invariant forall k: int64 :: h < k <= searchTop ==> Differs(since, k)
        invariant facing ==> MeetsUpTo(core, h) && h < |store.chain| && h < |core|
      {
        var same := SameAt(h, since, core);
        if same.Err? {
          return Err(same.error);
        }
        if facing {
          SearchStep(core, h);
        }
        if same.value.Some? {
          return Ok(Some(Checkpoint(h, same.value.value)));
        }
        h := h - 1;
      }
      if facing {
        SearchEnds(core, h, floor);
      }
      return Ok(None);
    }

    /** The chains agree at no height above h. */
    ghost predicate MeetsUpTo(core: seq<Block>, h: int)
      reads store
    {
      forall a: nat :: Meets(store.chain, core, a) ==> a <= h
    }

    lemma SearchStarts(core: seq<Block>, searchTop: int)
      requires searchTop == (if |store.chain| < |core| then |store.chain| else |core|) - 1
      ensures MeetsUpTo(core, searchTop) && searchTop < |store.chain| && searchTop < |core|
    {
    }

    lemma SearchStep(core: seq<Block>, h: int)
      requires MeetsUpTo(core, h) && 0 <= h < |store.chain| && h < |core|
      ensures if store.chain[h] == core[h].hash then ForkAt(store.chain, core, h) else MeetsUpTo(core, h - 1)
    {
    }

    lemma SearchEnds(core: seq<Block>, h: int, floor: int)
      requires MeetsUpTo(core, h) && h < floor
      ensures forall a: nat :: Meets(store.chain, core, a) ==> a < floor
    {
    }

    twostate lemma StillDiffers(since: nat)
      requires old(rpc.log) <= rpc.log && store.db == old(store.db) && store.chain == old(store.chain)
      ensures forall k: int64 :: old(Differs(since, k)) ==> Differs(since, k)
    {
      forall k: int64 | old(Differs(since, k))
        ensures Differs(since, k)
      {
        var n: nat, hash: Hash :| since <= n && old(rpc.Named(n, k, hash))
          && forall h :: h in store.chain && HeightOf(store.db.ar, h) == k ==> h != hash;
        assert rpc.Named(n, k, hash);
      }
    }

    lemma NewDifference(since: nat, n: nat, height: int64, mine: Hash, theirs: Hash)
      requires since <= n && rpc.Named(n, height, theirs) && mine != theirs
      requires forall i :: 0 <= i < |store.chain| && HeightOf(store.db.ar, store.chain[i]) == height ==> mine == store.chain[i]
      ensures Differs(since, height)
    {
      forall h | h in store.chain && HeightOf(store.db.ar, h) == height
        ensures h != theirs
      {
        var i :| 0 <= i < |store.chain| && store.chain[i] == h;
      }
    }

    /** A chain counted from height 0 has a block at every height up to its tip. */
    lemma Gap(since: nat, height: int64)
      requires Valid() && 0 <= height <= store.db.checkpoint.height
      requires forall h :: h in store.chain ==> HeightOf(store.db.ar, h) != height
      ensures Justified(since, LocalChainGap)
    {
      hide Coherent, LawfulTrace;
      TipAt(store.schedule, store.db, store.chain);
      if GenesisRooted(store.db.ar, store.chain) {
        ChainHeight(store.schedule, store.db, store.chain, 0);
        ChainHeight(store.schedule, store.db, store.chain, height);
      }
    }

    lemma FacingTip(core: seq<Block>)
      requires Facing(core)
      ensures store.db.checkpoint.height == |store.chain| - 1 && store.db.checkpoint.hash == store.chain[|store.chain| - 1]
      ensures |store.db.buckets| == 8
      ensures forall a :: StoreSpec.RollbackTo(store.db, a).Ok? <==> a in store.chain
    {
      hide Coherent, Prefixes.PrefixesFit;
      S.StoredBalancesFit(store.schedule, store.db, store.chain);
      ChainHeight(store.schedule, store.db, store.chain, 0);
      RootedFits(store.schedule, store.db, store.chain);
      forall a
        ensures StoreSpec.RollbackTo(store.db, a).Ok? <==> a in store.chain
      {
        RollbackAccepted(store.schedule, store.db, store.chain, a);
      }
    }

    /** The rollback itself, after the last two rechecks. */
    method CutBack(local: Checkpoint, ancestor: Checkpoint) returns (r: Result<(), Error>)
      requires Valid() && local == store.db.checkpoint
      requires ancestor.hash in store.chain && HeightOf(store.db.ar, ancestor.hash) == ancestor.height
      requires local.height - ancestor.height <= 100
      modifies this, store
      ensures Valid() && |old(store.db).buckets| == 8
      ensures r.Err? ==> store.db == old(store.db) && store.chain == old(store.chain) && trace == old(trace)
      ensures r.Ok? ==> store.chain != [] && store.chain <= old(store.chain) && trace == old(trace) + [store.chain]
      ensures r.Ok? ==> |old(store.chain)| - |store.chain| == local.height - ancestor.height && store.db.checkpoint == ancestor
      ensures r.Err? ==> forall since: nat :: Justified(since, r.error)
      ensures r.Err? ==> r.error != ReorgTooDeep
      ensures StoreSpec.RollbackTo(old(store.db), ancestor.hash).Ok? ==> r.Ok? && store.db == StoreSpec.RollbackTo(old(store.db), ancestor.hash).value
    {
      hide Coherent, LawfulTrace, Justified, StoreSpec.RollbackTo;
      ghost var db0, chain0 := store.db, store.chain;
      S.HeightInChain(store.schedule, db0, chain0, "");
      TipAt(store.schedule, db0, chain0);
      S.StoredBalancesFit(store.schedule, db0, chain0);
      r := store.RollbackTo(ancestor.hash);
      if r.Err? {
        Refusals.RollbackErrors(db0, ancestor.hash);
        forall since: nat
          ensures Justified(since, r.error)
        {
          CutRefused(since, ancestor.hash, r.error);
        }
        return;
      }
      assert chain0[|store.chain| - 1] == ancestor.hash;
      TraceGrows(trace, store.chain);
      trace := trace + [store.chain];
      TipAt(store.schedule, store.db, store.chain);
      var newTip := store.Tip();
      if newTip != ancestor {
        r := Err(UnexpectedTip);
      }
    }

    /** The depth policy and the bounded search. */
    method LocateAncestor(local: Checkpoint, remoteHeight: int64, ghost core: seq<Block>) returns (r: Result<Checkpoint, Error>)
      requires Valid() && local == store.db.checkpoint && local.height >= 0 && remoteHeight >= 0
      modifies rpc
      ensures old(rpc.log) <= rpc.log
      ensures r.Err? ==> r.error == RemoteChainMoved || r.error == ReorgTooDeep || Justified(|old(rpc.log)|, r.error)
      ensures r == Err(ReorgTooDeep) ==> Apart(|old(rpc.log)|, remoteHeight)
      ensures r.Ok? ==> Reported(|old(rpc.log)|, r.value.height, r.value.hash)
      ensures r.Ok? ==>
                && r.value.hash in store.chain && HeightOf(store.db.ar, r.value.hash) == r.value.height
                && local.height - r.value.height <= 100
      ensures Facing(core) && remoteHeight == |core| - 1 ==>
                if Reachable(store.chain, core) then r.Ok? && Located(store.chain, core, r.value)
                else r == Err(ReorgTooDeep)
    {
      hide Coherent, LawfulTrace, Faces, ForkAt, Reachable, Meets, Justified, Differs;
      ghost var facing := Facing(core) && remoteHeight == |core| - 1;
      if facing {
        FacingTip(core);
        FacingCore(core);
      }
      MeetsBelow(store.chain, core);
      var searchTop := if remoteHeight < local.height then remoteHeight else local.height;
      if local.height - searchTop > MAX_AUTOMATIC_REORG_DEPTH {
        if facing {
          OutOfReach(store.chain, core, |core|);
        }
        return Err(ReorgTooDeep);
      }
      var floor := if local.height < MAX_AUTOMATIC_REORG_DEPTH then 0 else local.height - MAX_AUTOMATIC_REORG_DEPTH;
      var found := FindAncestor(searchTop, floor, local, core);
      if found.Err? {
        return Err(found.error);
      }
      if found.value.None? {
        if facing {
          OutOfReach(store.chain, core, floor);
        }
        return Err(ReorgTooDeep);
      }
      if facing {
        InReach(store.chain, core, found.value.value);
      }
      return Ok(found.value.value);
    }

    lemma FacingCore(core: seq<Block>)
      requires Facing(core)
      ensures core != [] && store.chain != []
    {
      hide Coherent, Frozen;
    }

    /** Core named this block in some call made since, and again in the last call made. */
    ghost predicate NamedAgain(since: nat, cp: Checkpoint)
      reads rpc
    {
      && |rpc.log| > 0 && rpc.Named(|rpc.log| - 1, cp.height, cp.hash)
      && exists m: nat :: since <= m < |rpc.log| - 1 && rpc.Named(m, cp.height, cp.hash)
    }

    lemma ReportedAt(since: nat, height: int64, hash: Hash) returns (m: nat)
      requires Reported(since, height, hash)
      ensures since <= m < |rpc.log| && rpc.log[m] == HashAsked(height) && rpc.hashes(m, height) == Some(hash)
    {
      m :| since <= m && rpc.Named(m, height, hash);
    }

    lemma NamedTwice(since: nat, m: nat, n: nat, cp: Checkpoint)
      requires since <= m < n == |rpc.log| - 1 && rpc.log[m] == rpc.log[n] == HashAsked(cp.height)
      requires rpc.hashes(m, cp.height) == rpc.hashes(n, cp.height) == Some(cp.hash)
      ensures NamedAgain(since, cp)
    {
      assert rpc.Named(m, cp.height, cp.hash) && rpc.Named(n, cp.height, cp.hash);
    }

    lemma AgainIsReported(since: nat, calls: nat, cp: Checkpoint)
      requires NamedAgain(calls, cp) && since <= calls
      ensures NamedAgain(since, cp) && Reported(since, cp.height, cp.hash)
    {
    }

    lemma NamedIsReported(since: nat, n: nat, height: int64, hash: Hash)
      requires since <= n && rpc.Named(n, height, hash)
      ensures Reported(since, height, hash)
    {
    }

    /** Bounded common-ancestor search, two rechecks, then at most one rollback of at most
        100 blocks. Any error leaves the store as it was. */
    method Reorg(local: Checkpoint, remoteHeight: int64, ghost core: seq<Block>) returns (r: Result<(), Error>)
      requires Valid() && local == store.db.checkpoint && local.height >= 0 && remoteHeight >= 0
      modifies this, rpc, store
      ensures Valid() && |old(store.db).buckets| == 8 && old(rpc.log) <= rpc.log
      ensures r.Err? ==> store.db == old(store.db) && store.chain == old(store.chain) && trace == old(trace)
      ensures r.Err? ==> r.error == RemoteChainMoved || r.error == ReorgTooDeep || Justified(|old(rpc.log)|, r.error)
      ensures r == Err(ReorgTooDeep) ==> Apart(|old(rpc.log)|, remoteHeight)
      ensures r.Ok? ==> NamedAgain(|old(rpc.log)|, store.db.checkpoint)
      ensures r.Ok? ==> store.chain != [] && store.chain <= old(store.chain) && trace == old(trace) + [store.chain]
      ensures r.Ok? ==> |old(store.chain)| - |store.chain| <= 100
      ensures old(Facing(core)) && remoteHeight == |core| - 1 && !TipMeets(old(store.chain), core) ==>
                if Reachable(old(store.chain), core) then
                  r.Ok? && Followed(old(store.db), old(store.chain), core, store.db, store.chain)
                else r == Err(ReorgTooDeep)
    {
      hide Coherent, LawfulTrace, Faces, StoreSpec.RollbackTo, Reachable, Located, Followed, Reported, NamedAgain;
      hide Justified, Faulty, Apart, TipOf, HeightOf, Wrap, Sound, Rpc.Named, GenesisRooted, TipMeets, Facing;
      hide Lawful, Meets, ForkAt;
      S.StoredBalancesFit(store.schedule, store.db, store.chain);
      ghost var db0, chain0 := store.db, store.chain;
      ghost var facing := Facing(core) && remoteHeight == |core| - 1 && !TipMeets(chain0, core);
      var located := LocateAncestor(local, remoteHeight, core);
      if located.Err? {
        return Err(located.error);
      }
      var ancestor := located.value;
      ghost var m := ReportedAt(|old(rpc.log)|, ancestor.height, ancestor.hash);
      if facing {
        CutAccepted(core, ancestor);
      }
      ghost var n := |rpc.log|;
      var recheck := HashAt(ancestor.height);
      if recheck.Err? {
        if recheck.error == RpcFailure {
          FaultIsJust(|old(rpc.log)|, n, RpcFailure);
        }
        return Err(recheck.error);
      }
      if recheck.value != ancestor.hash {
        return Err(RemoteChainMoved);
      }
      NamedTwice(|old(rpc.log)|, m, n, ancestor);
      var currentLocal := store.Tip();
      if currentLocal != local {
        r := Err(RemoteChainMoved);
      } else {
        r := CutBack(local, ancestor);
      }
      if facing {
        CutFollows(store.schedule, db0, chain0, core, ancestor, store.db, store.chain);
      }
    }

    /** Facing a frozen Core, both rechecks pass and the rollback is accepted. */
    lemma CutAccepted(core: seq<Block>, ancestor: Checkpoint)
      requires Facing(core) && Located(store.chain, core, ancestor)
      ensures |store.db.buckets| == 8 && StoreSpec.RollbackTo(store.db, ancestor.hash).Ok?
      ensures forall n: nat :: rpc.hashes(n, ancestor.height) == Some(ancestor.hash)
      ensures Sound(store.schedule) && Coherent(store.schedule, store.db, store.chain) && GenesisRooted(store.db.ar, store.chain)
      ensures store.db.checkpoint.height == |store.chain| - 1
    {
      hide Coherent, StoreSpec.RollbackTo;
      FacingTip(core);
      FacingHash(core, ancestor.height);
    }

    lemma BeforeReconciling(core: seq<Block>) returns (facing: bool)
      requires Valid()
      ensures |store.db.buckets| == 8 && (store.db.checkpoint.height < 0 <==> store.chain == [])
      ensures facing <==> Facing(core)
      ensures Frozen(rpc, core) && CanFollow(store.schedule, store.db, store.chain, core) && store.chain != [] ==> facing
      ensures facing ==>
                && core != [] && (forall n: nat :: rpc.counts(n) == Some(|core| - 1))
                && store.db.checkpoint.height == |store.chain| - 1
                && (TipMeets(store.chain, core) <==>
                      store.db.checkpoint.height <= |core| - 1 && store.db.checkpoint.hash == core[store.db.checkpoint.height].hash)
                && (store.db.checkpoint.height <= |core| - 1 ==>
                      forall n: nat :: rpc.hashes(n, store.db.checkpoint.height) == Some(core[store.db.checkpoint.height].hash))
    {
      hide Coherent, LawfulTrace, Frozen, CanFollow, Facing, TipMeets;
      S.StoredBalancesFit(store.schedule, store.db, store.chain);
      TipAt(store.schedule, store.db, store.chain);
      facing := Facing(core);
      if Frozen(rpc, core) && CanFollow(store.schedule, store.db, store.chain, core) && store.chain != [] {
        FollowerFacing(core);
      }
      if facing {
        FacingAnswers(core);
      }
    }

    /** Put the local checkpoint on Core's active chain, if policy allows. */
    method Reconcile(ghost core: seq<Block>) returns (r: Result<(), Error>)
      requires Valid()
      modifies this, rpc, store
      ensures Valid() && |old(store.db).buckets| == 8 && |rpc.log| >= |old(rpc.log)| && old(trace) <= trace
      ensures r.Err? ==> store.db == old(store.db) && store.chain == old(store.chain) && trace == old(trace)
      ensures r.Err? ==> r.error == RemoteChainMoved || Justified(|old(rpc.log)|, r.error)
      ensures r.Ok? && store.chain != old(store.chain) ==> NamedAgain(|old(rpc.log)|, store.db.checkpoint)
      ensures r.Ok? && store.db.checkpoint.height >= 0 ==>
                Reported(|old(rpc.log)|, store.db.checkpoint.height, store.db.checkpoint.hash)
      ensures store.chain <= old(store.chain) && |old(store.chain)| - |store.chain| <= 100
      ensures Frozen(rpc, core) && CanFollow(store.schedule, old(store.db), old(store.chain), core) ==>
                if Reachable(old(store.chain), core) then
                  r.Ok? && Followed(old(store.db), old(store.chain), core, store.db, store.chain)
                else r == Err(ReorgTooDeep)
      ensures old(Facing(core)) && TipMeets(old(store.chain), core) ==>
                r.Ok? && store.db == old(store.db) && store.chain == old(store.chain)
    {
      hide Coherent, LawfulTrace, Reachable, Followed, Frozen, CanFollow, Faces, TipMeets, Reported, NamedAgain;
      hide Facing, GenesisRooted, TipOf, HeightOf, Wrap, Sound, Lawful, LinkedBlocks, Justified, Faulty, Apart;
      ghost var db0, chain0 := store.db, store.chain;
      ghost var facing := BeforeReconciling(core);
      var local := store.Tip();
      if local.height < 0 {
        NothingToFollow(db0, core);
        return Ok(());
      }
      ghost var since := |rpc.log|;
      var remoteHeight := GetBlockCount();
      if remoteHeight.Err? {
        FaultIsJust(since, since, remoteHeight.error);
        return Err(remoteHeight.error);
      }
      if local.height <= remoteHeight.value {
        ghost var n := |rpc.log|;
        var coreHash := HashAt(local.height);
        if coreHash.Err? {
          if coreHash.error == RpcFailure {
            FaultIsJust(since, n, RpcFailure);
          }
          return Err(coreHash.error);
        }
        if coreHash.value == local.hash {
          NamedIsReported(|old(rpc.log)|, n, local.height, local.hash);
          if facing {
            TipFollows(db0, chain0, core);
          }
          return Ok(());
        }
      }
      ghost var calls := |rpc.log|;
      r := Reorg(local, remoteHeight.value, core);
      if r.Ok? {
        AgainIsReported(since, calls, store.db.checkpoint);
      } else if r == Err(ReorgTooDeep) {
        TooDeep(since, calls, remoteHeight.value);
      } else if r != Err(RemoteChainMoved) {
        JustEarlier(since, calls, r.error);
      }
    }

    lemma TooDeep(since: nat, calls: nat, remoteHeight: int64)
      requires since < |rpc.log| && rpc.log[since] == CountAsked && rpc.counts(since) == Some(remoteHeight)
      requires since <= calls && Apart(calls, remoteHeight)
      ensures Justified(since, ReorgTooDeep)
    {
      hide Apart;
      ApartEarlier(since, calls, remoteHeight);
      assert rpc.Counted(since, remoteHeight);
    }

    /** What a frozen Core answers to the first two questions. */
    lemma FacingAnswers(core: seq<Block>)
      requires Facing(core)
      ensures core != [] && store.chain != [] && store.db.checkpoint.height == |store.chain| - 1
      ensures forall n: nat :: rpc.counts(n) == Some(|core| - 1)
      ensures TipMeets(store.chain, core) <==>
                store.db.checkpoint.height <= |core| - 1 && store.db.checkpoint.hash == core[store.db.checkpoint.height].hash
      ensures store.db.checkpoint.height <= |core| - 1 ==>
                forall n: nat :: rpc.hashes(n, store.db.checkpoint.height) == Some(core[store.db.checkpoint.height].hash)
    {
      hide Coherent;
      FacingTip(core);
    }

    lemma FollowerFacing(core: seq<Block>)
      requires Valid() && Frozen(rpc, core) && CanFollow(store.schedule, store.db, store.chain, core) && store.chain != []
      ensures Facing(core)
    {
      hide Coherent, TailAccepted, LawfulTrace, Frozen;
    }

    /** Core confirmed, during the calls since `since`, that the local tip is its own. */
    ghost predicate CaughtUp(since: nat)
      reads rpc, store
    {
      && Reported(since, store.db.checkpoint.height, store.db.checkpoint.hash)
      && exists n: nat :: since <= n && rpc.Counted(n, store.db.checkpoint.height)
    }

    /** The local chain is the frozen Core's whole chain. */
    ghost predicate Arrived(core: seq<Block>)
      reads store
    {
      Facing(core) && store.chain == Hashes(core)
    }

    lemma ArrivedTip(core: seq<Block>)
      requires Arrived(core)
      ensures TipMeets(store.chain, core) && core != [] && store.db.checkpoint.height == |core| - 1
      ensures store.db.checkpoint.hash == core[|core| - 1].hash
      ensures forall n: nat :: rpc.counts(n) == Some(|core| - 1)
      ensures forall n: nat :: rpc.hashes(n, store.db.checkpoint.height) == Some(store.db.checkpoint.hash)
    {
      hide Faces, Frozen;
      FacingAnswers(core);
    }

    /** After a reconciliation, the rest of Core's chain is applicable on the local tip. */
    lemma FollowedOnCourse(core: seq<Block>, db0: Database, chain0: seq<Hash>)
      requires Valid() && |db0.buckets| == 8 && CanFollow(store.schedule, db0, chain0, core) && Frozen(rpc, core)
      requires Followed(db0, chain0, core, store.db, store.chain) && ctx.remaining >= |core|
      ensures OnCourse(core, |store.chain|) && store.db.checkpoint.height == |store.chain| - 1
      ensures store.chain != [] ==> GenesisRooted(store.db.ar, store.chain)
      ensures core != [] && forall n: nat :: rpc.counts(n) == Some(|core| - 1)
    {
      hide Coherent, LawfulTrace, Frozen, OnCourse, AcceptsFrom;
      FollowedPrefix(store.schedule, db0, chain0, core, store.db, store.chain);
      S.StoredBalancesFit(store.schedule, store.db, store.chain);
      LocalHeight();
      FollowLinked(store.schedule, db0, chain0, core);
      FrozenCount(core);
      ArrivesOnCourse(core, |store.chain|);
    }

    lemma FrozenCount(core: seq<Block>)
      requires Frozen(rpc, core)
      ensures forall n: nat :: rpc.counts(n) == Some(|core| - 1)
    {
    }

    lemma LocalHeight()
      requires Valid() && (store.chain != [] ==> GenesisRooted(store.db.ar, store.chain))
      ensures store.db.checkpoint.height == |store.chain| - 1
    {
      hide Coherent, LawfulTrace;
      TipAt(store.schedule, store.db, store.chain);
      S.HeightInChain(store.schedule, store.db, store.chain, "");
    }

    /** A chain as long as its height says is rooted at genesis. */
    lemma LongEnough(core: seq<Block>)
      requires Valid() && Frozen(rpc, core) && LinkedBlocks(core)
      requires store.chain == Hashes(core) && store.db.checkpoint.height == |core| - 1
      ensures Arrived(core)
    {
      hide Coherent, LawfulTrace, Frozen;
      TipAt(store.schedule, store.db, store.chain);
      S.HeightInChain(store.schedule, store.db, store.chain, "");
    }

    /** Everything after the reconciliation of one pass: Ok(true) when caught up, Ok(false)
        to start over. */
    method Advance(ghost core: seq<Block>) returns (r: Result<bool, Error>)
      requires Valid()
      modifies this, rpc, store, ctx
      ensures Valid() && |rpc.log| >= |old(rpc.log)| && ctx.remaining <= old(ctx.remaining) && old(trace) <= trace
      ensures r.Err? ==> Justified(|old(rpc.log)|, r.error)
      ensures r == Ok(true) ==> CaughtUp(|old(rpc.log)|)
      ensures old(Arrived(core)) ==> r == Ok(true) && store.chain == old(store.chain)
      ensures old(OnCourse(core, |store.chain|)) && old(store.db.checkpoint.height) == |old(store.chain)| - 1
              && old(ctx.remaining) > |core| ==>
                r.Ok? && Arrived(core) && ctx.remaining > 0
    {
      hide Coherent, LawfulTrace, OnCourse, Arrived, Frozen, LinkedBlocks, TipOf, Justified, Faulty;
      ghost var arrived := Arrived(core);
      ghost var onCourse := OnCourse(core, |store.chain|) && store.db.checkpoint.height == |store.chain| - 1 && ctx.remaining > |core|;
      if arrived {
        ArrivedTip(core);
      }
      if onCourse {
        CourseAnswers(core);
      }
      var local := store.Tip();
      ghost var since := |rpc.log|;
      var target := GetBlockCount();
      if target.Err? {
        FaultIsJust(since, since, target.error);
        return Err(target.error);
      }
      if local.height > target.value {
        return Ok(false);
      }
      if local.height == target.value {
        ghost var calls := |rpc.log|;
        var caughtUp := ConfirmCaughtUp(local);
        if caughtUp.Err? {
          if caughtUp.error != RemoteChainMoved {
            FaultIsJust(since, calls, caughtUp.error);
          }
          return if caughtUp.error == RemoteChainMoved then Ok(false) else Err(caughtUp.error);
        }
        assert caughtUp.value ==> rpc.Counted(since, local.height);
        return Ok(caughtUp.value);
      }
      ghost var calls := |rpc.log|;
      var moved := ApplyRange(local.height + 1, target.value, core);
      if moved.Err? {
        JustEarlier(since, calls, moved.error);
        return Err(moved.error);
      }
      if onCourse {
        LongEnough(core);
      }
      return Ok(false);
    }

    /** One round: reconcile, then advance. A chain that moved underneath starts a new one. */
    method Round(ghost core: seq<Block>) returns (r: Result<bool, Error>)
      requires Valid()
      modifies this, rpc, store, ctx
      ensures Valid() && |old(store.db).buckets| == 8
      ensures |rpc.log| >= |old(rpc.log)| && ctx.remaining <= old(ctx.remaining) && old(trace) <= trace
      ensures r.Err? ==> Justified(|old(rpc.log)|, r.error)
      ensures r == Ok(true) ==> CaughtUp(|old(rpc.log)|)
      ensures old(Arrived(core)) ==> r == Ok(true) && store.chain == old(store.chain)
      ensures Frozen(rpc, core) && CanFollow(store.schedule, old(store.db), old(store.chain), core) && old(ctx.remaining) > |core| ==>
                if Reachable(old(store.chain), core) then r.Ok? && Arrived(core) && ctx.remaining > 0
                else r == Err(ReorgTooDeep) && store.db == old(store.db) && store.chain == old(store.chain)
    {
      hide Coherent, LawfulTrace, Faces, OnCourse, CanFollow, Followed, Reachable, Frozen, CaughtUp, TipMeets;
      hide Justified, Reported, NamedAgain, TipOf, Sound;
      S.StoredBalancesFit(store.schedule, store.db, store.chain);
      ghost var db0, chain0, since := store.db, store.chain, |rpc.log|;
      ghost var following := Frozen(rpc, core) && CanFollow(store.schedule, db0, chain0, core) && ctx.remaining > |core|;
      ghost var arrived := Arrived(core);
      if arrived {
        ArrivedTip(core);
      }
      var reconciled := Reconcile(core);
      if reconciled.Err? {
        return if reconciled.error == RemoteChainMoved then Ok(false) else Err(reconciled.error);
      }
      if following && Reachable(chain0, core) {
        FollowedOnCourse(core, db0, chain0);
      }
      ghost var calls := |rpc.log|;
      r := Advance(core);
      if r.Err? {
        JustEarlier(since, calls, r.error);
      } else if r.value {
        SinceEarlier(since, calls);
      }
    }

    /** SyncToTip, once the pass is known to be the only one. Whatever Core answers, the
        store stays coherent and every mutation lawful, success means Core itself confirmed
        the local tip, and every failure has its reason in the calls made. Against a Core
        that stays put on a chain of applicable blocks, the local chain becomes Core's chain
        if the fork is at most 100 blocks deep, and otherwise the pass halts with the store
        untouched. */
    method SyncToTip(ghost core: seq<Block>) returns (r: Result<(), Error>)
      requires Valid()
      modifies this, rpc, store, ctx
      ensures Valid() && |old(store.db).buckets| == 8 && old(trace) <= trace && |rpc.log| >= |old(rpc.log)|
      ensures r.Err? ==> Justified(|old(rpc.log)|, r.error)
      ensures r.Ok? ==> CaughtUp(|old(rpc.log)|)
      ensures Frozen(rpc, core) && CanFollow(store.schedule, old(store.db), old(store.chain), core)
              && old(ctx.remaining) >= |core| + 2 ==>
                if Reachable(old(store.chain), core) then r.Ok? && store.chain == Hashes(core)
                else r == Err(ReorgTooDeep) && store.db == old(store.db) && store.chain == old(store.chain)
    {
      hide Coherent, LawfulTrace, CanFollow, Reachable, Frozen, CaughtUp, Justified, Facing, TipOf, Sound;
      S.StoredBalancesFit(store.schedule, store.db, store.chain);
      ghost var db0, chain0, since := store.db, store.chain, |rpc.log|;
      ghost var following := Frozen(rpc, core) && CanFollow(store.schedule, db0, chain0, core) && ctx.remaining >= |core| + 2;
      ghost var started := false;
      while true
        invariant Valid() && |rpc.log| >= since && old(trace) <= trace
        invariant following && !started ==> store.db == db0 && store.chain == chain0 && ctx.remaining >= |core| + 2
        invariant following && started ==> Arrived(core) && ctx.remaining > 0 && Reachable(chain0, core)
        decreases ctx.remaining
      {
        var cancelled := ctx.Cancelled();
        if cancelled {
          Ended(since);
          return Err(Cancelled);
        }
        ghost var calls := |rpc.log|;
        var caughtUp := Round(core);
        if caughtUp.Err? {
          JustEarlier(since, calls, caughtUp.error);
          return Err(caughtUp.error);
        }
        if caughtUp.value {
          SinceEarlier(since, calls);
          return Ok(());
        }
        if following {
          started := true;
        }
      }
    }

    lemma SinceEarlier(since: nat, calls: nat)
      requires CaughtUp(calls) && since <= calls
      ensures CaughtUp(since)
    {
    }

    /** The frozen Core's answers while the store holds a prefix of its chain. */
    lemma CourseAnswers(core: seq<Block>)
      requires Valid() && OnCourse(core, |store.chain|) && store.db.checkpoint.height == |store.chain| - 1
      ensures core != [] && Frozen(rpc, core) && LinkedBlocks(core) && |store.chain| <= |core|
      ensures forall n: nat :: rpc.counts(n) == Some(|core| - 1)
      ensures |store.chain| == |core| ==> Arrived(core)
      ensures |store.chain| == |core| ==> forall n: nat :: rpc.hashes(n, store.db.checkpoint.height) == Some(store.db.checkpoint.hash)
    {
      hide Coherent, LawfulTrace, AcceptsFrom, Arrived, Frozen;
      FrozenCount(core);
      if |store.chain| == |core| {
        assert Hashes(core)[..|core|] == Hashes(core);
        LongEnough(core);
        ArrivedTip(core);
      }
    }
  }

  lemma FollowLinked(sch: SubsidySchedule, db: Database, chain: seq<Hash>, core: seq<Block>)
    requires Sound(sch) && CanFollow(sch, db, chain, core)
    ensures LinkedBlocks(core) && core != []
  {
    hide Coherent, TailAccepted;
  }

  /** What a reconciliation leaves is a prefix of Core's chain with an applicable rest. */
  lemma FollowedPrefix(sch: SubsidySchedule, db0: Database, chain0: seq<Hash>, core: seq<Block>, db: Database, chain: seq<Hash>)
    requires Sound(sch) && |db0.buckets| == 8 && |db.buckets| == 8 && CanFollow(sch, db0, chain0, core) && Followed(db0, chain0, core, db, chain)
    ensures |chain| <= |core| && chain == Hashes(core)[..|chain|]
    ensures AcceptsFrom(sch, db, core, |chain|)
    ensures chain != [] ==> GenesisRooted(db.ar, chain)
  {
    hide Coherent, StoreSpec.RollbackTo, StoreSpec.ApplyBlock, AcceptsFrom;
    if !(chain0 == [] && db == db0 && chain == []) {
      var a: nat :| FollowedAt(db0, chain0, core, db, chain, a);
      CommonPrefix(sch, db0, chain0, core, a);
      ForkArchive(db0, chain0, a);
      assert chain[0] == chain0[0];
    }
  }

  lemma ForkArchive(db: Database, chain: seq<Hash>, a: nat)
    requires |db.buckets| == 8 && a < |chain|
    ensures AtFork(db, chain, a).ar == db.ar
  {
    hide StoreSpec.RefreshChecked, Distribution.BucketsAfter;
  }

  lemma NothingToFollow(db: Database, core: seq<Block>)
    requires |db.buckets| == 8
    ensures Followed(db, [], core, db, []) && Reachable([], core)
  {
  }

  lemma TipFollows(db: Database, chain: seq<Hash>, core: seq<Block>)
    requires |db.buckets| == 8 && TipMeets(chain, core)
    ensures Followed(db, chain, core, db, chain) && Reachable(chain, core)
  {
    hide StoreSpec.RollbackTo;
    assert chain[..|chain| - 1 + 1] == chain;
    assert FollowedAt(db, chain, core, db, chain, |chain| - 1);
  }

  /** The fork point as a checkpoint of the local chain, within the depth policy. */
  ghost predicate Located(chain: seq<Hash>, core: seq<Block>, cp: Checkpoint) {
    && 0 <= cp.height < |chain| && ForkAt(chain, core, cp.height) && cp.hash == chain[cp.height]
    && |chain| - 1 - cp.height <= 100
  }

  lemma CutFollows(sch: SubsidySchedule, db0: Database, chain0: seq<Hash>, core: seq<Block>, cp: Checkpoint, db: Database, chain: seq<Hash>)
    requires Located(chain0, core, cp) && !TipMeets(chain0, core) && |db0.buckets| == 8
    requires StoreSpec.RollbackTo(db0, cp.hash) == Ok(db)
    requires chain <= chain0 && |chain0| - |chain| == |chain0| - 1 - cp.height
    ensures Followed(db0, chain0, core, db, chain)
  {
    hide StoreSpec.RollbackTo;
    assert chain == chain0[..cp.height + 1];
    assert FollowedAt(db0, chain0, core, db, chain, cp.height);
  }

  lemma MeetsBelow(chain: seq<Hash>, core: seq<Block>)
    ensures forall a: nat :: Meets(chain, core, a) ==> a < |chain| && a < |core|
  {
  }

  lemma OutOfReach(chain: seq<Hash>, core: seq<Block>, floor: int)
    requires chain != [] && (floor <= 0 || |chain| - 1 - floor >= 100)
    requires forall a: nat :: Meets(chain, core, a) ==> a < floor
    ensures !Reachable(chain, core)
  {
  }

  lemma InReach(chain: seq<Hash>, core: seq<Block>, cp: Checkpoint)
    requires cp.height >= 0 && ForkAt(chain, core, cp.height) && |chain| - 1 - cp.height <= 100
    requires cp.height < |chain| ==> cp.hash == chain[cp.height]
    ensures Reachable(chain, core) && Located(chain, core, cp)
  {
  }
}
