# QOGE explorer: a verified model of the index

The explorer keeps one canonical chain of blocks in PostgreSQL and four kinds of derived
state beside it: the set of coins, an address cache of which only touched rows are ever
recomputed, eight balance buckets that are only ever adjusted by differences, and a supply
rollup whose coin value is derived by subtraction and never counted. Blocks are appended,
replayed, rolled back and promoted again. This project models that engine and the indexer
that drives it against Qogecoin Core, and proves that the derived state is at every moment a
function of the canonical chain, what exactly that function is, and where the code falls
short of its own description.

`dafny verify dfyconfig.toml` checks everything. There are no axioms: every hypothesis is a
`requires` clause.

## How the model is built

- **Values and tables.** `Chain`, `Script` and `Tables` hold the decoded block and the
  database, one map or set per table. A failed SQL transaction is an `Err` and leaves every
  table as it was. `Int64` makes Go's machine integers explicit, wrap-around included.
- **Specification.** `TxSpec` and `StoreSpec` say what one committed `ApplyBlock` or
  `RollbackTo` leaves; `Coins`, `Cache` and `Distribution` say what the coin set, an address
  row and a bucket mean without reference to how they are maintained.
- **The imperative code.** `StoreTx.Tx` is an open SQL transaction whose methods execute the
  statements of `internal/store` in their order, against the table fields; each is proved
  against the specification. `Store.Store` is the committed store. `Indexer.Indexer` is the
  sync loop, `Core.Rpc` the node behind it: an oracle whose every answer may contradict every
  earlier one, with a log of the calls made. `BackfillRun.Backfiller` and `RollupRun.Run` are
  the two offline repairs.
- **The invariant.** `Coherence.Coherent` is the store invariant; `ApplyCoherence` and
  `RollbackProof` show that every call keeps it, for blocks of any content.
- **Consequences.** `Histories` states the main results for every reachable state. Behind it:
  `Conservation`, `Respending` and `Supply` (value), `Recovery`, `Prefixes`, `Determined`,
  `Inverse`, `PathIndependence` and `Originals` (history), `Branches`, `Promotion`, `Reorgs`
  and `Returns` (orphaned blocks and coming back to them), `Acceptance` and `Refusals` (which
  blocks are accepted, and what each refusal means), `Lifecycle`, `Unspendable` and
  `Unnoticed` (single coins), `AddressRows` (what the columns of an address row say),
  `InternalErrors` (the errors that would report a broken invariant),
  `Overcount`, `Regained` and `Overclaim` (concrete chains on which a
  promise fails), `Backfill` and `RollupBackfill`.
- **Smaller components.** `Accounting` (subsidies), `Legacy`, `BareMultisig`, `ScriptForms` and `Classify`
  (scripts; BIP 11, section "Specification", and BIP 141, section "Witness program"),
  `Amount`, `Mempool` and `MempoolPages`.

## What the proofs found

- **The derived supply is not always right.** `checkPrevout` and `markSpent` take a repeated
  transaction for a replay, so a non-coinbase transaction whose outputs are all excluded from
  the coin set can be accepted again in a later block, and its fee is subtracted twice. The
  counted value equals the derived value plus the value of the re-spent inputs, always; the
  two agree if and only if no transaction with inputs of positive value occurs in two blocks
  of the chain. `Overcount` gives accepted blocks after which the stored supply is 0 while
  coins worth v are unspent, and a block that is refused with ErrRollupInvariant for the same
  reason although all its transactions are acceptable. The documentation's telescoping argument
  (internal/store/supply_rollup.go:177-195) does not consider the repetition.
- **Rolling back is the inverse of applying, with one exception.** Replaying the tip may add
  a destination to an output stored without one (internal/store/apply.go:688-704). Rolling
  back to that tip does not take the destination away. Every derived table is restored if and
  only if each such destination is invisible: the coin is worth nothing, and the address
  already had the transactions that created and spent it. Whenever a txid identifies its
  outputs' destinations there is no such replay, and everything is restored.
- **No branch is lost, but a run of calls cannot always be repeated.** Where a txid identifies
  its outputs' destinations, every block ever stored can become the tip again: roll back to any
  block its branch shares with the canonical chain and offer the rest of the branch. Without
  that, undoing a run of accepted calls and making it again succeeds if and only if no two of
  its blocks disagree on a destination: an output that has gained a destination may not be
  offered without it any more (internal/store/apply.go:706-714), so the block that was first
  accepted without it is refused the second time.
- **An overclaim can look like a broken invariant.** The buckets are updated before the reward
  is checked, so a coinbase that pays enough to overflow a bucket is refused with
  ErrDistributionInvariant instead of for its claim.
- **Bucket arithmetic is safe where it matters.** The additions of applyDistributionDeltas are
  unchecked. Buckets equal the histogram modulo 2^64 in every store, and exactly on every
  chain indexed from height 0, because the unspent total never exceeds what the coinbases paid
  and that sum is checked.
- **Hash identity need not be assumed for the invariant**, only for convergence.
  Insert-or-verify and the exact counts enforce that a block hash and a txid keep their stored
  rows; only the destination of an output may still be added later. Neither need txids be
  assumed distinct: a block that lists a txid twice violates a unique constraint, and a
  repetition on one branch is exactly what the conservation theorem accounts for.
- **The genesis coinbase may recur.** Height 0 creates no coins, so a later block may include
  the genesis coinbase transaction, and then its outputs do become coins. Statements about a
  coin's creating block therefore speak of heights above 0.
- **A first block may name itself as parent.** The foreign key allows it. The rollup backfill
  then reports an ancestry breach on a store that the live path accepted.
- **checkPrevout alone admits a repeated prevout** in one transaction, and counts its value
  twice; only markSpent refuses the block.
- **isPushOnly refuses byte 0x50**, and **DecodeAmount accepts "1." and ".5"**. The model
  follows the code.

## Model

Error constants are named as in the source; `Sound` says that a schedule keeps the era
arithmetic inside int64, which every network's does. Genesis-rooted means that the canonical
chain starts at height 0. A prefix of the chain fits when its address rows fit their columns
and none of its buckets is negative. The re-spent value of a chain is `Conservation.Residue`.

| member | source | states |
|---|---|---|
| `Histories.SupplyInEveryHistory` | internal/store/supply_rollup.go:169-202 | After any history of calls that starts at height 0, the counted value of all unspent coins is the derived rollup value at the tip plus what was re-spent; nothing was re-spent if and only if no transaction of value occurs in two canonical blocks; and then the unspent total is within the subsidy scheduled through the tip, below 2^63 |
| `Histories.BucketsInEveryHistory` | internal/store/distribution.go:194-220 | After any history that starts at height 0, all eight buckets are the exact histogram of all positive balances, although only deltas of touched addresses were ever published |
| `Histories.RollbackInEveryHistory` | internal/store/reorg.go:39-154 | After any history, whatever height it starts at, RollbackTo succeeds for exactly the canonical blocks and otherwise fails with ErrAncestorNotFound |
| `Histories.InverseInEveryHistory` | internal/store/reorg.go:39-154 | After any history and any further run of accepted blocks, rolling back to the old tip succeeds, and it restores every derived table if and only if each destination that a replay of the tip named for a coin stored without one is invisible: the coin is worth nothing, and the named address already had the transactions that created and spent it |
| `Histories.InvariantErrorsInEveryHistory` | internal/store/supply_rollup.go:244-312 | After any history and for any block: ErrRollupParentMissing does not occur; ErrDistributionInvariant occurs exactly when everything before the bucket update passes and a fresh histogram of the recomputed address rows has a negative int64 bucket; ErrRollupInvariant occurs exactly when everything before the rollup passes, no checked sum overflows, and the block is appended to a genesis-rooted chain on which more has then been re-spent than is unspent |
| `Acceptance.AcceptedInEveryHistory` | internal/store/apply.go:109-222 | After any history, ApplyBlock accepts a block if and only if: it holds the declared transactions, well shaped; the store is empty, or the block is the tip, or a child of the tip; its header is stored identically or can be stored; each transaction is acceptable to the tables and coins the ones before it leave; the address rows and buckets of the resulting coins fit; the coinbase pays at most subsidy plus fees, within an int64; and on a chain counted from height 0 a rollup row extends its parent's |
| `Acceptance.AcceptedIff` | internal/store/apply.go:109-222 | The same equivalence on any coherent store, said of the block and the tables only |
| `Acceptance.AcceptedOnlyAs` | internal/store/apply.go:109-222 | An accepted block leaves exactly the immutable rows and the coins that its transactions, one after the other, make |
| `Acceptance.NonSequentialIff` | internal/store/apply.go:329-337 | ErrNonSequentialBlock is reported if and only if the block is well shaped, some block is canonical, and it is neither the tip nor, with Go's wrapping height, a child of the tip |
| `Refusals.RefusedForSpending` | internal/store/apply.go:412-604 | On any coherent store: ErrMissingPrevout is reported if and only if the first input that cannot be spent, in the first transaction that is not acceptable, names an outpoint without a coin; if that input names a coin another input spent, the error is ErrDoubleSpend, and ErrDoubleSpend is reported only then or for a prevout repeated within a transaction; ErrNegativeFee only when the outputs exceed the inputs; no row vanishes between check and update |
| `Refusals.RefusedForClaims` | internal/store/apply.go:170-192 | ErrCoinbaseOverclaim is reported only when all transactions are acceptable and the coinbase pays more than subsidy plus fees; ErrIncompleteBlock if and only if the block does not hold the number of transactions it declares |
| `Returns.AnyBranchReturns` | internal/store/apply.go:343-385 | After any history in which a txid identifies its outputs' destinations: for every block ever stored and every canonical block its branch shares (there is at least one), rolling back to the shared block and offering the rest of the branch as the history offered it is accepted block by block, makes that block the tip again, and writes no immutable, accounting or rollup row |
| `Reorgs.ReacceptedInEveryHistory` | internal/store/apply.go:343-385 | After any history and any further run of accepted blocks: undo the run by rolling back to the old tip and offer it again; all of it is accepted if and only if no two of its blocks disagree on the destination of an output, and then every table is exactly what it was before the rollback |
| `Reorgs.RunReaccepted` | internal/store/apply.go:343-385 | The same for any coherent store whose prefixes fit |
| `Promotion.OrphanPromoted` | internal/store/apply.go:366-384 | A stored block that is not canonical, names the tip as its parent and is offered as it is stored is accepted if and only if the caches of the longer chain fit; it becomes the tip, and no immutable, accounting or rollup row changes |
| `Promotion.StoredAcceptedIff` | internal/store/apply.go:343-385 | A block stored in full that is the tip or continues it is accepted if and only if the caches of the resulting chain fit |
| `Branches.RunBranches` | internal/store/apply.go:343-385 | After any history every stored block, canonical or orphaned, heads a branch of linked blocks each of which is acceptable to the coins of the blocks below it |
| `Branches.BranchUnique` | migrations/0001_initial.up.sql:75-105 | A block heads at most one branch |
| `Unspendable.CoinsInEveryHistory` | internal/store/apply.go:766-784 | After any history an output has a coin if and only if some canonical block above height 0 contains its transaction and its stored script is at most 10000 bytes long and does not start with the byte 0x6a |
| `AddressRows.RowsInEveryHistory` | internal/store/apply.go:819-871 | After any history an address has a row if and only if some coin is destined to it; balance is the value of its unspent coins, sent that of its spent coins, received the sum of both; the transaction count is the number of distinct transactions that created or spent them; first_seen is the least creation height, last_seen the greatest creation or spending height; and every column is in its range |
| `ApplyCoherence.RunCoherent` | internal/store/apply.go:109-222 | After any history of ApplyBlock and RollbackTo calls, accepted or refused, there is one prev-hash-linked chain of contiguous heights ending at the checkpoint; the coin set is the fold of that chain, every address row is a recomputation over all its outputs, every bucket is the histogram of all balances as an int64 holds it, the anchor is the tip, accounting covers every stored block, and rollup rows cover every stored block or none |
| `ApplyCoherence.ApplyCoherent` | internal/store/apply.go:109-222 | One accepted ApplyBlock appends its block to the canonical chain or replays the tip, keeps the whole invariant, and only adds rows to the immutable tables |
| `RollbackProof.RollbackCoherent` | internal/store/reorg.go:39-154 | One accepted RollbackTo cuts the chain back to exactly the ancestor and keeps the whole invariant; blocks, transactions, destinations, accounting and rollup rows are untouched |
| `Coherence.ChainUnique` | migrations/0001_initial.up.sql:75-105 | The set of canonical blocks determines their order: two linked chains over the same blocks are equal |
| `PathIndependence.PathIndependent` | internal/store/apply.go:109-222 | For any history, an empty store that applies the final canonical chain's blocks as the tables finally remember them, once and in order, accepts every one and ends with equal coins, addresses, buckets, anchor, checkpoint and canonical set, with equal accounting rows for the chain, and with equal rollup rows if the chain starts at height 0 and none on either side otherwise |
| `Originals.SameBlocksSameState` | internal/store/apply.go:109-222 | If a txid identifies its outputs' destinations, those blocks are the very blocks the history offered: given once and in order to an empty store, all are accepted and the derived state and ledger rows are the same |
| `Originals.HistoryRemembered` | internal/store/apply.go:343-385 | Under that hypothesis every block ever stored is stored in every detail as some call gave it |
| `Originals.RollbackRestores` | internal/store/reorg.go:39-154 | Under that hypothesis, after any history and any run of accepted blocks, rolling back to the old tip restores every derived table exactly |
| `PathIndependence.RebuiltFromScratch` | internal/store/apply.go:109-222 | The same for any coherent store all of whose chain prefixes fit, which every history and every genesis-rooted store guarantees; the rebuilt store holds no other block |
| `Recovery.RunFits` | internal/store/apply.go:164-181 | After any history every prefix of the canonical chain, under the destinations known at the end, has address rows that fit their columns and no negative bucket |
| `Recovery.ApplyKeepsFits` | internal/store/apply.go:506-514 | An accepted block names no new destination for a coin of an earlier prefix, so every prefix still fits |
| `Recovery.RootedFits` | internal/store/supply_rollup.go:244-312 | On a coherent genesis-rooted store every prefix fits |
| `Determined.DerivedDetermined` | internal/store/distribution.go:162-220 | Two coherent stores with the same chain, the same rows for its blocks and the same destinations for its coins have equal coins, caches, buckets, anchor and checkpoint |
| `Determined.LedgerDetermined` | internal/store/supply_rollup.go:244-312 | Two such stores have equal accounting and rollup rows at every position of the chain |
| `Conservation.SupplyConservation` | internal/store/supply_rollup.go:169-202 | The counted value of all unspent coins is the derived rollup value at the tip plus the value of re-spent inputs, so the derived value is right if and only if nothing of value was re-spent |
| `Conservation.ChainBalance` | internal/store/supply_rollup.go:169-202 | The same balance from the rows alone: what a chain leaves unspent is what its coinbases paid, minus fees, minus excluded outputs, plus what was re-spent |
| `Respending.ResidueZeroIff` | internal/store/apply.go:554-592 | The re-spent value is never negative, and it is zero if and only if no transaction whose inputs are worth something occurs in two blocks of the chain |
| `Supply.RepeatedOutputsExcluded` | internal/store/apply.go:554-592 | A non-coinbase transaction accepted in a second block has only outputs that are excluded from the coin set |
| `Overcount.DerivedSupplyWrong` | internal/store/supply_rollup.go:169-202 | A concrete chain of three accepted blocks after which the stored supply is 0 while unspent coins are worth v, for every v up to the full subsidy |
| `Overcount.InvariantErrorReached` | internal/store/supply_rollup.go:295-305 | A concrete block whose transactions are all accepted and whose coinbase claims nothing is refused with ErrRollupInvariant |
| `Supply.UnspentBelowSchedule` | internal/accounting/subsidy.go:133-211 | On a genesis-rooted chain that re-spends nothing, the unspent total is between 0 and the subsidy scheduled through the tip, which is below 2^63 |
| `Supply.UnspentBelowCoinbase` | internal/store/supply_rollup.go:244-312 | On every genesis-rooted chain, re-spending or not, the unspent total is at most what all coinbases paid, which fits an int64 |
| `Supply.DerivedBelowSchedule` | internal/store/supply_rollup.go:244-312 | The derived rollup value is between 0 and the scheduled subsidy at every height |
| `Supply.BucketsAreExact` | internal/store/distribution.go:194-220 | On every genesis-rooted chain each bucket's count and sum are exactly the histogram of all positive balances: the unchecked int64 additions never wrap |
| `InternalErrors.InvariantErrors` | internal/store/supply_rollup.go:244-312 | On any coherent store: ErrRollupParentMissing never happens; ErrRollupInvariant needs less unspent than re-spent; ErrDistributionInvariant needs more unspent than an int64 holds, hence never on a genesis-rooted chain that re-spends nothing, for a block that claims at most subsidy plus fees |
| `InternalErrors.InvariantErrorsIff` | internal/store/distribution.go:194-220 | On any coherent store, for any block, the exact conditions of ErrDistributionInvariant and ErrRollupInvariant |
| `Overclaim.OverclaimBreaksBuckets` | internal/store/apply.go:170-192 | A concrete block on genesis whose coinbase pays twice the largest int64 is refused with ErrDistributionInvariant, because the buckets are updated before the reward is checked |
| `InternalErrors.AppendedRollup` | internal/store/supply_rollup.go:244-312 | When a block is appended to a genesis-rooted chain, the row is refused with ErrAmountOverflow if and only if some checked sum does not fit, and with ErrRollupInvariant if and only if all fit and less is unspent than was re-spent |
| `InternalErrors.LineageAllOrNothing` | internal/store/supply_rollup.go:204-267 | Either every block ever stored has a rollup row (exactly the genesis-rooted stores) or none has |
| `Recovery.RollbackAccepted` | internal/store/reorg.go:39-154 | On a coherent store whose prefixes fit, RollbackTo succeeds exactly for canonical ancestors, and otherwise fails with ErrAncestorNotFound |
| `Inverse.RollbackInverse` | internal/store/reorg.go:39-154 | On a coherent store whose prefixes fit, after any run of accepted blocks, rolling back to the old tip succeeds, the immutable tables have only grown, the coins are restored, and every derived table is restored if and only if no replay of the tip named a visible destination |
| `Unnoticed.SameRowIff` | internal/store/apply.go:819-871 | An address that gains outputs of the tip block keeps its row if and only if each of them is worth nothing and brings no transaction the address did not have |
| `Unnoticed.TipCoin` | internal/store/apply.go:572-604 | A coin whose transaction is in the tip block was created, and if spent then spent, by that block |
| `Regained.RollbackKeepsDestination` | internal/store/apply.go:688-704 | A concrete store, replay and rollback on which the address cache is not restored, whatever the coin is worth |
| `Regained.UndoneRunRefused` | internal/store/apply.go:706-714 | A concrete run of two accepted calls that is refused when it is undone and made again: a block without a destination, then the same block with one |
| `Coins.UndoIsPrefix` | internal/store/reorg.go:85-117 | Deleting what a suffix of blocks created and restoring what it spent gives exactly the coin set of the remaining prefix |
| `Lifecycle.CoinCreatedOnce` | internal/store/apply.go:664-787 | Every coin was created by one canonical block; above height 0 that block is the only one whose transactions include the coin's txid |
| `Lifecycle.OutputIsCoin` | internal/store/apply.go:766-784 | Every output of a canonical block that is not excluded has a coin |
| `Lifecycle.InputIsSpent` | internal/store/apply.go:572-604 | Every input of a canonical non-coinbase transaction names a coin that is spent by exactly that input |
| `Lifecycle.SpentIsInput` | internal/store/apply.go:572-604 | Every spent coin is spent by an input of a canonical non-coinbase transaction in the recorded block, which names it |
| `Lifecycle.SpentOnce` | internal/store/apply.go:537-604 | Two canonical inputs that name the same prevout are the same input of the same transaction |
| `Lifecycle.RepeatRefusedOnlyByMarking` | internal/store/apply.go:537-604 | For any inputs that are each spendable and whose total fits, checkPrevout admits them all and counts every repetition, and markSpent refuses the list with ErrDoubleSpend if and only if a prevout repeats |
| `Recovery.CreatorNotRepeated` | internal/store/apply.go:766-784 | Once a coin exists, no later canonical block contains the transaction that created it |
| `TxFacts.ApplyTxOnlyIf` | internal/store/apply.go:412-529 | An accepted transaction meets every acceptance condition (spendable distinct prevouts, non-negative exact fee, compatible stored rows, occurrence, destinations), and its effect is the coin fold and the touched addresses |
| `TxFacts.ApplyTxIf` | internal/store/apply.go:412-529 | Conversely those conditions suffice |
| `TxFacts.MarkInputsIff` | internal/store/apply.go:516-526 | Marking all inputs succeeds if and only if every prevout is spendable by that input and the prevouts are pairwise distinct |
| `TxFacts.InputSumIsTotal` | internal/store/apply.go:426-440 | The input sum exists exactly when every prevout is spendable and the total fits an int64, and is then that total |
| `TxFacts.TxFeeIff` | internal/store/apply.go:424-454 | The fee is exactly inputs minus outputs, and exists exactly when both fit an int64 and the difference is not negative |
| `TxFacts.PersistOutputsIff` | internal/store/apply.go:506-514 | The output loop succeeds exactly when every destination fits what is stored and every coin is new or already this block's |
| `Integrity.SliceUntouched` | internal/store/apply.go:500-526 | An address that an accepted transaction does not touch keeps exactly its outputs and their activity |
| `BlockLoop.LoopHolds` | internal/store/apply.go:148-162 | After any number of accepted transactions of a block, the stored rows are those of the block, txids are pairwise distinct, the coins and the fee total are the folds, and only touched addresses changed |
| `Replay.ReplayNoEffect` | internal/store/apply.go:565-604 | Applying a block again to the coins it produced changes no coin |
| `Shape.TransactionShape` | internal/store/apply.go:242-323 | A transaction passes the shape check if and only if its inputs and outputs are numbered contiguously, it is coinbase exactly at index 0, and coinbase means exactly one input without prevout |
| `Shape.CheckBlock` | internal/store/apply.go:242-323 | A block passes if and only if it has the declared, positive number of transactions and each passes |
| `Shape.ValidateBlockShape` | internal/store/apply.go:242-323 | The loop reports the first failing transaction, as the specification does |
| `Cache.RefreshCoherent` | internal/store/apply.go:819-871 | Recomputing only the touched addresses makes every row of the cache equal to a full recomputation |
| `Recompute.Aggregate` | internal/store/apply.go:819-871 | One pass over an address's outputs: balance is the value of the unspent ones, sent of the spent ones, received both; the count is of distinct creating and spending transactions, and the heights are the first creation and the last creation or spending |
| `Distribution.BucketOf` | internal/store/distribution.go:24-50 | Each positive balance has exactly one bucket, cut at 1, 10, 100, 1000, 10000, 100000 and 1000000 QOGE, in satoshis |
| `Distribution.BucketForBalance` | internal/store/distribution.go:66-77 | The table scan finds that bucket |
| `Distribution.HistTransition` | internal/store/distribution.go:106-122 | When one address changes, each bucket of the full histogram changes by exactly what observe records |
| `Distribution.BucketsAfterIff` | internal/store/distribution.go:194-220 | Publishing the deltas gives exactly the buckets of a full rescan, and is refused if and only if that rescan has a negative bucket |
| `DistributionDelta.Delta.Observe` | internal/store/distribution.go:113-122 | One transition changes each bucket's pending count and balance by the entering minus the leaving share, as wrapping int64 |
| `StoreTx.Tx.ApplyBlock` | internal/store/apply.go:109-222 | The statements, executed in order, compute the specified database or the specified error |
| `StoreTx.Tx.AdmitBlock` | internal/store/apply.go:116-140 | Shape, continuity, header and occurrence count are checked in this order |
| `StoreTx.Tx.ApplyBlockHeader` | internal/store/apply.go:343-385 | The header is inserted, verified or promoted as the specification says; which blocks that admits is Acceptance.AcceptedIff and Promotion.OrphanPromoted |
| `StoreTx.Tx.ApplyTransactions` | internal/store/apply.go:148-162 | The transaction loop with its checked fee total |
| `StoreTx.Tx.ApplyTransaction` | internal/store/apply.go:412-529 | One transaction: fee, rows, outputs, spends, touched addresses |
| `StoreTx.Tx.CheckPrevout` | internal/store/apply.go:537-561 | The value of a prevout that exists and is unspent or already spent by the same input |
| `StoreTx.Tx.SumInputValues` | internal/store/apply.go:426-440 | The checked input loop |
| `StoreTx.Tx.ComputeFee` | internal/store/apply.go:424-454 | The fee, or the first error met |
| `StoreTx.Tx.PersistTransaction` | internal/store/apply.go:456-504 | Insert or verify the transaction, its occurrence, inputs and output bodies |
| `StoreTx.Tx.VerifyRow` | internal/store/apply.go:487-504 | A stored transaction matches if and only if all its inputs and outputs do |
| `StoreTx.Tx.ApplyOutput` | internal/store/apply.go:664-787 | One output: destination row inserted or verified, coin created unless excluded; which outputs have coins is Unspendable.CoinsInEveryHistory |
| `StoreTx.Tx.ApplyOutputs` | internal/store/apply.go:506-514 | The output loop and the addresses it touches |
| `StoreTx.Tx.MarkSpent` | internal/store/apply.go:572-604 | The coin is marked spent by this input, or the call is refused and no coin changes |
| `StoreTx.Tx.MarkInputs` | internal/store/apply.go:516-526 | The spending loop and the addresses it touches |
| `StoreTx.Tx.RecomputeAddress` | internal/store/apply.go:819-871 | The row of one address becomes its recomputation, or disappears when it has no outputs |
| `StoreTx.Tx.RecomputeAddressTracked` | internal/store/distribution.go:162-173 | The same, with its transition recorded |
| `StoreTx.Tx.RecomputeTouched` | internal/store/apply.go:170-175 | After every touched address the cache is refreshed and the deltas describe the difference between the old and the new cache, in any iteration order |
| `StoreTx.Tx.PublishDeltas` | internal/store/distribution.go:194-220 | Every bucket with a nonzero delta moves by it unless it would become negative |
| `StoreTx.Tx.RefreshCaches` | internal/store/apply.go:164-181 | Addresses, buckets and anchor after one mutation |
| `StoreTx.Tx.ApplyBlockAccounting` | internal/store/accounting.go:36-62 | The block's facts are computed and inserted or verified |
| `StoreTx.Tx.SumOutputValues` | internal/store/accounting.go:82-104 | The checked output sum |
| `StoreTx.Tx.LocalExcludedOutputValue` | internal/store/supply_rollup.go:77-93 | The checked sum of all excluded outputs of the block |
| `StoreTx.Tx.ExtendedRow` | internal/store/supply_rollup.go:274-305 | Every cumulative field is a checked sum; a negative derived value is ErrRollupInvariant |
| `StoreTx.Tx.ApplySupplyRollup` | internal/store/supply_rollup.go:244-312 | The rollup row is derived from the parent row and inserted or verified |
| `StoreTx.Tx.PublishBlock` | internal/store/apply.go:164-216 | Everything ApplyBlock does after its transaction loop |
| `StoreTx.Tx.UndoOrphans` | internal/store/reorg.go:84-124 | The delete and restore statements give the undone coin set and exactly the addresses of the changed coins |
| `StoreTx.Tx.RollbackTo` | internal/store/reorg.go:39-154 | The statements compute the specified database or the specified error |
| `StoreSpec.InsertOrVerify` | internal/store/store.go:277-293 | Insert or verify succeeds exactly when the key is new or holds the same row, and then the table holds that row |
| `Store.Store.constructor` | internal/store/store.go:50-52 | A new store is empty and coherent |
| `Store.Store.Tip` | internal/store/store.go:148-161 | The checkpoint is the tip of the canonical chain |
| `Store.Store.CanonicalBlockHash` | internal/store/store.go:198-223 | The one canonical block at a height, or none |
| `Store.Store.ApplyBlock` | internal/store/apply.go:109-222 | A committed call leaves the specified tables and extends or replays the chain; a failed one leaves every table as it was |
| `Store.Store.RollbackTo` | internal/store/reorg.go:39-154 | A committed call leaves the specified tables and a prefix of the chain ending at the ancestor; a failed one leaves every table as it was |
| `Indexer.Indexer.SyncToTip` | internal/indexer/indexer.go:73-130 | Whatever Core answers, the store stays coherent and every committed change either appends one block or cuts at most 100. Success means that among the calls of this pass Core gave the local height as its count and the local tip's hash at that height. Every failure has its reason in the calls of this pass: an unanswered call, a negative height, an undecodable or mistaken block; ErrReorgTooDeep only if Core counted a chain that ends more than 100 blocks below the local tip or named another hash at every height from there to 100 below; ErrNonSequentialBlock only for a delivered block with another parent than the local tip although later three calls named, in order, the block, the local tip and the block again; ErrLocalChainGap only on a chain not counted from height 0; a store error only if the store refuses a delivered block or a rollback; a moved chain never. Against a frozen Core on a chain of applicable blocks, the local chain becomes Core's chain if they agree somewhere in the last 100 blocks, and otherwise the pass returns ErrReorgTooDeep with the store unchanged |
| `Indexer.Indexer.Round` | internal/indexer/indexer.go:73-130 | One turn of the retry loop: against a frozen Core within reach a single turn brings the local chain to Core's tip, and a further one confirms it; out of reach it fails with ErrReorgTooDeep and the store unchanged |
| `Indexer.Indexer.Advance` | internal/indexer/indexer.go:86-129 | What a round does after reconciling: confirm by the calls made in it, or apply the missing range; a moved remote chain is retried, never reported, and every failure has its reason in the calls made |
| `Indexer.Indexer.ApplyRange` | internal/indexer/indexer.go:152-167 | Blocks are appended one by one up to the target, or the range stops with the chain so far; every failure has its reason in the calls made |
| `Indexer.Indexer.ConfirmCaughtUp` | internal/indexer/indexer.go:140-146 | True only if Core itself reported the local tip's hash at its height |
| `Indexer.Indexer.Reconcile` | internal/indexer/reconcile.go:23-48 | The store is left alone after Core named its tip, or cut back by at most 100 blocks to a block that Core named twice, the second time in the last call before the rollback, or left alone with an error; against a frozen Core it is cut to the highest common block |
| `Indexer.Indexer.Reorg` | internal/indexer/reconcile.go:56-157 | On success exactly one rollback of at most 100 blocks, to a block that Core named during the search and again in the last call before the rollback; against a frozen Core it lands on the fork |
| `Indexer.Indexer.LocateAncestor` | internal/indexer/reconcile.go:56-130 | The bounded search and its depth limit; the ancestor found is canonical and was named by Core; ErrReorgTooDeep only if Core's chain ends more than 100 blocks below the tip or was seen to differ at every height searched |
| `Indexer.Indexer.FindAncestor` | internal/indexer/reconcile.go:71-98 | The downward loop finds a canonical block of its range that Core named at its height, or Core named another hash at every height of the range; against a frozen Core the highest common block |
| `Indexer.Indexer.SameAt` | internal/indexer/reconcile.go:76-97 | One step of the downward loop: Core named the local block of this height, or another one, or the failure has its reason |
| `Indexer.Indexer.CutBack` | internal/indexer/reconcile.go:132-157 | The rollback removes exactly the blocks above the ancestor |
| `Indexer.Indexer.ApplyHeight` | internal/indexer/apply.go:29-88 | A block is applied only if, of the calls made, one named its hash for that height, a later one delivered the block and a still later one named the hash again; on failure nothing changes, and ErrNonSequentialBlock means that the delivered block names another parent than the local tip although three later calls named block, tip and block in turn |
| `Indexer.Indexer.FetchBlock` | internal/indexer/apply.go:29-70 | The fetched block has the asked height, and its delivery lies between two calls that named its hash |
| `Indexer.Indexer.GetBlockCount` | internal/indexer/race.go:15-24 | A negative count is refused as malformed |
| `Indexer.Indexer.ClassifyHashUnavailable` | internal/indexer/race.go:41-52 | A missing hash is a moved chain exactly when Core's count has fallen below the height |
| `Indexer.Indexer.HashAt` | internal/indexer/race.go:41-59 | The hash Core gave; otherwise the next call asks for the count, and the failure is a moved chain exactly if that count is below the height |
| `Indexer.Indexer.DiagnoseNonSequential` | internal/indexer/race.go:82-147 | A non-sequential block is reported as such only when three calls made in this order named the block, the local tip below it, and the block again; a moved chain is reported only when some answer showed another hash, a shorter chain, or another local height |
| `Syncing.CommonPrefix` | internal/indexer/reconcile.go:56-100 | If the two linked chains agree at one height and hashes identify blocks, they agree at every height below |
| `Backfill.AccountingBatchIsLive` | internal/store/backfill.go:232-319 | For every stored block the facts reconstructed from its stored rows are exactly the ones ApplyBlock wrote |
| `Backfill.PreflightSound` | internal/store/supply_rollup_backfill.go:225-249 | With one canonical block per height, count N+1, minimum 0, maximum N and no ancestry breach, the canonical set is one parent-linked chain with one block at each height |
| `Backfill.PreflightExact` | internal/store/supply_rollup_backfill.go:225-249 | On canonical rows in height order the shape and ancestry checks pass if and only if the rows are such a chain up to the checkpoint |
| `Backfill.OrderedUnique` | internal/store/supply_rollup_backfill.go:427-466 | Height order leaves no choice: two height-ordered listings of one set are equal |
| `Backfill.CoherentIsOrdered` | migrations/0001_initial.up.sql:75-105 | A coherent store's chain is its canonical rows in height order |
| `RollupBackfill.BatchIsLive` | internal/store/supply_rollup_backfill.go:427-466 | The window sums over the chain give at every height exactly the row the live path derived one block at a time |
| `RollupBackfill.DirectIsStaged` | internal/store/supply_rollup_backfill.go:305-319 | Each independent total over all canonical accounting rows equals the staged sum at the tip, in any order of summation |
| `RollupBackfill.CrossCheckIff` | internal/store/supply_rollup_backfill.go:292-319 | On a coherent genesis-rooted store the cross-checks pass if and only if nothing of value was re-spent |
| `RollupBackfill.BatchEqualsIncremental` | internal/store/supply_rollup_backfill.go:195-332 | On a coherent store from which any rollup rows were lost, the specified outcome over its chain is a success if and only if the chain starts at height 0, is short enough to be counted, starts with a block that names no parent and re-spends nothing; it then restores exactly the canonical rows that ApplyBlock wrote, and otherwise reports the specific error |
| `RollupBackfill.RunRestores` | internal/store/supply_rollup_backfill.go:195-332 | A run of the backfill on such a store walks the store's own chain, succeeds under exactly that condition, puts every lost row of a canonical block back as it was and reports the right counts and tip; otherwise nothing changes |
| `BackfillRun.Backfiller.SumFees` | internal/store/backfill.go:256-285 | The fee loop over a block's stored occurrences |
| `BackfillRun.Backfiller.BackfillBlockAccounting` | internal/store/backfill.go:232-319 | One block's row is reconstructed and inserted or verified, or nothing changes |
| `BackfillRun.Backfiller.BackfillAccounting` | internal/store/backfill.go:156-215 | The loop over all blocks in height and hash order succeeds exactly when every block can be reconstructed without contradiction, and then fills exactly the missing rows and counts them; otherwise it stops at the first failing block with its error, and the rows and counts of the blocks before it stand |
| `BackfillRun.CoherentReconstructs` | internal/store/backfill.go:156-215 | From a coherent store that lost accounting rows the loop succeeds and restores exactly the old table |
| `RollupRun.OrderByHeight` | internal/store/supply_rollup_backfill.go:427-466 | The canonical blocks in height order |
| `RollupRun.Stage` | internal/store/supply_rollup_backfill.go:427-466 | The staging pass computes every window sum |
| `RollupRun.CheckStaged` | internal/store/supply_rollup_backfill.go:268-281 | Contradictions are found before rows that do not fit their columns |
| `RollupRun.InsertStaged` | internal/store/supply_rollup_backfill.go:277-281 | Only missing rows are inserted and counted |
| `RollupRun.CrossCheck` | internal/store/supply_rollup_backfill.go:283-319 | The cross-checks compare independent scans with the staged tip |
| `RollupRun.Run.Preflight` | internal/store/supply_rollup_backfill.go:225-262 | The three preflight checks, in order; when they pass on the canonical rows in height order, those are one parent-linked chain up to the checkpoint |
| `RollupRun.Run.BackfillSupplyRollup` | internal/store/supply_rollup_backfill.go:195-332 | The steps are a run in the sense of RunRestores: the specified outcome over the canonical rows in height order, and on any error no row is inserted |
| `Accounting.ScheduledSubsidyThroughHeight` | internal/accounting/subsidy.go:163-211 | For every height up to the largest int64 the era-based sum is the sum of all block subsidies, without error, and at most twice interval times initial subsidy; a negative height is an error |
| `Accounting.SubsidyHalves` | internal/accounting/subsidy.go:122-131 | Every block of an era earns the initial subsidy halved once per era before it, rounding down each time, and nothing from the first exhausted era on |
| `Accounting.SubsidyNeverRises` | internal/accounting/subsidy.go:122-131 | The subsidy never rises with height |
| `Accounting.SubsidyBound` | internal/accounting/subsidy.go:133-162 | The sum of all block subsidies through any height is at most twice interval times initial subsidy |
| `Accounting.ScheduleForNetwork` | internal/accounting/subsidy.go:95-108 | Exactly four networks have a schedule: 10000000000 satoshis, 64 halvings, every 500000 blocks on main, test and signet and every 150 on regtest; each keeps the arithmetic inside int64 |
| `Accounting.SubsidyRunsOut` | internal/accounting/subsidy.go:31-60 | On every network the subsidy starts at 100 QOGE and is zero exactly from 34 halvings on: from height 17000000, on regtest from 5100 |
| `Accounting.ComputeBlockFacts` | internal/accounting/model.go:99-134 | Facts exist exactly when the coinbase pays at most subsidy plus fees, and then every satoshi of the reward is paid or unclaimed |
| `Int64.MulCheckedExact` | internal/accounting/subsidy.go:226-239 | The division-based overflow check is exact for all operands except the smallest int64 times -1 |
| `BareMultisig.MultisigSound` | internal/script/legacy.go:215-259 | Every accepted script tokenizes to m, n valid keys, n, OP_CHECKMULTISIG and nothing else, with 1 <= m <= n <= 20 |
| `BareMultisig.MultisigComplete` | internal/script/legacy.go:215-259 | Every script that tokenizes so is accepted with those keys |
| `BareMultisig.MultisigRoundTrip` | internal/script/legacy.go:215-259 | The parser inverts the encoder for all valid keys and 1 <= m <= n <= 20 |
| `Legacy.MatchMultisig` | internal/script/legacy.go:215-259 | The cursor loop computes the specified parse |
| `ScriptForms.MultisigIff` | internal/script/legacy.go:215-263 | The parser returns these keys, m and n if and only if the script is m, the n keys each pushed with its length in any of the four encodings, n, and 0xae, byte by byte |
| `ScriptForms.PushOnlyIff` | internal/script/legacy.go:265-313 | A script is push-only if and only if it is a concatenation of single pushes, said byte by byte |
| `Legacy.IsPushOnly` | internal/script/legacy.go:265-314 | True exactly for scripts that are a sequence of complete pushes; byte 0x50 is not one |
| `Legacy.NextToken` | internal/script/legacy.go:103-149 | Every token makes progress and stays inside the script |
| `Legacy.ScriptNumber` | internal/script/legacy.go:164-185 | A number token yields a value within the asked bounds and within 1 to 20 |
| `Classify.MatchersExclusive` | internal/script/classify.go:16-81 | At most one of the six matchers accepts a script |
| `Classify.Classify` | internal/script/classify.go:16-81 | The result is the verdict of whichever matcher accepts, so the order of the checks does not matter, and it says byte by byte what the script is |
| `Classify.VerdictSaid` | internal/script/classify.go:16-60 | Each kind is given if and only if the bytes are its literal pattern, UnknownWitness, null data and bare multisig included, Unknown if and only if none is; program, keys, m and n are those bytes |
| `Classify.MatchNullData` | internal/script/legacy.go:79-95 | The null-data matcher against its definition |
| `Classify.WitnessRoundTrip` | internal/script/witness_program.go:32-73 | Every version 0 to 16 with a program of 2 to 40 bytes parses back |
| `Classify.ParseWitnessProgram` | internal/script/witness_program.go:32-73 | Every accepted script is the encoding of the returned version and program |
| `Classify.KindsMean` | internal/script/classify.go:16-81 | P2QPK is exactly version 2 with 32 bytes; null data is always unspendable |
| `Amount.AmountRoundTrip` | internal/decode/amount.go:44-102 | Reading the printed form of any non-negative int64 gives it back; the printed form has eight decimals and no needless leading zero |
| `Amount.NegativeRoundTrip` | internal/chain/amount.go:46-56 | Every negative int64 prints as a sign and its exact magnitude, the smallest included, and is refused by the reader |
| `Amount.ShowInjective` | internal/chain/amount.go:46-56 | Different amounts print differently |
| `Amount.AcceptedIsExact` | internal/decode/amount.go:44-102 | An accepted text denotes exactly its value divided by 10^8 |
| `Amount.RejectedOnlyFor` | internal/decode/amount.go:44-102 | An unsigned decimal is refused if and only if it has more than 8 fractional digits or a value above int64 |
| `Amount.DecodeAmount` | internal/decode/amount.go:44-102 | The scanning loop computes the specified reading |
| `Amount.LooserThanDocumented` | internal/decode/amount.go:44-102 | "1." and ".5" are accepted |
| `Mempool.Validate` | internal/mempool/model.go:56-108 | The candidate checks hold exactly when the tip is well formed, nothing is coinbase-shaped, txids and wtxids are distinct and every dependency is another transaction of the snapshot |
| `Mempool.Cached.ReplaceSnapshot` | internal/mempool/store.go:70-160 | A successful call replaces the whole snapshot, field by field, and raises the generation by one; a failed one leaves the old snapshot; ErrCandidateInvalid exactly for a candidate that fails validation |
| `Mempool.SnapshotHolds` | internal/mempool/store.go:70-166 | The stored snapshot holds every field of every candidate transaction and nothing else, every dependency pair, and the counted totals, one generation later |
| `Mempool.Cached.InsertBodies` | internal/mempool/store.go:116-128 | Pass one: every row, with wrapping totals |
| `Mempool.Cached.InsertDepends` | internal/mempool/store.go:239-248 | Pass two: every dependency, both ends of which exist |
| `Mempool.GenerationIdentifies` | internal/mempool/store.go:66-69 | At any two moments of any history of replacements, equal generations mean equal snapshots |
| `Mempool.OrderIndependent` | internal/mempool/store.go:103-134 | Candidates that list the same transactions in any order store the same rows |
| `MempoolPages.PaginationIsSafe` | internal/query/mempool.go:186-281 | Following cursors through any calls interleaved with any replacements either fails with ErrMempoolGenerationChanged, because some call saw another generation, or lists the newest rows of one snapshot in order; without a next cursor it has listed every transaction of that snapshot exactly once, by descending entry time and txid and with every field of its row, and it gets there within one call more than there are rows |
| `MempoolPages.ChangeIsNoticed` | internal/query/mempool.go:270-272 | An unfinished walk's next call fails if and only if it sees another generation |
| `MempoolPages.RemainingListing` | internal/query/mempool.go:202-208 | The rows a returned cursor admits are exactly the ones not yet listed |
| `MempoolPages.ListingIs` | internal/query/mempool.go:202-208 | The listing holds exactly the asked rows in strictly descending (entry_time, txid) order |
| `Text.TextBelowIff` | internal/query/mempool.go:205-230 | One text is below another if and only if they agree up to a position at which the first ends or has the smaller character |
| `MempoolPages.TxPageFrom` | internal/query/mempool.go:193-248 | The row loop and the next cursor, which exists exactly for a full page |
| `MempoolPages.MempoolOverview` | internal/query/mempool.go:258-281 | The state with its freshness, the generation check, then the page |
| `MempoolPages.StateFrom` | internal/query/mempool.go:88-124 | Fresh exactly when the snapshot is anchored at the confirmed tip; never stale before the first synchronization |
| `MempoolPages.ClampPageSize` | internal/query/query.go:97-105 | A page size is between 1 and 100: the asked one if in range, 25 if none is asked, 100 if more |

## Left out

- StoreTx.Tx.ApplyTransaction: leaves out witness variants, that is wtxid, witness items, sizes, the witness-identity error, and the refusal of a replay that carries the same txid in another variant; none of them reaches a derived table.
- StoreTx.Tx.PersistTransaction: leaves out the transaction_variants rows and the classification columns of stored outputs, for the same reason.
- StoreTx.Tx.ApplyOutput: leaves out multisig participants, which are display identities and never counted, and with them the errors for participants that do not match their keys.
- Indexer.Indexer.SyncToTip: convergence assumes a local store that is empty or starts at height 0, a single writer, a context that is not cancelled during the pass, and that Core's blocks above the fork are accepted by ApplyBlock there; the 100-block limit is per rollback, and not claimed when another writer moves the checkpoint between the last check and RollbackTo.
- RollupRun.Run.BackfillSupplyRollup: numeric sums are exact, and rows that do not fit their columns are reported before insertion starts; the SQL statement would report the first such row while inserting.
- Mempool.Cached.ReplaceSnapshot: inputs, outputs, sizes, addresses and participants of a mempool transaction are one opaque body, so the constraints of their tables are not modelled.
- MempoolPages.ListingIs: txids compare by character, which for lowercase hex is what every collation gives.
- Header fields, version and lock time are one opaque string that is stored and compared.
- PostgreSQL itself: connections, isolation, advisory locks, row locks, triggers that recompute heights, migrations. A statement is its effect on the tables, a transaction is all or nothing.
- Commit failures after a successful body, which differ from other failures only in what the caller can know.
- RPC transport and decoding of Core's JSON; the node answers already decoded blocks or a decoding failure.
- SyncInProgress (the one-pass-at-a-time lock), polling, logging and progress.
- The loop counter of applyRange at the largest int64, where h++ would wrap.
- Timestamps: updated_at, orphaned_at, observed_at.
- The distribution backfill and its preflight, whose rescan is the specification the live buckets are proved equal to.
- Read-only query pages other than the mempool list, the HTTP interface, templates, configuration and deployment status.
- Bounds on total_received and on cumulative fees: value churns without limit, so only what is unspent is bounded.
