/** The sentinel errors of the accounting, store and indexer packages. */
module Errors {

  datatype Error =
    // internal/accounting
    | UnknownNetwork
    | NegativeHeight
    | NegativeAmount
    | CoinbaseOverclaim
    // internal/store
    | ImmutableConflict
    | MissingPrevout
    | DoubleSpend
    | NegativeFee
    | AncestorNotFound
    | NonSequentialBlock
    | IncompleteBlock
    | AmountOverflow
    | InvalidTransactionShape
    | NullPreviousOut       // a non-coinbase input without a previous output
    | RowVanished           // a row read earlier in the same SQL transaction is gone
    | DatabaseConstraint    // a CHECK, UNIQUE, FOREIGN KEY or column range of the schema
    | RollupParentMissing
    | RollupInvariant
    | DistributionInvariant
    | IncompleteAccountingSource
    | NoSuchBlock
    | MalformedOccurrence    // a stored block without a coinbase at index 0
    | CanonicalShapeInvalid
    | CanonicalAncestryInvalid
    | SupplyRollupSourceIncomplete
    | SupplyRollupCrossCheckFailed
    // internal/indexer
    | ReorgTooDeep
    | LocalChainGap
    | RemoteChainMoved
    | RpcFailure
    | MalformedRpcData
    | DecodeFailure
    | UnexpectedTip
    | Cancelled
    // internal/mempool and internal/query
    | CandidateInvalid
    | MempoolGenerationChanged
}
