/** The entities the chain indexer stores and moves, in their normalized form. */
module ChainTypes {
  /** 32-byte and 20-byte values. Lower-case hex text of one length orders as the number it spells. */
  type Hash = nat
  type Address = nat
  /** A hex digit of a log's data. */
  type Nibble = n: nat | n < 16

  const MAX_BIGINT: nat := 9_223_372_036_854_775_807
  const MAX_INTEGER: nat := 2_147_483_647
  const MAX_SAFE_INTEGER: nat := 9_007_199_254_740_991
  /** The last second a JavaScript `Date` can hold. */
  const MAX_DATE_SECONDS: nat := 8_640_000_000_000

  datatype Header = Header(number: nat, hash: Hash, parent: Hash)

  datatype Block = Block(number: nat, hash: Hash, parent: Hash, time: nat) {
    function ToHeader(): Header {
      Header(number, hash, parent)
    }
  }

  datatype Log = Log(
    blockNumber: nat, blockHash: Hash, txHash: Hash, txIndex: nat, logIndex: nat,
    address: Address, topics: seq<Hash>, data: seq<Nibble>)

  datatype Error =
    | InvalidInput
    | ConflictingDuplicateEvent
    | DuplicateBlockHeight
    | NoncontiguousObservedBlocks
    | NoncanonicalObservedBlocks
    | CheckpointNotInCanonicalBlocks
    | CommonAncestorNotFound
    | ObservedChainAhead
    | ReorgDepthExceeded
    | NoncontiguousReplayBlocks
    | CheckpointNotBatchTip
    | LogNotInSuppliedBlocks
    | StaleCheckpoint
    | ReplayBlockNotSupplied
    | UniqueViolation
    | StoredBlockMismatch
    | StoredEventMismatch
    | DatabaseFault

  /** What the reader throws, of its own or on behalf of the store. */
  datatype ReaderError =
    | InvalidReader
    | InvalidCheckpoint
    | RpcUnavailable
    | RpcChainIdMismatch
    | CheckpointAheadOfFinalizedTip
    | IncompleteRpcHeaders
    | NoncanonicalRpcHeaders
    | IncompleteRpcLogs
    | StoreFailed(error: Error)
    | StoreCheckpointMismatch
    | ReplayRangeNotAdvancing
}
