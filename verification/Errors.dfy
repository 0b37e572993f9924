/** Results of operations that throw in the source, and the reasons they give. */
module Errors {

  /** One constructor per kind of exception the modelled code throws. */
  datatype Error =
    // transaction and UTXO rules
    | BadStructure
    | OutputTotalOutsideRange
    | CoinbaseNotRegular
    | DuplicateInput
    | MissingInput
    | ImmatureCoinbase
    | BadSignature
    | InputTotalOverflow
    | SpendsTooMuch
    | DuplicateOutput
    // block and chain rules
    | NoGenesis
    | BadGenesis
    | NonContiguousHeight
    | BadProofOfWork
    | UnexpectedBits
    | BrokenLink
    | TimeNotIncreasing
    | MissingCoinbase
    | ExtraCoinbase
    | MerkleMismatch
    | BlockFeeOverflow
    | WrongReward
    // chain state and persistence
    | NotInitialized
    | ForeignGenesis
    | SaveFailed
    | LoadFailed
    | SnapshotMismatch
    | NoValidChain
    | SupplyOverflow
    // mining
    | BadArgument
    | MiningExhausted
    // peers
    | PeerInconsistent
    | PeerStopped
    | NotConnected
    | BodyMismatch
    | BodyMissing
    | LimitExceeded
    // mempool and wallet
    | AlreadyInMempool
    | FeeOverflow
    | InsufficientFunds
    | FeeTooSmall
    | BalanceOverflow
    // codecs
    | Truncated
    | NonCanonical
    | TrailingBytes
    | BadFormat
    | ChecksumMismatch
    | Interrupted

  datatype Result<+T> = Ok(value: T) | Err(error: Error) {
    predicate IsFailure() { Err? }

    function PropagateFailure<U>(): Result<U>
      requires Err?
    {
      Err(error)
    }

    function Extract(): T
      requires Ok?
    {
      value
    }
  }

  datatype Option<+T> = None | Some(value: T)
}
