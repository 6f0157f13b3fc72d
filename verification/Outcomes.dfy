/** Errors and results.  Go's sentinel errors are constructors; wrapped message text is dropped. */
module Outcomes {
  import opened Words

  datatype Option<+T> = None | Some(value: T)

  datatype Error =
    | NotFound              // database.ErrNotFound
    | StoreFault            // any other failure of the state, a permission refusal included
    | Malformed             // stored or received bytes that do not decode
    | TooLarge              // a packer ran past its size limit
    | AmountCannotBeZero
    | MaxPriceCannotBeZero
    | MarketNotFound
    | MarketInteraction
    | InsufficientFunds
    | InsufficientBalance
    | InsufficientShares
    | DescriptionEmpty
    | DescriptionTooLong
    | OracleSourceTooLong
    | OracleParametersTooLong
    | EndTimeInPast
    | ResolutionTimeBeforeEndTime
    | NoEntropy
    | EmptyAction
    | UnexpectedTypeId
    | BadAddress
    | InvalidKeyLength
    | InvalidPrefix

  datatype Result<+T> = Ok(value: T) | Err(error: Error)

  /** What a state-changing call reports when it succeeds. */
  datatype Output = Nothing | Created(id: U64)
}
