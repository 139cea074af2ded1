/** Failure values shared by the ledger.  The original raises `ValueError` with a
    message naming the cause; here every cause is a constructor of `Error`, and
    operations return `Result`/`Outcome` values instead of raising. */
module Outcomes {

  datatype Option<T> = None | Some(value: T)

  /** The causes of failure.  The deposit, withdrawal and transfer messages
      about a non-positive amount all become `InvalidAmount`, and both
      insufficient-funds messages become `InsufficientFunds`. */
  datatype Error =
    | InvalidAmount                    // a non-positive deposit, withdrawal or transfer amount
    | InsufficientFunds                // a withdrawal or transfer larger than the balance
    | AccountNotFound(number: int)     // deposit/withdraw on an unknown account number
    | SourceNotFound(number: int)      // transfer from an unknown account number
    | DestinationNotFound(number: int) // transfer to an unknown account number
    | SameAccount                      // transfer from an account to itself

  /** An operation that returns a value on success. */
  datatype Result<T> = Success(value: T) | Failure(error: Error)

  /** An operation that returns nothing on success. */
  datatype Outcome = Pass | Fail(error: Error)
}
