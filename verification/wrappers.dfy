/** Option and Result, shared by the ledger modules.
- Option<T>: a value that may be absent (an amount cell the parser rejects)
- Result<R, E>: a value or the reason the batch was refused
 */
module Wrappers {

  /** Some value, or None where pandas would produce NaN. */
  datatype Option<+T> = None | Some(value: T) {

    /** The wrapped value, or `default` when there is none (pandas' `fillna`). */
    function GetOr(default: T): T {
      match this
      case Some(v) => v
      case None => default
    }
  }

  /** A computed value, or the error that stopped the run. */
  datatype Result<+R, +E> = Success(value: R) | Failure(error: E)
}
