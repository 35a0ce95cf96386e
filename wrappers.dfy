/** Option and Result values: Python's None and the exceptions the
    modelled code raises become explicit data. */
module Wrappers {

  /** None models Python's None. */
  datatype Option<+T> = None | Some(value: T) {
    function GetOr(default: T): T {
      match this
      case Some(v) => v
      case None => default
    }
  }

  /** Failure carries the message of the exception the source raises. */
  datatype Result<+T> = Success(value: T) | Failure(error: string)
}
