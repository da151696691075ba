/** Option and Result, the failure-carrying values used throughout the model. */
module Wrappers {

  datatype Option<+T> = None | Some(value: T) {
    function GetOr(default: T): T {
      if Some? then value else default
    }
  }

  /** An operation that either succeeds with a value or fails with the error message the service raises. */
  datatype Result<+T> = Ok(value: T) | Err(message: string)
}
