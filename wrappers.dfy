/** Option and Result, the failure-carrying values the services return. */
module Wrappers {

  datatype Option<+T> = None | Some(value: T) {
    /** The value inside Some, or `default` for None (JavaScript's `??`). */
    function GetOr(default: T): T {
      match this
      case Some(v) => v
      case None => default
    }
  }

  /** A service call either succeeds with a value or fails with the message it throws. */
  datatype Result<+R> = Ok(value: R) | Err(message: string)
}
