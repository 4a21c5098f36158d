/** Wrappers used across the model: Option for Ruby's `nil` and Result for
    an operation that can raise. */
module Wrappers {

  /** A value or Ruby's `nil`. */
  datatype Option<+T> = None | Some(value: T) {

    /** The value, or `default` when this is None (Ruby's `x.to_s` on nil is `""`). */
    function GetOr(default: T): T {
      match this
      case Some(v) => v
      case None => default
    }
  }

  /** Either a normal value or the error an exception would carry. */
  datatype Result<+R, +E> = Success(value: R) | Failure(error: E)
}
