/** Optional values (Python's `X | None`), results with an error branch, and
    bytes. */
module Wrappers {

  /** One byte of a `bytes`/`bytearray`. */
  type byte = bv8

  datatype Option<+T> = None | Some(value: T) {
    /** `x if x is not None else default` */
    function GetOr(default: T): T {
      match this
      case Some(v) => v
      case None => default
    }
  }

  datatype Result<+T, +E> = Success(value: T) | Failure(error: E)
}
