/** Option and Result: a missing pandas cell, a Python `None`, and an operation
    that either yields a value or raises. */
module Wrappers {

  datatype Option<+T> = None | Some(value: T) {
    function GetOr(default: T): T {
      match this
      case Some(v) => v
      case None => default
    }
  }

  datatype Result<+R, +E> = Ok(value: R) | Err(error: E)

  /** The element when it is kept, nothing otherwise: one optional append. */
  function Opt<T>(keep: bool, x: T): seq<T>
  {
    if keep then [x] else []
  }
}
