/** Optional values and results shared by the client and the server model. */
module Wrappers {

  /** A value that may be missing. On the client `None` stands for
      JavaScript's `null`/`undefined`; on the server for Python's `None`. */
  datatype Option<+T> = None | Some(value: T) {

    /** The wrapped value, or `default` when there is none. */
    function GetOr(default: T): T {
      match this
      case Some(v) => v
      case None => default
    }
  }

  /** JavaScript's nullish-coalescing `a ?? b`: `a` unless it is null or undefined. */
  function Coalesce<T>(a: Option<T>, b: Option<T>): (r: Option<T>)
    ensures a.Some? ==> r == a
    ensures a.None? ==> r == b
  {
    match a
    case Some(_) => a
    case None => b
  }

  /** A value or an error. */
  datatype Result<+T, +E> = Ok(value: T) | Err(error: E)
}
