/** Optional values and results that carry the source's refusals. */
module Wrappers {
  datatype Option<+T> = None | Some(value: T) {
    function GetOr(fallback: T): T {
      match this
      case Some(v) => v
      case None => fallback
    }
  }

  datatype Result<+T, +E> = Ok(value: T) | Err(error: E)
}
