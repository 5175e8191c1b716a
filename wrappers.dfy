/** Optional values (a TypeScript `?` field or `T | null`) and outcomes of
    operations that can fail (a rejected promise). */
module Wrappers {

  datatype Option<+T> = None | Some(value: T) {
    /** `x ?? d` for an optional `x`. */
    function GetOr(default: T): T {
      match this
      case Some(v) => v
      case None => default
    }
  }

  datatype Result<+R, +E> = Ok(value: R) | Err(error: E)
}
