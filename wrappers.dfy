/** Optional values and fallible results, standing for Rust's `Option` and `Result`. */
module Wrappers {

  datatype Option<T> = None | Some(value: T) {
    /** `Option::unwrap_or`. */
    function UnwrapOr(default: T): T {
      match this
      case Some(v) => v
      case None => default
    }
  }

  datatype Result<T, E> = Ok(value: T) | Err(error: E)
}
