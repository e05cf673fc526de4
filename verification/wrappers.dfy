/** Optional values, standing in for Rust's `Option` as returned by `HashMap::get`. */
module Wrappers {

  datatype Option<+T> = None | Some(value: T) {

    /** The wrapped value, or `default` when there is none
        (Rust's `unwrap_or` / `unwrap_or_default`). */
    function GetOr(default: T): (r: T)
      ensures None? ==> r == default
      ensures Some? ==> r == value
    {
      match this
      case Some(v) => v
      case None => default
    }
  }
}
