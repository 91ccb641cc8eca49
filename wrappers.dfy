/** Optional values and error results, the shapes the modelled code uses for
    `undefined`/`None` and for raised errors. */
module Wrappers {

  datatype Option<T> = None | Some(value: T) {
    /** `x ?? default` on an optional value */
    function GetOr(default: T): T {
      if Some? then value else default
    }
  }

  datatype Result<T, E> = Ok(value: T) | Err(error: E)
}
