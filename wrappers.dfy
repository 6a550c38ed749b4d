/** Optional values and success-or-error results, standing in for the
    source's `false`/`null` returns and its thrown exceptions. */
module Wrappers {

  datatype Option<+T> = None | Some(value: T)

  datatype Result<+T, +E> = Ok(value: T) | Err(error: E)
}
