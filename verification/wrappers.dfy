/** Optional values and success/failure results, used wherever the system
    returns `null`, `Option` or throws. */
module Wrappers {

  datatype Option<+T> = None | Some(value: T)

  datatype Result<+T, +E> = Ok(value: T) | Err(error: E)
}
