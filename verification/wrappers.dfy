/** Optional values and results, standing in for the source's `T | null`
    returns and for the exceptions its operations throw. */
module Wrappers {

  datatype Option<+T> = None | Some(value: T)

  datatype Result<+T, +E> = Ok(value: T) | Err(error: E)
}
