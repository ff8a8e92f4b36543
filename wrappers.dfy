/** Optional values and results with an error, used for the page's
    optional-chaining reads and for its thrown errors. */
module Wrappers {

  datatype Option<+T> = None | Some(value: T)

  datatype Result<+T, +E> = Ok(value: T) | Err(error: E)
}
