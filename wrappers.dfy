/** Optional values and results with an error, used for the outcomes of the route's collaborators. */
module Wrappers {

  datatype Option<+T> = None | Some(value: T)

  datatype Result<+R, +E> = Ok(value: R) | Err(error: E)
}
