/** Optional values and results, shared by the models of the store. */
module Wrappers {

  datatype Option<+T> = None | Some(value: T)

  /** The error kinds of the store: a bad request, a conflict with the state, an unknown row. */
  datatype Error = BadInput | Conflict | NotFound

  datatype Result<+T> = Ok(value: T) | Err(error: Error)
}
