/** Optional values and success-or-failure results, used for the fields a
    request may omit and for the exceptions the services throw. */
module Outcomes {

  datatype Option<+T> = None | Some(value: T)

  datatype Result<+T, +E> = Ok(value: T) | Err(error: E)
}
