/** Optional values and results that are either a value or an error, standing in for
    Python's `None` defaults and raised exceptions. */
module Outcome {

  datatype Option<+T> = None | Some(value: T)

  datatype Result<+T, +E> = Ok(value: T) | Err(error: E)
}
