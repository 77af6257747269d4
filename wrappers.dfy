/** Option and Result, the two failure-carrying shapes the model uses for
    JavaScript's `null` and for thrown exceptions. */
module Wrappers {

  datatype Option<+T> = None | Some(value: T)

  datatype Result<+T, +E> = Ok(value: T) | Err(error: E)
}
