/** The outcome of an operation that can fail the way a Go panic would. */
module Wrappers {

  datatype Result<T, E> = Ok(value: T) | Err(error: E)
}
