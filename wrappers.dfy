/** Option and Result, the two failure-carrying datatypes the services return. */
module Wrappers {

  datatype Option<+T> = None | Some(value: T)

  /** An operation either returns its value or fails with an error (the
      exception the service would throw). */
  datatype Result<+T, +E> = Ok(value: T) | Err(error: E)
}
