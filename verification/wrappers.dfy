/** The failure-carrying datatypes shared by the rest of the model. */
module Wrappers {

  /** A value that may be absent: a nullable column or an optional header. */
  datatype Option<+T> = None | Some(value: T)

  /** The outcome of a storage statement: a value, or the error the driver reports. */
  datatype Result<+T, +E> = Ok(value: T) | Err(error: E)

  /** A check that either passes or fails with a reason. */
  datatype Outcome<+E> = Pass | Fail(error: E)
}
