/** Small failure-compatible wrappers shared by the other modules. */
module Std {

  /** A value that may be missing: `null` in the store's fields, a missing key in storage. */
  datatype Option<+T> = None | Some(value: T)

  /** The outcome of an operation that may throw; `Err` carries the exception's message. */
  datatype Result<+T> = Ok(value: T) | Err(error: string)
}
