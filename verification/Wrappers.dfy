/** Option and Result types shared by the other modules. */
module Wrappers {

  /** Python's `T | None`. */
  datatype Option<+T> = None | Some(value: T)

  /** A returned value, or the name of the exception the source raises. */
  datatype Result<+T> = Ok(value: T) | Err(error: string)
}
