/** Outcome datatypes shared by the other modules. */
module Wrappers {

  /** A value that may be absent: `None` stands for an operation that panics or raises. */
  datatype Option<+T> = None | Some(value: T)

  /** A success carrying a value, or a failure carrying an error. */
  datatype Result<+T, +E> = Ok(value: T) | Err(error: E)
}
