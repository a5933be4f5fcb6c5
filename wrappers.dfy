/** Option and Result values standing in for C# null references and thrown exceptions. */
module Wrappers {

  /** A reference that may be null: `None` is C# `null`. */
  datatype Option<T> = None | Some(value: T)

  /** The value of a call that may throw: `Err` carries the exception. */
  datatype Result<T, E> = Ok(value: T) | Err(error: E)
}
