module Wrappers {
  datatype Option<+T> = None | Some(value: T)

  /** A computation of the operator that either returns or panics. */
  datatype Outcome<+T> = Ok(value: T) | Panic
}
