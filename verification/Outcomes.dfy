/** A value or an error. */
module Outcomes {
  datatype Outcome<+T, +E> = Ok(value: T) | Err(error: E)
}
