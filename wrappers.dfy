/** Tagged success/failure values: every operation of the model reports its
    outcome as one of these instead of throwing. */
module Wrappers {

  datatype Option<+T> = None | Some(value: T)

  /** A value or an error, the `{ success, error, data }` envelope. */
  datatype Result<+T, +E> = Ok(value: T) | Err(error: E)

  /** Success without a payload, or an error. */
  datatype Outcome<+E> = Pass | Fail(error: E)
}
