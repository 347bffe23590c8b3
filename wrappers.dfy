/** Failure-carrying wrappers: Option for JavaScript's `undefined`, Result and
    Outcome for the `throw`s of the record layer. */
module Wrappers {

  datatype Option<+T> = None | Some(value: T)

  datatype Result<+R, +E> = Ok(value: R) | Err(error: E)

  /** The result of a setter that may throw: it returns nothing on success. */
  datatype Outcome<+E> = Pass | Fail(error: E)
}
