/** Option, Result and Outcome values used for the task's absent properties and thrown exceptions. */
module Wrappers {

  datatype Option<+T> = None | Some(value: T)

  datatype Result<+R, +E> = Success(value: R) | Failure(error: E)

  /** The end of a task action: it returns normally, or it throws `error`. */
  datatype Outcome<+E> = Pass | Fail(error: E)
}
