/** Option stands for a Java reference that may be null; Result and Outcome
    stand for a value or a thrown exception. */
module Wrappers {

  datatype Option<+T> = None | Some(value: T)

  datatype Result<+T, +E> = Success(value: T) | Failure(error: E)

  /** The result of a Java `void` method: it returned, or it threw `error`. */
  datatype Outcome<+E> = Pass | Fail(error: E)
}
