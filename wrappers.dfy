/** Option and Result, used for JavaScript's null/undefined and for Java's thrown exceptions. */
module Wrappers {

  /** `None` stands for `null`/`undefined` in the frontend and `null` in the backend. */
  datatype Option<+T> = None | Some(value: T)

  /** `Failure` carries the message of the `RuntimeException` the Java service throws. */
  datatype Result<+T> = Success(value: T) | Failure(error: string)
}
