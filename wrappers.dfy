/** Small failure-carrying datatypes shared by the backend and the frontend model. */
module Wrappers {

  /** A value that may be absent: Python's `None`, a nullable column, an optional schema field. */
  datatype Option<T> = None | Some(value: T)

  /** Either a result or the error an HTTP route raises instead of returning. */
  datatype Result<T, E> = Success(value: T) | Failure(error: E)
}
