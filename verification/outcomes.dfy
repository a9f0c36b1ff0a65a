/** Optional values, success-or-failure results and octets shared by the model. */
module Outcomes {

  /** A value that may be absent: JavaScript's `null`/`undefined` or Python's `None`. */
  datatype Option<+T> = None | Some(value: T)

  /** The result of an operation that may fail with an error value. */
  datatype Result<+R, +E> = Success(value: R) | Failure(error: E)

  /** An octet of a file or of a character's UTF-8 encoding. */
  type Byte = b: int | 0 <= b < 256
}
