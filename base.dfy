/** Small value types shared by every module of the model. */
module Base {

  /** A Go value that may be nil. */
  datatype Option<+T> = None | Some(value: T)

  /** A Go `error` that may be nil; `Fail` carries the error value. */
  datatype Outcome<+E> = Pass | Fail(error: E)

  /** A non-nil Go `error`, reduced to the text its `Error()` method returns. */
  datatype Error = Error(text: string)

  /** One octet of a frame payload or of a digest. */
  newtype byte = x: int | 0 <= x < 256
}
