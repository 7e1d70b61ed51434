/** Small value types shared by every module of the model. */
module Common {

  /** A value that may be absent (JavaScript `undefined`/`null`, or a missing key). */
  datatype Option<+T> = None | Some(value: T) {
    function GetOr(default: T): T {
      match this
      case Some(v) => v
      case None => default
    }
  }

  /** The outcome of an operation that can fail, for the source's thrown errors. */
  datatype Result<+T, +E> = Ok(value: T) | Err(error: E)

  /** An unsigned 8-bit value (Node's `Buffer` element, Arduino's `byte`). */
  type Byte = x: int | 0 <= x < 256
}
