/** Small value types shared by the front-end and back-end models. */
module Common {

  /** A value that may be absent: JavaScript's `null`/`undefined`, Python's `None`. */
  datatype Option<+T> = None | Some(value: T)

  /** One octet of an audio payload. */
  newtype byte = b: int | 0 <= b < 256
}
