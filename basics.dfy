/** Value types shared by every part of the model. */
module Basics {

  /** A value that may be absent (Go's nil pointer or "not found"). */
  datatype Option<+T> = None | Some(value: T)

  /** A value or a Go `error`, carried as its message. */
  datatype Result<+T> = Ok(value: T) | Err(msg: string)

  /** Go's `byte`. */
  type byte = x: int | 0 <= x < 256

  /** Go's `int64`. */
  type Int64 = x: int | -0x8000_0000_0000_0000 <= x < 0x8000_0000_0000_0000

  /** An instant read from `time.Now()`; the model only stores and compares it. */
  type Time = int
}
