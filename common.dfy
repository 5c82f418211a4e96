/** Small shared vocabulary: optional values, results with an error side, bytes. */
module Common {

  /** Python's `None` or a present value. */
  datatype Option<+T> = None | Some(value: T)

  /** A value, or the error the Python code would raise or report instead. */
  datatype Result<+T, +E> = Ok(value: T) | Err(error: E)

  /** An unsigned 8-bit value (a pixel channel, a byte of an encoded file). */
  type Byte = x: int | 0 <= x < 256

  type Bytes = seq<Byte>

  /** The text of the IndexError Python raises for a list index past the end. */
  const IndexErrorText: string := "list index out of range"
}
