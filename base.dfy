/** Small wrapper types shared by every module of the model. */
module Base {

  /** A value that may be absent: a JavaScript property that is `undefined`. */
  datatype Option<+T> = None | Some(value: T)

  /** The outcome of an operation that can be refused. */
  datatype Result<+T, +E> = Ok(value: T) | Err(error: E)

  /** The outcome of the two storage calls every store operation makes:
      whether reading the stored collection and writing it back succeed. */
  datatype Io = Io(readOk: bool, writeOk: bool)
}
