/** The Python exceptions the driver can raise, as values. */
module Exceptions {

  /** `ValueError`: a byte out of range, or a buffer too small to unpack.
      `TypeError`: an object without the buffer protocol handed to the bus. */
  datatype PyError = ValueError | TypeError

  /** The outcome of a statement that either completes or raises. */
  datatype Outcome = Pass | Fail(error: PyError)

  /** The outcome of an expression that either yields a value or raises. */
  datatype Result<+T> = Ok(value: T) | Err(error: PyError) {

    predicate IsFailure() {
      Err?
    }

    function PropagateFailure<U>(): Result<U>
      requires Err?
    {
      Err(error)
    }

    function Extract(): T
      requires Ok?
    {
      value
    }
  }
}
