/** Option and Result, the two wrappers the rest of the model uses for
    Python's `None` and for "returns a value or raises". */
module Common {

  datatype Option<+T> = None | Some(value: T)

  /** The outcome of a Python call: the value it returns, or the exception it raises. */
  datatype Result<+T, +E> = Success(value: T) | Failure(error: E) {
    predicate IsFailure() { Failure? }

    function PropagateFailure<U>(): Result<U, E>
      requires Failure?
    {
      Failure(error)
    }

    function Extract(): T
      requires Success?
    {
      value
    }
  }
}
