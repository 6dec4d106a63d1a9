/** Failure-compatible wrappers used by every stage of the prediction
    pipeline: an optional value, and a result that either carries a value or
    the error that stopped the request. Both can be used with `:-`. */
module Results {

  datatype Option<+T> = None | Some(value: T) {

    /** The value, or the given error when there is none. */
    function ToResult<E>(error: E): Result<T, E> {
      match this
      case Some(v) => Ok(v)
      case None => Err(error)
    }
  }

  datatype Result<+T, +E> = Ok(value: T) | Err(error: E) {

    predicate IsFailure() {
      Err?
    }

    function PropagateFailure<U>(): Result<U, E>
      requires Err?
    {
      Err(error)
    }

    function Extract(): T
      requires Ok?
    {
      value
    }
  }
}
