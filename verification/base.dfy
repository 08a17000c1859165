/** Optional values and fallible results, shared by every module of the model. */
module Base {

  /** A value that may be missing; stands for Python's `None`. */
  datatype Option<T> = None | Some(value: T) {

    /** The value, or `default` when missing (Python's `d.get(k, default)`). */
    function GetOr(default: T): T {
      if Some? then value else default
    }
  }

  /** Either a value or an error; stands for a Python call that may raise. */
  datatype Result<T, E> = Ok(value: T) | Err(error: E) {

    predicate IsFailure() {
      Err?
    }

    function PropagateFailure<U>(): Result<U, E>
      requires Err?
    {
      Err(error)
    }

    function Extract(): T
      requires Ok?
    {
      value
    }
  }
}
