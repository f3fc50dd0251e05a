/** Failure-carrying results, shared by every module. */
module Results {

  datatype Option<+T> = None | Some(value: T)

  datatype Result<+T, +E> = Ok(value: T) | Err(error: E) {
    predicate IsFailure() { Err? }

    function PropagateFailure<U>(): Result<U, E>
      requires Err?
    {
      Err(error)
    }

    /** The error, if there is one. */
    function Failure(): Option<E> {
      if Err? then Some(error) else None
    }

    function Extract(): T
      requires Ok?
    {
      value
    }
  }
}
