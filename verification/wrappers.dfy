/** Failure-compatible wrappers shared by every module of the model.
    A Python exception raised by the modelled code becomes a `Failure`
    carrying a small error value; a normal return becomes `Success`. */
module Wrappers {

  datatype Option<+T> = None | Some(value: T)

  datatype Result<+T, +E> = Success(value: T) | Failure(error: E) {

    predicate IsFailure() {
      Failure?
    }

    function PropagateFailure<U>(): Result<U, E>
      requires Failure?
    {
      Failure(error)
    }

    function Extract(): T
      requires Success?
    {
      value
    }
  }

  /** `Success(())` when the condition holds, the given error otherwise:
      the shape of a Python `assert` or `if not c: raise`. */
  function Need<E>(condition: bool, error: E): (r: Result<(), E>)
    ensures r.Success? <==> condition
  {
    if condition then Success(()) else Failure(error)
  }
}
