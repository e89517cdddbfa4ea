/** Option, and the outcome of a Python call that may raise. */
module Wrappers {

  datatype Option<+T> = None | Some(value: T)

  /** A value, or the text (`str(e)`) of the exception the call raised instead.
      Failure-compatible, so `var x :- call; ...` propagates the exception. */
  datatype Outcome<+T> = Ok(value: T) | Raised(message: string) {

    predicate IsFailure() {
      Raised?
    }

    function PropagateFailure<U>(): Outcome<U>
      requires Raised?
    {
      Raised(message)
    }

    function Extract(): T
      requires Ok?
    {
      value
    }
  }
}
