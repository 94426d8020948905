/** Failure-compatible wrappers shared by the whole model: an optional value
    (JavaScript's `undefined` versus a present value) and a result that is
    either a value or an error. Both work with Dafny's `:-` operator. */
module Outcomes {

  datatype Option<+T> = None | Some(value: T)

  datatype Result<+T, +E> = Ok(value: T) | Err(error: E) {

    predicate IsFailure() {
      Err?
    }

    function PropagateFailure<U>(): Result<U, E>
      requires Err?
    {
      Err(error)
    }

    function Extract(): T
      requires Ok?
    {
      value
    }
  }
}
