/** Option and Result, the two failure-carrying shapes the model uses in place
    of `undefined`/`null` and of thrown exceptions. */
module Wrappers {

  datatype Option<+T> = None | Some(value: T)

  /** A computation that either yields a value or fails with an error;
      usable with `:-`. */
  datatype Result<+R, +E> = Ok(value: R) | Err(error: E)
  {
    predicate IsFailure()
    {
      Err?
    }

    function PropagateFailure<U>(): Result<U, E>
      requires Err?
    {
      Err(error)
    }

    function Extract(): R
      requires Ok?
    {
      value
    }
  }
}
