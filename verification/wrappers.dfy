// The two outcome types of the model: an optional match (a regex that may
// not match, a name that may not decode) and the outcome of a scan step,
// which either carries its value or the error that stops `parse_sql`.
module Wrappers {

  datatype Option<+T> = None | Some(value: T)

  // A scan step that fails hands its error straight back to its caller;
  // the failure-compatible members below let `:-` do that propagation.
  datatype Result<+R, +E> = Ok(value: R) | Err(error: E) {
    predicate IsFailure() {
      Err?
    }

    function PropagateFailure<U>(): Result<U, E>
      requires Err?
    {
      Err(error)
    }

    function Extract(): R
      requires Ok?
    {
      value
    }
  }
}
