/** Values shared by the grading modules: Python's None-or-value and the
    exceptions the grading code can raise. */
module Outcomes {

  /** A field that may still be unset (`None` in Python). */
  datatype Option<+T> = None | Some(value: T)

  /** The Python exceptions that the grading code can raise. */
  datatype PyError =
    | TypeError       // `score += weight` with a weight that is not a number
    | AttributeError  // reading `.marking_scheme` from something that has none

  /** The outcome of evaluating Python code: a value, or an exception that
      propagates to the caller. */
  datatype Outcome<+T> = Ok(value: T) | Raised(error: PyError)
}
