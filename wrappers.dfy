/**
 * Failure-compatible result type, and the exceptions of the prediction handler
 * that it carries in place of Python's raise.
 */
module Wrappers {

  /** The exceptions the handler's steps raise; each ends in the 500 response.
      The exception message text is not modelled, only its kind. */
  datatype Error =
    | NotANumber                      // float(None): TypeError
    | NoSuchMethod(name: string)    // None.lower(), None.upper(), None.strip(): AttributeError
    | NotAString                      // strptime(None, ...): TypeError
    | FormatMismatch(text: string)    // strptime: does not match format / unconverted data remains
    | OutOfRange(text: string)        // strptime: day, second or year out of range
    | StoreWriteFailed                // insert_one raised
    | ClassifierFailed                // model.predict or model.predict_proba raised

  datatype Option<+T> = None | Some(value: T)

  datatype Result<+T, +E> = Success(value: T) | Failure(error: E) {

    predicate IsFailure() {
      Failure?
    }

    function PropagateFailure<U>(): Result<U, E>
      requires Failure?
    {
      Failure(error)
    }

    function Extract(): T
      requires Success?
    {
      value
    }
  }
}
