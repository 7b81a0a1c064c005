/** What a call of the survey client ends in: a returned value, or the
    exception it raises. */
module Outcomes {
  import opened Values

  /** The exceptions the survey client raises or lets escape. */
  datatype Failure =
    /** `LimeSurveyError(method, status)`: a status the operation's table lists. */
    | LimeSurveyError(operation: string, status: string)
    /** `raise Exception(message)`. */
    | GenericException(message: string)
    /** A failed `assert` on the reply's type. */
    | AssertionFailure
    /** A dict lookup, `del` or `pop` of a missing key. */
    | KeyError(key: Value)
    /** An operation applied to a value of the wrong type. */
    | TypeError
    /** `base64.b64decode` rejected the payload. */
    | Base64Error
    /** `bytes.decode("utf-8")` rejected the decoded bytes. */
    | Utf8Error

  datatype Outcome<+T> = Returned(value: T) | Raised(failure: Failure) {

    predicate IsFailure()
    {
      Raised?
    }

    function PropagateFailure<U>(): Outcome<U>
      requires Raised?
    {
      Raised(failure)
    }

    function Extract(): T
      requires Returned?
    {
      value
    }
  }
}
