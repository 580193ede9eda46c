/** The exceptions the core raises or lets escape: the provider's `APIError`,
    the judge's `JudgeError`, and the Python built-in exceptions that the
    code triggers on unexpected values. */
module Errors {
  import opened Wrappers

  /** Built-in exception classes raised by the Python runtime. */
  datatype Builtin =
    | TypeError
    | KeyError
    | IndexError
    | AttributeError
    | ValueError
    | ZeroDivisionError
    | JsonDecodeError

  datatype Exception =
      /** `APIError`: the HTTP status (if any), the formatted message
          `str(e)`, and the raw response body (if any). */
    | ApiError(statusCode: Option<int>, message: string, responseBody: Option<string>)
      /** `JudgeError`, raised without arguments. */
    | JudgeError
      /** A built-in exception with the text `str(e)` would show. */
    | Raised(kind: Builtin, detail: string)

  /** `str(e)`: what `f"{e}"` shows of an exception. */
  function Text(e: Exception): string {
    match e
    case ApiError(_, message, _) => message
    case JudgeError => ""
    case Raised(_, detail) => detail
  }
}
