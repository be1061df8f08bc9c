/** Option and Result wrappers used throughout the model. */
module Wrappers {

  /** A value that may be absent (Python's `None`). */
  datatype Option<+T> = None | Some(value: T) {
    /** The value, or `default` when absent. */
    function GetOr(default: T): T
    {
      match this
      case Some(v) => v
      case None => default
    }
  }

  /** Either a value or the exception that was raised instead. */
  datatype Result<+T, +E> = Success(value: T) | Failure(error: E)
}

/** The Python exceptions the modelled code raises, catches or lets through. */
module Exceptions {
  import opened Strings

  /** `ValueError(message)`, `HTTPException(status_code, detail)` and any other exception. */
  datatype Exc =
    | ValueError(message: string)
    | HttpError(status: int, detail: string)
    | OtherError(message: string)

  /** `str(e)`: the message; for an HTTPException, Starlette renders "<status>: <detail>". */
  function Text(e: Exc): string
  {
    match e
    case ValueError(m) => m
    case HttpError(s, d) => IntToString(s) + ": " + d
    case OtherError(m) => m
  }
}
