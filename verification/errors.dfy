/** Failure-carrying values shared by every part of the fetcher: the tool's error
    enum (`BybitError`), an optional value, and a result whose failure side is
    always a `BybitError`. */
module Errors {

  /** The four ways the fetcher reports failure. `RequestError` and `JsonError`
      come from the HTTP client and the JSON decoder; their payloads are kept as
      opaque text. */
  datatype BybitError =
    | RequestError(detail: string)
    | JsonError(detail: string)
    | DateParseError(msg: string)
    | ApiError(msg: string)

  datatype Option<+T> = None | Some(value: T)

  datatype Result<+T> = Ok(value: T) | Err(error: BybitError) {
    predicate IsFailure() {
      Err?
    }

    function PropagateFailure<U>(): Result<U>
      requires Err?
    {
      Err(error)
    }

    function Extract(): T
      requires Ok?
    {
      value
    }
  }
}
