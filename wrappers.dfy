/** Failure-carrying values shared by every module of the model. */
module Wrappers {

  /** A value that may be absent (`null` / `undefined` in the application). */
  datatype Option<+T> = None | Some(value: T)

  /** The outcome of an operation that either returns or throws. */
  datatype Result<+R, +E> = Success(value: R) | Failure(error: E)

  /** What a JavaScript `throw` carries: an `Error` with its message, or any other value. */
  datatype Thrown = Error(message: string) | NonError

  /** `error instanceof Error ? error.message : fallback`, the idiom every wrapper uses. */
  function MessageOr(t: Thrown, fallback: string): string
  {
    match t
    case Error(m) => m
    case NonError => fallback
  }
}
