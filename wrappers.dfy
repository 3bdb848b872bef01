/** The optional value and the value-or-error shapes used by the Go code's
    `(T, error)` returns, nil results and `, ok` lookups. */
module Wrappers {

  datatype Option<+T> = None | Some(value: T)

  /** A Go `(T, error)` pair where exactly one side is meaningful. */
  datatype Result<+T> = Success(value: T) | Failure(error: string)
}
