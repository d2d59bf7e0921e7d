/** Values shared by every part of the model: an optional value, and Go's `error`. */
module Errors {

  datatype Option<+T> = None | Some(value: T)

  /** The `error` values the package creates or passes along.
      `Failure` stands for every error that comes from outside the package
      (exec, os, filepath) and for those it builds with `fmt.Errorf`;
      the two context errors are Go's sentinel values, which the package
      compares by identity. */
  datatype Error =
    | Failure(text: string)
    | DeadlineExceeded
    | Canceled
  {
    /** The string `Error()` returns for this error. */
    function Message(): string {
      match this
      case Failure(t) => t
      case DeadlineExceeded => "context deadline exceeded"
      case Canceled => "context canceled"
    }
  }

  /** The list form of an optional error, handy for appending. */
  function Errs(e: Option<Error>): (r: seq<Error>)
    ensures |r| <= 1
    ensures r == [] <==> e.None?
    ensures e.Some? ==> r[0] == e.value
  {
    match e
    case None => []
    case Some(x) => [x]
  }
}
