/** The error kinds grease reports, the exit codes the command-line framework
    reads from them, and the small failure-carrying wrappers the rest of the
    model returns. */
module Errors {

  /** Every error a command can return. The first four are grease's own
      error structs, which carry an exit code; the last two wrap errors that
      come back from the standard library's glob and from the GitHub client,
      which grease returns unchanged. */
  datatype Error =
    | IncorrectArgumentNumber(expected: int, received: int)
    | MissingRequiredArgument(argument: string)
    | BadArgument(argument: string, reason: string)
    | BadGlobPattern(pattern: string)
    | GlobError(message: string)
    | ApiError(message: string)
  {
    /** True for the error structs grease defines itself. */
    predicate IsOwn() {
      !GlobError? && !ApiError?
    }
  }

  /** The exit code an error asks for, if its type has an `ExitCode` method.
      Errors of foreign types have none; what the process does with them is
      up to the command-line framework. */
  function ExitCode(e: Error): (code: Option<int>)
    ensures code.Some? <==> e.IsOwn()
    ensures code.Some? ==> code.value == 64
  {
    match e
    case IncorrectArgumentNumber(_, _) => Some(64)
    case MissingRequiredArgument(_) => Some(64)
    case BadArgument(_, _) => Some(64)
    case BadGlobPattern(_) => Some(64)
    case GlobError(_) => None
    case ApiError(_) => None
  }

  datatype Option<+T> = None | Some(value: T)

  /** A value, or the error that prevented computing it. */
  datatype Result<+T> = Ok(value: T) | Err(error: Error)

  /** What a Go function returning a bare `error` returns: nil, or an error. */
  datatype Outcome = Pass | Fail(error: Error)
}
