/** Values standing for C#'s nullable references and thrown .NET exceptions. */
module Wrappers {

  /** A nullable reference: `None` is C#'s `null`. */
  datatype Option<+T> = None | Some(value: T)

  /** The kinds of .NET exception the modelled code throws. */
  datatype Failure =
    | ArgumentNull       // ArgumentNullException
    | InvalidArgument    // ArgumentException
    | InvalidOperation   // InvalidOperationException
    | NullReference      // NullReferenceException (a dereference of null)

  /** The value a member returns, or the exception it throws instead. */
  datatype Result<+T> = Ok(value: T) | Err(error: Failure)

  /** What a `void` member does: complete normally, or throw. */
  datatype Outcome = Pass | Fail(error: Failure)
}
