/** Nullable references and exception-or-value outcomes of the C# code. */
module Wrappers {

  /** A C# reference that may be null: `None` is null. */
  datatype Option<+T> = None | Some(value: T)

  /** The outcome of an operation that may throw: `Failure` is an escaping exception. */
  datatype Result<+T> = Success(value: T) | Failure(error: string)
}
