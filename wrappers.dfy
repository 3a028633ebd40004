/** Failure-carrying results used in place of the Java exceptions and optionals. */
module Wrappers {

  /** The one exception the core throws on bad input: IllegalArgumentException. */
  datatype Error = IllegalArgument

  /** A value, or the exception the Java code would have thrown instead. */
  datatype Result<+T> = Ok(value: T) | Err(error: Error)

  /** `java.util.OptionalInt` and a nullable reference. */
  datatype Option<+T> = None | Some(value: T)
}
