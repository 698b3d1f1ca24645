/** Option, Result and Outcome: the model's stand-ins for C# null and exceptions. */
module Wrappers {

  datatype Option<+T> = None | Some(value: T) {
    function GetOr(default: T): T {
      match this
      case Some(v) => v
      case None => default
    }
  }

  /** Every exception the seeking parser can raise itself.  The first four are
      all `ArgumentException` in C#, told apart by their messages. */
  datatype Error =
    | CountBytesDisabled     // "Expected configuration.CountBytes to be set to true"
    | NotAStreamReader       // "Provided reader is not a StreamReader"
    | StreamCannotSeek       // "Underlying stream doesn't support seeking"
    | NegativeStreamOffset   // "Underlying stream reports offset < 0"
    | ObjectDisposed         // raised by the base parser's disposed check

  /** A constructor or method that either returns a value or throws. */
  datatype Result<+T> = Success(value: T) | Failure(error: Error)

  /** A void method that either completes or throws. */
  datatype Outcome = Pass | Fail(error: Error)
}
