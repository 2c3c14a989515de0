/** Error values of the particle code: Rust's `Result<_, JsValue>` and `assert!` panics. */
module Wrappers {

  /** Why an operation did not produce its value. */
  datatype Failure =
    | Panic(message: string)    // an `assert!` aborted the program
    | Message(message: string)  // an error string written in this code base
    | Browser                   // an exception thrown by the browser's WebGL implementation

  datatype Result<+T> = Ok(value: T) | Err(error: Failure)
}
