/** Option and Result values used where the JavaScript code returns null/undefined
    or throws an Error carrying a message. */
module Wrappers {

  datatype Option<+T> = None | Some(value: T)

  /** `Err(message)` stands for a thrown `Error` whose `.message` is `message`. */
  datatype Result<+T> = Ok(value: T) | Err(message: string)
}
