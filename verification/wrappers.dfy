/** Option and Result values shared by the other modules: an absent JavaScript
    value (`undefined`/`null`) is `None`, a thrown error is `Err`. */
module Wrappers {

  datatype Option<+T> = None | Some(value: T)

  datatype Result<+T, +E> = Ok(value: T) | Err(error: E)
}
