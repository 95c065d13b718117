/** The optional value used throughout the model: Rust's `Option`, and the
    `null`/`undefined`-or-value results of the front end. */
module Wrappers {

  datatype Option<+T> = None | Some(value: T)
}
