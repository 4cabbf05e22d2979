/** The optional value used throughout the model, in place of Rust's `Option`;
    a rendering or visit that fails is `None`. */
module Wrappers {

  datatype Option<+T> = None | Some(value: T)
}
