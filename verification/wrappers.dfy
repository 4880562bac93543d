/** Rust's `Option<T>`, the only wrapper the model needs. */
module Wrappers {
  datatype Option<+T> = None | Some(value: T)
}
