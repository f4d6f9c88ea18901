/** Rust's `Option`, for the operations that may produce no value. */
module Optional {

  datatype Option<+T> = None | Some(value: T)
}
