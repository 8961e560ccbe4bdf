/** Rust's Option, used for "no hit" results. */
module Options {
  datatype Option<+T> = None | Some(value: T)
}
