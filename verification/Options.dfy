/** The optional value shared by every module: the counterpart of Rust's `Option`. */
module Options {
  datatype Option<+T> = None | Some(value: T)
}
