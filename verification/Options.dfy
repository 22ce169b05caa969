// Shared result type for operations that may have nothing to return.
module Options {
  datatype Option<+T> = None | Some(value: T)
}
