// Nullable pointers of the C program.
module Options {
  datatype Option<+T> = None | Some(value: T)
}
