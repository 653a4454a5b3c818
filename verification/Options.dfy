/** A value that may be missing, for the NULL pointers of the program. */
module Options {
  datatype Option<+T> = None | Some(value: T)
}
