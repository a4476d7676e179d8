/** The value a source function may or may not return. */
module Options {
  datatype Option<+T> = None | Some(value: T)
}
