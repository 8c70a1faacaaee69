/** The optional value used throughout the project for a missing map entry. */
module Options {
  datatype Option<+T> = None | Some(value: T)
}
