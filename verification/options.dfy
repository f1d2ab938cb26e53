/** The conventional optional value, shared by every component model. */
module Options {
  datatype Option<+T> = None | Some(value: T)
}
