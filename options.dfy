/** The usual Some/None wrapper, used where the scene code would throw. */
module Options {
  datatype Option<+T> = None | Some(value: T)
}
