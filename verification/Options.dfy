/** The usual optional value, used where the source returns None or finds no key. */
module Options {
  datatype Option<+T> = None | Some(value: T)
}
