/** The one shared helper: an optional value. */
module Options {
  datatype Option<+T> = None | Some(value: T)
}
