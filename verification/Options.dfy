/** The one optional value used throughout: a nil-able pointer, or an absent entry. */
module Options {
  datatype Option<+T> = None | Some(value: T)
}
