/** The usual optional value: `None` stands for a stored `null` or a missing field. */
module Wrappers {
  datatype Option<+T> = None | Some(value: T)
}
