/** Stock optional value, used for the nil-able header of a table. */
module Wrappers {
  datatype Option<+T> = None | Some(value: T)
}
