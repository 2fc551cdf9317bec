/** Python's `None`-or-value, used for optional record fields and for `validate`'s result. */
module Wrappers {

  datatype Option<+T> = None | Some(value: T)
}
