/** Python's optional values (None or a value) and lookups that may fail. */
module Wrappers {
  datatype Option<+T> = None | Some(value: T)
}
