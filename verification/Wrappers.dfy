/** The one shared datatype: a value that may be absent (Python's `None`, SQL's `NULL`). */
module Wrappers {
  datatype Option<+T> = None | Some(value: T)
}
