/** Optional values: Django's nullable columns and Python's `None`. */
module Wrappers {

  datatype Option<+T> = None | Some(value: T)
}
