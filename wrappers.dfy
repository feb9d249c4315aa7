/** Optional values, for the page's nullable recognizer handle and for
    handlers that may send nothing. */
module Wrappers {
  datatype Option<+T> = None | Some(value: T)
}
