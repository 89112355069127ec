/** Optional values: a callback slot that may be NULL, a state a command may not name. */
module Wrappers {
  datatype Option<+T> = None | Some(value: T)
}
