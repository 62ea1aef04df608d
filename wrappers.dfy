/** Optional values, used where the source falls back to a default or finds nothing. */
module Wrappers {
  datatype Option<+T> = None | Some(value: T)
}
