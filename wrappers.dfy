/** Optional values: a missing field, an absent JSON key, a regex that does not match. */
module Wrappers {
  datatype Option<+T> = None | Some(value: T)
}
