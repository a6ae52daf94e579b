/** Optional values: an absent key, an `undefined` field or a missing lookup. */
module Wrappers {
  datatype Option<+T> = None | Some(value: T)
}
