/** Optional values, used for nullable references and "first match" lookups. */
module Wrappers {
  datatype Option<+T> = None | Some(value: T)
}
