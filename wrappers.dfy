/** Optional values, used for "the foreign call that was issued, if any". */
module Wrappers {
  datatype Option<+T> = None | Some(value: T)
}
