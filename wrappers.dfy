/** Optional values: an unset config field, a failed parse. */
module Wrappers {

  datatype Option<+T> = None | Some(value: T)
}
