/** Optional values, used for parses and look-ups that can fail. */
module Wrappers {

  datatype Option<+T> = None | Some(value: T)
}
