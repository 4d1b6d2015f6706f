/** Optional values: Python's `None` and pandas' "no value" where a plain option is meant. */
module Wrappers {

  datatype Option<+T> = None | Some(value: T)
}
