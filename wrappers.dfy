/** Optional values: the scripts' `null`, `undefined` and caught exceptions become `None`. */
module Wrappers {

  datatype Option<+T> = None | Some(value: T)
}
