/** Optional values, for parameters that the source lets be `None`. */
module Wrappers {

  datatype Option<+T> = None | Some(value: T)

}
