/** Optional values, used for the parts of a URI and the headers that may be absent. */
module Wrappers {

  datatype Option<+T> = None | Some(value: T)
}
