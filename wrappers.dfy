/** Optional values, standing in for Python's `None` and for failed evaluations. */
module Wrappers {

  datatype Option<+T> = None | Some(value: T)

}
