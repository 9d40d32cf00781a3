/** Optional values: JavaScript's null/undefined and Python's None. */
module Wrappers {

  datatype Option<T> = None | Some(value: T)
}
