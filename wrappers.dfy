/** Optional values: a JSON field or header that is present or absent. */
module Wrappers {

  datatype Option<+T> = None | Some(value: T)
}
