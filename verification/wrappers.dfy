/** Optional values, standing for JavaScript's `null`/`undefined` results of lookups. */
module Wrappers {

  datatype Option<+T> = None | Some(value: T)
}
