/** Optional values: JavaScript's `undefined`/`NaN` results and failed lookups. */
module Wrappers {
  datatype Option<+T> = None | Some(value: T)
}
