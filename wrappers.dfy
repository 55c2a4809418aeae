/** Optional values, standing for JavaScript's `undefined` / `null` on lookups and absent fields. */
module Wrappers {

  datatype Option<+T> = None | Some(value: T)
}
