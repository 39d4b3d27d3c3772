/** Optional values: JavaScript's null/undefined (and the falsy empty string where a name is expected). */
module Wrappers {
  datatype Option<+T> = None | Some(value: T)
}
