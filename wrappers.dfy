/** Optional values, standing for the `T | null` fields of the source. */
module Wrappers {

  datatype Option<+T> = None | Some(value: T)
}
