/** Optional values, used for the source's "not found" lookups and for
    floating-point divisions whose result is not a finite number. */
module Wrappers {

  datatype Option<+T> = None | Some(value: T)

}
