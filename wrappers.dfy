/** Optional values, used wherever the source can produce "nothing" (NaN, an unparseable date, no request). */
module Wrappers {
  datatype Option<+T> = None | Some(value: T)
}
