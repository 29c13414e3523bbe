/** Optional values, used wherever the source returns null or reports "not found". */
module Wrappers {

  datatype Option<+T> = None | Some(value: T)
}
