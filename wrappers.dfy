/** Optional values: a detector that may find no face, a capture that may not happen. */
module Wrappers {

  datatype Option<T> = None | Some(value: T)
}
