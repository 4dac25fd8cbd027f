/** Optional values: `None` stands for a nil pointer. */
module Wrappers {

  datatype Option<+T> = None | Some(value: T)
}
