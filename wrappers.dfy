/** Optional values: `None` stands for the NULL pointers the C code returns. */
module Wrappers {
  datatype Option<+T> = None | Some(value: T)
}
