/** Optional values: a Go pointer field that may be nil is `None`, a non-nil one `Some`. */
module Wrappers {
  datatype Option<+T> = None | Some(value: T)
}
