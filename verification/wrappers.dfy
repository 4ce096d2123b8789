/** Optional values: the model's stand-in for Python's `None` and for keys a
    mapping may or may not hold. */
module Wrappers {

  datatype Option<+T> = None | Some(value: T)
}
