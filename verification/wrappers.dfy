/** Optional values: `None` stands for Python's `None`, and for a missing or NaN observation. */
module Wrappers {

  datatype Option<+T> = None | Some(value: T)
}
