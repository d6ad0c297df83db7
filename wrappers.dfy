/** Optional values: `None` stands for Python's `None`, and for a raised
    exception where the engine gives up on the whole computation. */
module Wrappers {

  datatype Option<+T> = None | Some(value: T)
}
