/** Optional values: `None` stands for Python's `None` and for a raised
    exception that the caller catches (QueueFull, QueueEmpty, ValueError). */
module Wrappers {

  datatype Option<+T> = None | Some(value: T)
}
