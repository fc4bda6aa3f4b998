/** Optional values: `None` stands for Python's `None` result or a raised exception. */
module Wrappers {

  datatype Option<+T> = None | Some(value: T)

}
