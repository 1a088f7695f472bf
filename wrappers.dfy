/** Optional values: `None` stands for a Python `None` result or for an
    operation that raises instead of returning. */
module Wrappers {
  datatype Option<+T> = None | Some(value: T)
}
