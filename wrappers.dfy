/** Optional values: `None` stands for a JavaScript value that is `undefined` or `null`,
    and, as a result, for an operation that threw. */
module Wrappers {

  datatype Option<+T> = None | Some(value: T)
}
