/** Optional values: `None` stands for JavaScript's `null`/`undefined` (an unavailable fetch, an empty storage slot). */
module Wrappers {

  datatype Option<+T> = None | Some(value: T)
}
