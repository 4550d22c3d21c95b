/** Optional values: `null`/`None` in the source, and a remote call that threw. */
module Wrappers {

  datatype Option<+T> = None | Some(value: T)

}
