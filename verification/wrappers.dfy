/** Optional values, used wherever the bridge uses a nullable pointer or std::optional. */
module Wrappers {
  datatype Option<+T> = None | Some(value: T)
}
