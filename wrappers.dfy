/** Optional values: the model's stand-in for a null pointer or a missing YAML node. */
module Wrappers {

  datatype Option<+T> = None | Some(value: T)
}
