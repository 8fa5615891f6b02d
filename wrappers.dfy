/** Optional values, standing for Java's `Optional` and for nullable references. */
module Wrappers {

  datatype Option<+T> = None | Some(value: T)
}
