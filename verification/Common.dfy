/** Optional values, standing in for JavaScript's `null`. */
module Common {
  datatype Option<+T> = None | Some(value: T)
}
