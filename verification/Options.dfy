/** Optional values, for lookups and evaluations that may have no result. */
module Options {
  datatype Option<+T> = None | Some(value: T)
}
