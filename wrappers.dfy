/** The optional values the source writes as `T | null` or as a possibly-undefined `find` result. */
module Wrappers {
  datatype Option<+T> = None | Some(value: T)
}
