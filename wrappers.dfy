/** The optional value the estimation pipeline uses for "found / not found" and "valid / invalid". */
module Wrappers {
  datatype Option<+T> = None | Some(value: T)
}
