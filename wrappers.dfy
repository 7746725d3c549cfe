/** The optional value used wherever the configuration may hold no entry. */
module Wrappers {
  datatype Option<+T> = None | Some(value: T)
}
