/** The optional value used for GL queries that can fail and for the loader's
    parse result. */
module Wrappers {
  datatype Option<+T> = None | Some(value: T)
}
