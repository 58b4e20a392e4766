/** The optional value shared by the collector modules. */
module Wrappers {

  /** A value that may be absent; Go's "no match" and "decode failed" outcomes become None. */
  datatype Option<+T> = None | Some(value: T)
}
