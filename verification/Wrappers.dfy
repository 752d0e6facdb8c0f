/** The shapes shared by every module of the model. */
module Wrappers {

  /** A nullable column or an optional parameter. */
  datatype Option<+T> = None | Some(value: T)

  /** The distinct members of a sequence of rows or names. */
  function Elements<T>(s: seq<T>): set<T> {
    set x | x in s
  }
}
