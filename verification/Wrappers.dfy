/** Small shared pieces: an optional value, as std::optional in the source, and an element of a
    non-empty set. */
module Wrappers {
  datatype Option<+T> = None | Some(value: T)

  ghost function Element<T>(s: set<T>): (x: T)
    requires s != {}
    ensures x in s
  {
    var x :| x in s; x
  }
}
