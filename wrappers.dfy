/** The optional value the host code expresses with Python's `None`. */
module Wrappers {
  datatype Option<+T> = None | Some(value: T)

  /** The elements of an option as a sequence of zero or one elements. */
  function ToSeq<T>(o: Option<T>): (s: seq<T>)
    ensures |s| <= 1
    ensures o.Some? ==> s == [o.value]
    ensures o.None? ==> s == []
  {
    if o.Some? then [o.value] else []
  }
}
