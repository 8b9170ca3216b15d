// What the other modules share.

module Wrappers {

  // A value that may be absent: Python's None, or a key that is not there.
  datatype Option<T> = None | Some(value: T)

  // No element is there twice.
  ghost predicate Distinct<T>(s: seq<T>) {
    forall i, j :: 0 <= i < j < |s| ==> s[i] != s[j]
  }
}
