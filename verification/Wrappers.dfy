/** Types every module shares. */
module Wrappers {

  datatype Option<+T> = None | Some(value: T)

  type Byte = n: nat | n < 256 witness 0

  predicate NoRepeats<T(==)>(s: seq<T>) {
    forall i, j :: 0 <= i < j < |s| ==> s[i] != s[j]
  }
}
