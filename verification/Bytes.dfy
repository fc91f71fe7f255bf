/** Bytes and the small value types every other module uses. */
module Bytes {
  /** A Go byte. */
  type byte = x: int | 0 <= x < 256

  /** A Go string or byte slice. */
  type bytes = seq<byte>

  datatype Option<+T> = None | Some(value: T)

  predicate Distinct<T(==)>(s: seq<T>) {
    forall i, j :: 0 <= i < j < |s| ==> s[i] != s[j]
  }

  lemma Associative<T>(a: seq<T>, b: seq<T>, c: seq<T>)
    ensures a + b + c == a + (b + c)
  {
  }
}
