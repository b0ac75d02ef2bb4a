/** A value that may be absent, and slices of slices. */
module Wrappers {
  datatype Option<+T> = None | Some(value: T)

  /** A slice of a slice. */
  lemma Subslice<T>(s: seq<T>, a: nat, n: nat, b: nat, w: nat)
    requires a + n <= |s| && b + w <= n
    ensures s[a..a + n][b..b + w] == s[a + b..a + b + w]
  {
    var inner := s[a..a + n];
    assert forall x | 0 <= x < n :: inner[x] == s[a + x];
    var part := inner[b..b + w];
    assert forall x | 0 <= x < w :: part[x] == inner[b + x];
  }
}
