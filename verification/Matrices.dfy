/** Rows of a two-dimensional array, as values. */
module Matrices {
  ghost function Row(a: array2<int>, r: nat): (s: seq<int>)
    requires r < a.Length0
    reads a
    ensures |s| == a.Length1 && forall c :: 0 <= c < a.Length1 ==> s[c] == a[r, c]
  {
    seq(a.Length1, c requires 0 <= c < a.Length1 reads a => a[r, c])
  }
}
