/** Facts about slices that the verifier does not see on its own. */
module Slices {

  lemma PrefixSlice<T>(a: seq<T>, b: seq<T>, i: nat, j: nat)
    requires a <= b && i <= j <= |a|
    ensures a[i..j] == b[i..j]
  {
  }

  lemma MiddleSlice<T>(a: seq<T>, m: seq<T>, z: seq<T>)
    ensures (a + m + z)[|a|..|a| + |m|] == m
  {
  }

  lemma InsidePrefix<T>(a: seq<T>, m: seq<T>, b: seq<T>)
    requires a + m <= b
    ensures |a| + |m| <= |b| && b[|a|..|a| + |m|] == m
  {
  }

  lemma PrefixOf<T>(a: seq<T>, b: seq<T>)
    requires a <= b
    ensures b[..|a|] == a
  {
  }
}
