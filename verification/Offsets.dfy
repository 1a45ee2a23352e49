/** Sorting the base offsets read from the names of a directory's files. */
module Offsets {

  ghost predicate Increasing(s: seq<nat>) {
    forall i, j | 0 <= i < j < |s| :: s[i] < s[j]
  }

  ghost predicate Distinct(s: seq<nat>) {
    forall i, j | 0 <= i < j < |s| :: s[i] != s[j]
  }

  function Insert(x: nat, s: seq<nat>): seq<nat> {
    if s == [] || x <= s[0] then [x] + s else [s[0]] + Insert(x, s[1..])
  }

  function Sort(s: seq<nat>): seq<nat> {
    if s == [] then [] else Insert(s[0], Sort(s[1..]))
  }

  lemma {:induction false} InsertSorts(x: nat, s: seq<nat>)
    requires Increasing(s) && x !in s
    ensures Increasing(Insert(x, s)) && |Insert(x, s)| == |s| + 1
    ensures forall y :: y in Insert(x, s) <==> y == x || y in s
  {
    if s != [] && x > s[0] {
      forall y | y in s[1..] ensures y in s && y > s[0] { RestOf(s, y); }
      InsertSorts(x, s[1..]);
      hide Increasing;
      FirstThenRest(s[0], Insert(x, s[1..]));
      assert s == [s[0]] + s[1..];
    } else {
      forall y | y in s ensures x < y {
        var k :| 0 <= k < |s| && s[k] == y;
      }
      FirstThenRest(x, s);
    }
  }

  lemma FirstThenRest(x: nat, s: seq<nat>)
    requires Increasing(s) && forall y | y in s :: x < y
    ensures Increasing([x] + s)
  {
    forall i, j | 0 <= i < j < |[x] + s| ensures ([x] + s)[i] < ([x] + s)[j] {
      assert ([x] + s)[j] in s;
    }
  }

  lemma {:induction false} SortSorts(s: seq<nat>)
    requires Distinct(s)
    ensures Increasing(Sort(s)) && |Sort(s)| == |s|
    ensures forall y :: y in Sort(s) <==> y in s
  {
    if s != [] {
      SortSorts(s[1..]);
      InsertSorts(s[0], Sort(s[1..]));
    }
  }

  /** An increasing sequence is determined by its elements. */
  lemma {:induction false} IncreasingUnique(a: seq<nat>, b: seq<nat>)
    requires Increasing(a) && Increasing(b)
    requires forall y :: y in a <==> y in b
    ensures a == b
    decreases |a|
  {
    HasFirst(a);
    HasFirst(b);
    if a != [] {
      FirstIsLeast(a, b);
      FirstIsLeast(b, a);
      forall y ensures y in a[1..] <==> y in b[1..] {
        RestOf(a, y);
        RestOf(b, y);
      }
      IncreasingUnique(a[1..], b[1..]);
      assert a == [a[0]] + a[1..] && b == [b[0]] + b[1..];
    }
  }

  lemma HasFirst(s: seq<nat>)
    ensures s == [] || s[0] in s
  {
  }

  lemma FirstIsLeast(a: seq<nat>, b: seq<nat>)
    requires a != [] && b != [] && Increasing(a) && b[0] in a
    ensures a[0] <= b[0]
  {
  }

  lemma RestOf(a: seq<nat>, y: nat)
    requires a != [] && Increasing(a)
    ensures y in a[1..] <==> y in a && y != a[0]
  {
  }
}
