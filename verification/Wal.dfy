/** wal/log/wal.go: the segmented log. */
module Wal {
  import opened RaftTypes
  import opened BigEndian
  import opened Records
  import opened WalFiles
  import opened WalSegment
  import opened Offsets

  // ---------------------------------------------------------------- a directory

  /** The closed files of a WAL, by the base offset in their names. */
  type Directory = map<nat, Files>

  function NextOf(d: Directory, b: nat): nat
    requires b in d
  {
    b + |d[b].index| / INDEX_ENTRY
  }

  /** The segment that starts at b holds the records of the history from there up to where its index ends. */
  ghost predicate SegmentClean(crc: Checksum, d: Directory, history: seq<Record>, b: nat)
    requires b in d
  {
    var n := NextOf(d, b);
    && n <= |history|
    && Fit(history[b..n])
    && d[b] == FilesOf(crc, history[b..n])
  }

  /** Every segment is clean, none runs into the next, and the last ends where the history does. */
  ghost predicate Clean(crc: Checksum, d: Directory, history: seq<Record>) {
    && (forall b | b in d :: SegmentClean(crc, d, history, b))
    && (forall a, b | a in d && b in d && a < b :: NextOf(d, a) <= b)
    && (if |d| == 0 then history == []
        else exists last :: last in d && NextOf(d, last) == |history| && forall b | b in d :: b <= last)
  }

  lemma CleanSegments(crc: Checksum, d: Directory, h: seq<Record>, b: nat)
    requires Clean(crc, d, h) && b in d
    ensures b <= NextOf(d, b) <= |h| && Fit(h[b..NextOf(d, b)]) && d[b] == FilesOf(crc, h[b..NextOf(d, b)])
    ensures forall a | a in d && a < b :: NextOf(d, a) <= b
  {
  }

  /** The last base offset of a clean directory belongs to the segment that ends the history. */
  lemma LastSegment(crc: Checksum, d: Directory, h: seq<Record>, bases: seq<nat>)
    requires Clean(crc, d, h) && Increasing(bases) && forall b :: b in bases <==> b in d
    ensures if bases == [] then h == [] else bases[|bases| - 1] in d && NextOf(d, bases[|bases| - 1]) == |h|
  {
    hide SegmentClean, NextOf;
    if bases == [] {
      assert d.Keys == {};
    } else {
      assert bases[|bases| - 1] in d;
      var last :| last in d && NextOf(d, last) == |h| && forall b | b in d :: b <= last;
      var i :| 0 <= i < |bases| && bases[i] == last;
    }
  }

  ghost predicate InDirectory(d: Directory, k: nat) {
    exists b | b in d :: b <= k < NextOf(d, b)
  }

  /** The files f hold the history from b up to n. */
  ghost predicate Piece(crc: Checksum, h: seq<Record>, b: nat, n: nat, f: Files) {
    b <= n <= |h| && Fit(h[b..n]) && f == FilesOf(crc, h[b..n])
  }

  /** The directory holds one segment for each of these extents, and no other. */
  ghost predicate DirectoryImage(crc: Checksum, h: seq<Record>, bases: seq<nat>, ends: seq<nat>, d: Directory) {
    && |bases| == |ends| && (forall b :: b in d <==> b in bases)
    && forall j | 0 <= j < |bases| :: bases[j] in d && Piece(crc, h, bases[j], ends[j], d[bases[j]])
  }

  /** Extents in order, none running into the next, the last one ending at n. */
  ghost predicate Extents(bases: seq<nat>, ends: seq<nat>, n: nat) {
    && |bases| == |ends| > 0 && Increasing(bases) && ends[|ends| - 1] == n
    && forall i, j | 0 <= i < j < |bases| :: ends[i] <= bases[j]
  }

  /** What a clean close leaves behind is a clean directory, and the sizes of its indexes say where its segments end. */
  lemma ImageClean(crc: Checksum, h: seq<Record>, bases: seq<nat>, ends: seq<nat>, d: Directory)
    requires Extents(bases, ends, |h|) && DirectoryImage(crc, h, bases, ends, d)
    ensures Clean(crc, d, h)
    ensures forall b :: b in d <==> b in bases
    ensures forall j | 0 <= j < |bases| :: bases[j] in d && NextOf(d, bases[j]) == ends[j]
  {
    hide FilesOf, Fit;
    forall j | 0 <= j < |bases| ensures NextOf(d, bases[j]) == ends[j] && SegmentClean(crc, d, h, bases[j]) {
      PieceClean(crc, h, bases[j], ends[j], d);
    }
    hide Piece, SegmentClean, NextOf;
    ExtentsOrdered(bases, ends, |h|, d);
    hide Extents;
  }

  lemma ExtentsOrdered(bases: seq<nat>, ends: seq<nat>, n: nat, d: Directory)
    requires Extents(bases, ends, n) && forall b :: b in d <==> b in bases
    requires forall j | 0 <= j < |bases| :: bases[j] in d && NextOf(d, bases[j]) == ends[j]
    ensures var last := bases[|bases| - 1]; last in d && NextOf(d, last) == n && forall b | b in d :: b <= last
    ensures forall a, b | a in d && b in d && a < b :: NextOf(d, a) <= b
  {
    hide NextOf;
    var last := |bases| - 1;
    forall b | b in d ensures b <= bases[last] {
      var j :| 0 <= j < |bases| && bases[j] == b;
    }
    forall a, b | a in d && b in d && a < b ensures NextOf(d, a) <= b {
      var i :| 0 <= i < |bases| && bases[i] == a;
      var j :| 0 <= j < |bases| && bases[j] == b;
      assert i < j;
    }
  }

  ghost predicate ExtentCovers(bases: seq<nat>, ends: seq<nat>, k: nat)
    requires |bases| == |ends|
  {
    exists j | 0 <= j < |bases| :: bases[j] <= k < ends[j]
  }

  lemma ImageCovers(bases: seq<nat>, ends: seq<nat>, d: Directory)
    requires |bases| == |ends| && forall b :: b in d <==> b in bases
    requires forall j | 0 <= j < |bases| :: bases[j] in d && NextOf(d, bases[j]) == ends[j]
    ensures forall k: nat :: InDirectory(d, k) <==> ExtentCovers(bases, ends, k)
  {
  }

  lemma ImageStart(crc: Checksum, h: seq<Record>)
    ensures DirectoryImage(crc, h, [], [], map[])
  {
  }

  lemma ImageMore(crc: Checksum, h: seq<Record>, bases: seq<nat>, ends: seq<nat>, i: nat, d: Directory, f: Files)
    requires Extents(bases, ends, |h|) && i < |bases|
    requires DirectoryImage(crc, h, bases[..i], ends[..i], d) && Piece(crc, h, bases[i], ends[i], f)
    ensures DirectoryImage(crc, h, bases[..i + 1], ends[..i + 1], d[bases[i] := f])
  {
    hide Piece;
    assert bases[..i + 1] == bases[..i] + [bases[i]] && ends[..i + 1] == ends[..i] + [ends[i]];
  }

  lemma PieceClean(crc: Checksum, h: seq<Record>, b: nat, n: nat, d: Directory)
    requires b in d && Piece(crc, h, b, n, d[b])
    ensures NextOf(d, b) == n && SegmentClean(crc, d, h, b)
  {
  }

  /** However the names of a directory are listed, sorting them gives the order of the segments. */
  lemma ListingSorts(bases: seq<nat>, names: seq<nat>)
    requires Increasing(bases) && Distinct(names) && forall b :: b in names <==> b in bases
    ensures Sort(names) == bases
  {
    SortSorts(names);
    IncreasingUnique(Sort(names), bases);
  }

  // ---------------------------------------------------------------- its segments, open

  /** The segment holds the part of the history that it covers. */
  ghost predicate Holds(crc: Checksum, history: seq<Record>, s: Segment)
    reads s.Footprint()
  {
    && s.Valid() && s.store.crc == crc
    && s.baseOff <= s.nextOff <= |history| && s.records == history[s.baseOff..s.nextOff]
  }

  /** The segments share nothing, and the second takes over where the first ends or later. */
  ghost predicate Before(s: Segment, t: Segment)
    reads s
  {
    s.Footprint() !! t.Footprint() && s.baseOff < t.baseOff && s.nextOff <= t.baseOff
  }

  ghost function BasesOf(ss: seq<Segment>): seq<nat> {
    seq(|ss|, i requires 0 <= i < |ss| => ss[i].baseOff)
  }

  ghost function EndsOf(ss: seq<Segment>): seq<nat>
    reads ss
  {
    seq(|ss|, i requires 0 <= i < |ss| reads ss => ss[i].nextOff)
  }

  ghost predicate AnyCovers(ss: seq<Segment>, k: nat)
    reads ss
  {
    exists s | s in ss :: s.baseOff <= k < s.nextOff
  }

  lemma OneMoreCovers(ss: seq<Segment>, s: Segment)
    ensures forall k: nat :: AnyCovers(ss + [s], k) <==> AnyCovers(ss, k) || s.baseOff <= k < s.nextOff
  {
  }

  /** The segments opened on a directory cover what the directory holds. */
  lemma OpenedCover(crc: Checksum, d: Directory, h: seq<Record>, bases: seq<nat>, ss: seq<Segment>)
    requires (forall b :: b in bases <==> b in d) && |ss| == |bases|
    requires forall j | 0 <= j < |ss| :: Opened(crc, d, h, bases[j], ss[j])
    ensures forall s | s in ss :: Holds(crc, h, s)
    ensures BasesOf(ss) == bases && |EndsOf(ss)| == |bases| && forall j | 0 <= j < |bases| :: EndsOf(ss)[j] == NextOf(d, bases[j])
    ensures bases != [] ==> ss[|ss| - 1].nextOff == NextOf(d, bases[|bases| - 1])
    ensures forall k: nat :: AnyCovers(ss, k) <==> InDirectory(d, k)
  {
    hide Holds, NextOf;
    forall k: nat ensures AnyCovers(ss, k) <==> InDirectory(d, k) {
      if InDirectory(d, k) {
        var b :| b in d && b <= k < NextOf(d, b);
        var j :| 0 <= j < |bases| && bases[j] == b;
        assert ss[j].baseOff <= k < ss[j].nextOff;
      }
    }
  }

  lemma OpenedBefore(crc: Checksum, d: Directory, h: seq<Record>, b: nat, s: Segment, c: nat, t: Segment)
    requires Clean(crc, d, h) && Opened(crc, d, h, b, s) && Opened(crc, d, h, c, t) && b < c
    requires s.Footprint() !! t.Footprint()
    ensures Before(s, t)
  {
    hide Segment.Valid;
  }

  lemma HoldsNothing(crc: Checksum, history: seq<Record>, s: Segment)
    requires s.Valid() && s.store.crc == crc && s.records == [] && s.baseOff == s.nextOff == |history|
    ensures Holds(crc, history, s)
  {
  }

  lemma OneMore(ss: seq<Segment>, s: Segment)
    requires InOrder(ss) && forall t | t in ss :: Before(t, s)
    ensures InOrder(ss + [s])
  {
  }

  /** Those of ss that are not in drop, and any copy of keep, in the same order. */
  function Kept(ss: seq<Segment>, keep: Segment, drop: set<Segment>): seq<Segment> {
    if ss == [] then []
    else
      var s := ss[|ss| - 1];
      Kept(ss[..|ss| - 1], keep, drop) + if s == keep || s !in drop then [s] else []
  }

  lemma {:induction false} KeptMembers(ss: seq<Segment>, keep: Segment, drop: set<Segment>)
    ensures forall s | s in Kept(ss, keep, drop) :: s in ss && (s == keep || s !in drop)
    ensures forall s | s in ss && (s == keep || s !in drop) :: s in Kept(ss, keep, drop)
  {
    if ss != [] {
      KeptMembers(ss[..|ss| - 1], keep, drop);
      assert ss == ss[..|ss| - 1] + [ss[|ss| - 1]];
    }
  }

  lemma {:induction false} KeptInOrder(ss: seq<Segment>, keep: Segment, drop: set<Segment>)
    requires InOrder(ss)
    ensures InOrder(Kept(ss, keep, drop))
  {
    hide Before;
    if ss != [] {
      var front, s := ss[..|ss| - 1], ss[|ss| - 1];
      KeptInOrder(front, keep, drop);
      KeptMembers(front, keep, drop);
      forall t | t in front ensures Before(t, s) {
        var i :| 0 <= i < |front| && front[i] == t;
        assert Before(ss[i], ss[|ss| - 1]);
      }
      OneMore(Kept(front, keep, drop), s);
    }
  }

  /** The base offsets in the names of the segments' files. */
  function BasesIn(ss: seq<Segment>): set<nat> {
    set s | s in ss :: s.baseOff
  }

  /** The base offsets of those that Kept leaves out. */
  function Gone(ss: seq<Segment>, keep: Segment, drop: set<Segment>): set<nat> {
    set s | s in ss && s != keep && s in drop :: s.baseOff
  }

  lemma NoneGone(keep: Segment, drop: set<Segment>)
    ensures Gone([], keep, drop) == {} && Kept([], keep, drop) == []
  {
  }

  lemma OneKept(ss: seq<Segment>, s: Segment, keep: Segment, drop: set<Segment>)
    ensures Kept(ss + [s], keep, drop) == Kept(ss, keep, drop) + if s == keep || s !in drop then [s] else []
  {
    assert (ss + [s])[..|ss|] == ss;
  }

  lemma OneGone(ss: seq<Segment>, s: Segment, keep: Segment, drop: set<Segment>)
    ensures Gone(ss + [s], keep, drop) == Gone(ss, keep, drop) + if s == keep || s !in drop then {} else {s.baseOff}
  {
  }

  lemma KeptLast(ss: seq<Segment>, keep: Segment, drop: set<Segment>)
    requires ss != [] && ss[|ss| - 1] == keep
    ensures var kept := Kept(ss, keep, drop); kept != [] && kept[|kept| - 1] == keep
  {
  }

  lemma KeptBases(ss: seq<Segment>, keep: Segment, drop: set<Segment>)
    requires InOrder(ss)
    ensures BasesIn(Kept(ss, keep, drop)) == BasesIn(ss) - Gone(ss, keep, drop)
  {
    KeptMembers(ss, keep, drop);
    forall s, t | s in ss && t in ss && s != t ensures s.baseOff != t.baseOff {
      var i :| 0 <= i < |ss| && ss[i] == s;
      var j :| 0 <= j < |ss| && ss[j] == t;
      assert if i < j then Before(s, t) else Before(t, s);
    }
  }

  lemma BasesAre(ss: seq<Segment>)
    ensures forall b :: b in BasesIn(ss) <==> b in BasesOf(ss)
  {
    forall b ensures b in BasesIn(ss) <==> b in BasesOf(ss) {
      if b in BasesIn(ss) {
        var s :| s in ss && s.baseOff == b;
        var i :| 0 <= i < |ss| && ss[i] == s;
        assert BasesOf(ss)[i] == b;
      }
      if b in BasesOf(ss) {
        var i :| 0 <= i < |ss| && BasesOf(ss)[i] == b;
        assert ss[i] in ss;
      }
    }
  }

  lemma NamesAre(ss: seq<Segment>, names: seq<nat>, d: Directory)
    requires forall b :: b in names <==> b in d
    requires forall b :: b in BasesOf(ss) <==> b in names
    ensures BasesIn(ss) == d.Keys
  {
    hide BasesIn, BasesOf;
    BasesAre(ss);
  }

  lemma SameEnds(d: Directory, bases: seq<nat>, a: seq<nat>, b: seq<nat>)
    requires |a| == |b| == |bases| && forall j | 0 <= j < |bases| :: bases[j] in d && a[j] == NextOf(d, bases[j]) == b[j]
    ensures a == b
  {
  }

  lemma NothingCovered()
    ensures forall k: nat :: !AnyCovers([], k)
  {
  }

  lemma HoldsMore(crc: Checksum, history: seq<Record>, s: Segment, r: Record)
    requires Holds(crc, history, s)
    ensures Holds(crc, history + [r], s)
  {
  }

  ghost predicate InOrder(ss: seq<Segment>)
    reads ss
  {
    forall i, j | 0 <= i < j < |ss| :: Before(ss[i], ss[j])
  }

  ghost predicate Opened(crc: Checksum, d: Directory, h: seq<Record>, b: nat, s: Segment)
    reads s.Footprint()
  {
    b in d && Holds(crc, h, s) && s.baseOff == b && s.nextOff == NextOf(d, b)
  }

  lemma EmptySegment(crc: Checksum)
    ensures Fit([]) && FilesOf(crc, []) == Files([], [])
  {
  }

  // ---------------------------------------------------------------- the log

  /**
   `history` is every record ever appended; the segments hold a part of it. `onDisk` are the base offsets in the names of
   the files that the directory has.
   */
  class SegmentedLog {
    const crc: Checksum
    var active: Segment
    var segments: seq<Segment>
    var onDisk: set<nat>
    ghost var history: seq<Record>
    ghost var Repr: set<object>

    ghost function Bases(): (b: seq<nat>)
      reads this
    {
      BasesOf(segments)
    }

    ghost function Ends(): (e: seq<nat>)
      reads this, segments
    {
      EndsOf(segments)
    }

    ghost predicate Valid()
      reads this, Repr
    {
      && active in segments && active == segments[|segments| - 1]
      && this in Repr
      && (forall s | s in segments :: s in Repr && s.Footprint() <= Repr && this !in s.Footprint())
      && (forall s | s in segments :: Holds(crc, history, s))
      && InOrder(segments) && onDisk == BasesIn(segments)
      && active.nextOff == |history|
    }

    ghost predicate Covers(k: nat)
      reads this, segments
    {
      AnyCovers(segments, k)
    }

    /** Work inside one segment disturbs no other. */
    twostate lemma OthersKept(s: Segment)
      requires old(Valid()) && s in old(segments)
      requires s.nextOff == old(s.nextOff) || s == old(active)
      requires forall o | o in old(Repr) && o != this && o !in s.Footprint() :: unchanged(o)
      ensures forall t | t in old(segments) && t != s :: t.nextOff == old(t.nextOff) && Holds(crc, old(history), t)
      ensures InOrder(old(segments))
    {
      hide Holds;
      forall t | t in old(segments) && t != s ensures t.nextOff == old(t.nextOff) && Holds(crc, old(history), t) {
        var i :| 0 <= i < |old(segments)| && old(segments)[i] == s;
        var j :| 0 <= j < |old(segments)| && old(segments)[j] == t;
        assert if i < j then old(Before(s, t)) else old(Before(t, s));
      }
      forall i, j | 0 <= i < j < |old(segments)| ensures Before(old(segments[i]), old(segments[j])) {
        assert old(Before(segments[i], segments[j]));
        assert j < |old(segments)| - 1 ==> old(Before(segments[i], active));
      }
    }

    twostate lemma Undisturbed(s: Segment)
      requires old(Valid()) && old(s in segments)
      requires unchanged(this) && s.nextOff == old(s.nextOff) && Holds(crc, history, s)
      requires forall o | o in Repr && o != this && o !in s.Footprint() :: unchanged(o)
      ensures Valid() && Ends() == old(Ends())
    {
      hide Holds, InOrder;
      OthersKept(s);
    }

    /** No other segment reaches beyond the active one, so the name that rotation picks is free. */
    lemma NoneLater(t: Segment)
      requires Valid() && active.records != [] && t in segments
      ensures t.baseOff < active.nextOff && t.nextOff <= active.nextOff
    {
    }

    /** newWAL on an empty directory or on one that holds the closed files of a WAL, listed in any order. */
    constructor (crc: Checksum, d: Directory, names: seq<nat>, ghost h: seq<Record>)
      requires Clean(crc, d, h)
      requires Distinct(names) && forall b :: b in names <==> b in d
      ensures Valid() && fresh(Repr) && this.crc == crc && history == h
      ensures Bases() == if names == [] then [0] else Sort(names)
      ensures onDisk == if names == [] then {0} else d.Keys
      ensures |Bases()| == |Ends()| && forall j | 0 <= j < |Bases()| && Bases()[j] in d :: Ends()[j] == NextOf(d, Bases()[j])
      ensures forall k: nat :: Covers(k) <==> InDirectory(d, k)
    {
      hide Clean, Holds, Sort, InOrder, InDirectory, BasesOf, EndsOf, AnyCovers, NextOf, Distinct, BasesIn;
      this.crc := crc;
      var segs, repr := OpenDirectory(crc, d, names, h);
      Repr := {this} + repr;
      segments := segs;
      onDisk := if names == [] then {0} else d.Keys;
      active := segs[|segs| - 1];
      history := h;
    }

    static method OpenDirectory(crc: Checksum, d: Directory, names: seq<nat>, ghost h: seq<Record>)
        returns (segs: seq<Segment>, ghost repr: set<object>)
      requires Clean(crc, d, h)
      requires Distinct(names) && forall b :: b in names <==> b in d
      ensures InOrder(segs) && BasesOf(segs) == if names == [] then [0] else Sort(names)
      ensures BasesIn(segs) == if names == [] then {0} else d.Keys
      ensures fresh(repr) && forall s | s in segs :: s in repr && s.Footprint() <= repr && Holds(crc, h, s)
      ensures segs != [] && segs[|segs| - 1].nextOff == |h|
      ensures var b, e := BasesOf(segs), EndsOf(segs);
              |b| == |e| && forall j | 0 <= j < |b| && b[j] in d :: e[j] == NextOf(d, b[j])
      ensures forall k: nat :: AnyCovers(segs, k) <==> InDirectory(d, k)
    {
      hide Segment.Valid, Clean, Holds, Sort, NextOf, InDirectory, AnyCovers, BasesIn, BasesOf, EndsOf,
        Opened, InOrder, Distinct, Increasing;
      var bases := Sort(names);
      SortSorts(names);
      LastSegment(crc, d, h, bases);
      segs, repr := OpenSegments(crc, d, bases, h);
      OpenedCover(crc, d, h, bases, segs);
      if |segs| == 0 {
        NothingCovered();
        segs, repr := OpenFirst(crc);
      } else {
        NamesAre(segs, names, d);
      }
    }

    /** The segment of a new WAL. */
    static method OpenFirst(crc: Checksum) returns (segs: seq<Segment>, ghost repr: set<object>)
      ensures InOrder(segs) && BasesOf(segs) == [0] && EndsOf(segs) == [0] && BasesIn(segs) == {0}
      ensures fresh(repr) && forall s | s in segs :: s in repr && s.Footprint() <= repr && Holds(crc, [], s)
      ensures |segs| == 1 && segs[0].nextOff == 0 && forall k: nat :: !AnyCovers(segs, k)
    {
      hide Fit, Segment.Valid, Holds;
      EmptySegment(crc);
      var s := new Segment(0, Files([], []), crc, []);
      HoldsNothing(crc, [], s);
      segs, repr := [s], s.Footprint();
    }

    static method OpenSegments(crc: Checksum, d: Directory, bases: seq<nat>, ghost h: seq<Record>) returns (segs: seq<Segment>, ghost repr: set<object>)
      requires Clean(crc, d, h) && Increasing(bases) && forall b :: b in bases <==> b in d
      ensures |segs| == |bases| && InOrder(segs)
      ensures fresh(repr) && forall s | s in segs :: s in repr && s.Footprint() <= repr
      ensures forall j | 0 <= j < |segs| :: Opened(crc, d, h, bases[j], segs[j])
    {
      hide Segment.Valid, Clean, Holds, Opened, Before;
      segs, repr := [], {};
      var i := 0;
      while i < |bases|
        invariant i == |segs| <= |bases|
        invariant fresh(repr) && forall s | s in segs :: s in repr && s.Footprint() <= repr
        invariant forall j | 0 <= j < i :: Opened(crc, d, h, bases[j], segs[j])
        invariant InOrder(segs)
      {
        var b := bases[i];
        assert b in d;
        var s := OpenSegment(crc, d, b, h);
        assert forall j | 0 <= j < i :: Opened(crc, d, h, bases[j], segs[j]);
        forall t | t in segs ensures Before(t, s) {
          var j :| 0 <= j < i && segs[j] == t;
          OpenedBefore(crc, d, h, bases[j], t, b, s);
        }
        OneMore(segs, s);
        segs, repr := segs + [s], repr + s.Footprint();
        i := i + 1;
      }
    }

    static method OpenSegment(crc: Checksum, d: Directory, b: nat, ghost h: seq<Record>) returns (s: Segment)
      requires Clean(crc, d, h) && b in d
      ensures fresh(s.Footprint()) && Opened(crc, d, h, b, s)
    {
      hide Fit, Segment.Valid, Clean;
      CleanSegments(crc, d, h, b);
      s := new Segment(b, d[b], crc, h[b..NextOf(d, b)]);
    }

    /** findSegment: the segment that covers an offset, by binary search. */
    method FindSegment(offset: nat) returns (s: Segment?)
      requires Valid()
      ensures s != null ==> s in segments && s.baseOff <= offset < s.nextOff
      ensures s == null ==> !Covers(offset)
    {
      hide Holds;
      var low, high := 0, |segments| - 1;
      while low <= high
        invariant 0 <= low <= high + 1 <= |segments|
        invariant forall i | 0 <= i < low :: segments[i].nextOff <= offset
        invariant forall i | high < i < |segments| :: offset < segments[i].baseOff
      {
        var mid := (low + high) / 2;
        var m := segments[mid];
        if offset < m.baseOff {
          forall i | mid < i < |segments| ensures offset < segments[i].baseOff {
            assert Before(m, segments[i]);
          }
          high := mid - 1;
        } else if offset >= m.nextOff {
          forall i | 0 <= i < mid ensures segments[i].nextOff <= offset {
            assert Before(segments[i], m);
          }
          low := mid + 1;
        } else {
          return m;
        }
      }
      return null;
    }

    /** read: the record at an offset, as the store keeps it, exactly when a segment still covers the offset. */
    method Read(offset: nat) returns (r: Option<Record>)
      requires Valid()
      modifies Repr
      ensures Valid() && unchanged(this) && Ends() == old(Ends())
      ensures Covers(offset) == old(Covers(offset)) && (Covers(offset) ==> offset < |history|)
      ensures r == if Covers(offset) then Some(Stored(history[offset])) else None
      ensures Covers(offset) ==> var h := history[offset];
                r.value.value == h.value && r.value.timestamp == h.timestamp && r.value.offset == h.offset
    {
      hide Segment.Valid;
      var s := FindSegment(offset);
      if s == null {
        return None;
      }
      r := s.Read(offset);
      Undisturbed(s);
    }

    /** append: the record gets the next offset, in a new segment if the active one has reached its limit. */
    method Append(r: Record) returns (off: Option<nat>)
      requires Valid() && |r.value| < TWO_32
      modifies Repr
      ensures Valid() && fresh(Repr - old(Repr))
      ensures off == if Fits(r) then Some(|old(history)|) else None
      ensures history == if Fits(r) then old(history) + [r] else old(history)
      ensures forall k: nat :: Covers(k) <==> old(Covers(k)) || (Fits(r) && k == |old(history)|)
      ensures segments == if old(StorePosition(active.records, |active.records|) >= MAX_STORE_BYTES) then old(segments) + [active]
                          else old(segments)
    {
      hide Segment.Valid, InOrder, Covers, Fits, Before;
      var maxed := active.IsMaxed();
      if maxed {
        Rotate();
      }
      label rotated:
      off := AppendToActive(r);
      OneMoreCovered@rotated();
    }

    twostate lemma OneMoreCovered()
      requires old(Valid()) && Valid() && segments == old(segments)
      requires old(history) <= history && |history| <= |old(history)| + 1
      requires forall t | t in segments && t != active :: t.nextOff == old(t.nextOff)
      ensures forall k: nat :: Covers(k) <==> old(Covers(k)) || |old(history)| <= k < |history|
    {
      hide Segment.Valid, InOrder;
      forall k: nat ensures Covers(k) <==> old(Covers(k)) || |old(history)| <= k < |history| {
        if old(Covers(k)) {
          var t :| t in segments && old(t.baseOff <= k < t.nextOff);
          assert t.baseOff <= k < t.nextOff;
        }
      }
    }

    method AppendToActive(r: Record) returns (off: Option<nat>)
      requires Valid() && |r.value| < TWO_32 && StorePosition(active.records, |active.records|) < MAX_STORE_BYTES
      modifies Repr
      ensures Valid() && Repr == old(Repr) && segments == old(segments)
      ensures off == if Fits(r) then Some(|old(history)|) else None
      ensures history == if Fits(r) then old(history) + [r] else old(history)
      ensures forall t | t in segments && t != active :: t.nextOff == old(t.nextOff)
    {
      hide Segment.Valid, Fits, BasesIn, StorePosition, Fit;
      off := active.Append(r);
      OthersKept(active);
      assert active.nextOff == |history| + if Fits(r) then 1 else 0;
      assert Holds(crc, if Fits(r) then history + [r] else history, active);
      hide Holds, InOrder;
      forall t | t in segments && t != active ensures Holds(crc, history + [r], t) {
        HoldsMore(crc, history, t, r);
      }
      if Fits(r) {
        history := history + [r];
      }
    }

    /** rotate: an empty segment takes over where the active one ends. */
    method Rotate()
      requires Valid() && active.records != []
      modifies this`segments, this`active, this`Repr, this`onDisk
      ensures Valid() && history == old(history) && fresh(Repr - old(Repr)) && old(Repr) <= Repr
      ensures segments == old(segments) + [active] && active.records == [] && active.baseOff == |history|
      ensures active.baseOff !in old(onDisk) && onDisk == old(onDisk) + {active.baseOff}
      ensures forall k: nat :: Covers(k) <==> old(Covers(k))
    {
      hide Segment.Valid, Holds, Before, InOrder, AnyCovers, Segment.Footprint;
      var s := NewSegment(active.nextOff);
      OneMore(segments, s);
      OneMoreCovers(segments, s);
      segments := segments + [s];
      onDisk := onDisk + {s.baseOff};
      active := s;
      Repr := Repr + s.Footprint();
    }

    /** An empty segment after all others. No file has its name yet. */
    method NewSegment(baseOff: nat) returns (s: Segment)
      requires Valid() && active.records != [] && baseOff == active.nextOff
      ensures fresh(s.Footprint()) && s in s.Footprint() && this !in s.Footprint()
      ensures Holds(crc, history, s) && s.records == [] && s.baseOff == s.nextOff == baseOff
      ensures forall t | t in segments :: Before(t, s)
      ensures baseOff !in onDisk
    {
      forall t | t in segments ensures t.baseOff < active.nextOff && t.nextOff <= active.nextOff { NoneLater(t); }
      hide Fit, Segment.Valid, Holds;
      EmptySegment(crc);
      s := new Segment(baseOff, Files([], []), crc, []);
      HoldsNothing(crc, history, s);
    }

    /** flush: nothing of the active segment is left in a buffer. */
    method Flush()
      requires Valid()
      modifies Repr
      ensures Valid() && unchanged(this) && Ends() == old(Ends()) && active.Closed()
    {
      active.Flush();
      Undisturbed(active);
    }

    /** NextOffset */
    method NextOffset() returns (n: nat)
      requires Valid()
      ensures n == |history|
    {
      n := active.nextOff;
    }

    /** segment.Close on one of the segments; what it leaves in the two files. */
    method CloseSegment(s: Segment) returns (f: Files)
      requires Valid() && s in segments
      modifies s.store.out, s.index.out
      ensures Valid() && Ends() == old(Ends())
      ensures Piece(crc, history, s.baseOff, s.nextOff, f)
    {
      hide Segment.Valid, StoreBytes, IndexBytes;
      s.Close();
      f := Files(s.store.out.disk, s.index.out.disk);
      Undisturbed(s);
    }

    /** close: flushes the active segment and closes all; the directory it leaves behind. */
    method Close() returns (d: Directory)
      requires Valid()
      modifies Repr
      ensures Valid() && unchanged(this) && Ends() == old(Ends())
      ensures Clean(crc, d, history) && d.Keys == onDisk && forall b :: b in d <==> b in Bases()
      ensures |Bases()| == |Ends()| && forall j | 0 <= j < |Bases()| :: Bases()[j] in d && NextOf(d, Bases()[j]) == Ends()[j]
    {
      hide Valid, Bases, Ends, Clean, NextOf, DirectoryImage, Extents, Segment.Closed;
      ghost var bases, ends := Bases(), Ends();
      ImageStart(crc, history);
      ExtentsOk();
      assert bases[..0] == [] && ends[..0] == [];
      Flush();
      d := map[];
      var i := 0;
      while i < |segments|
        invariant 0 <= i <= |segments| && Valid() && unchanged(this) && Ends() == ends && |bases| == |ends| == |segments|
        invariant DirectoryImage(crc, history, bases[..i], ends[..i], d)
      {
        d := CloseNext(i, d);
        i := i + 1;
      }
      assert bases[..i] == bases && ends[..i] == ends;
      ImageClean(crc, history, bases, ends, d);
      NamesOk();
    }

    lemma NamesOk()
      requires Valid()
      ensures forall b :: b in onDisk <==> b in Bases()
    {
      BasesAre(segments);
    }

    method CloseNext(i: nat, d: Directory) returns (d': Directory)
      requires Valid() && i < |segments| && DirectoryImage(crc, history, Bases()[..i], Ends()[..i], d)
      modifies Repr
      ensures Valid() && unchanged(this) && Ends() == old(Ends())
      ensures DirectoryImage(crc, history, Bases()[..i + 1], Ends()[..i + 1], d')
    {
      hide Segment.Valid, Holds, InOrder, Piece, NextOf, DirectoryImage, Extents;
      ExtentsOk();
      var s := segments[i];
      assert s in segments && {s.store.out, s.index.out} <= s.Footprint();
      var f := CloseSegment(s);
      ImageMore(crc, history, Bases(), Ends(), i, d, f);
      d' := d[s.baseOff := f];
    }

    lemma CoversByExtent()
      ensures |Bases()| == |Ends()| && forall k: nat :: Covers(k) <==> ExtentCovers(Bases(), Ends(), k)
    {
      forall k: nat ensures Covers(k) <==> ExtentCovers(Bases(), Ends(), k) {
        if ExtentCovers(Bases(), Ends(), k) {
          var j :| 0 <= j < |Bases()| && Bases()[j] <= k < Ends()[j];
          assert segments[j].baseOff <= k < segments[j].nextOff;
        }
        if Covers(k) {
          var s :| s in segments && s.baseOff <= k < s.nextOff;
          var j :| 0 <= j < |segments| && segments[j] == s;
          assert Bases()[j] <= k < Ends()[j];
        }
      }
    }

    lemma ExtentsOk()
      requires Valid()
      ensures Extents(Bases(), Ends(), |history|) && |Bases()| == |Ends()| == |segments|
    {
    }

    /** deleteExpiredSegments: the expired segments go, with their files, but never the active one. */
    method DeleteExpired(expired: set<Segment>)
      requires Valid()
      modifies Repr
      ensures Valid() && history == old(history) && active == old(active)
      ensures segments == Kept(old(segments), active, expired)
      ensures onDisk == old(onDisk) - Gone(old(segments), active, expired)
      ensures forall s | s in old(segments) :: s.nextOff == old(s.nextOff)
    {
      hide Segment.Valid, Holds, Before, InOrder, Kept, Gone, BasesIn;
      var remaining, files := Sift(expired);
      KeptInOrder(segments, active, expired);
      KeptMembers(segments, active, expired);
      KeptBases(segments, active, expired);
      KeptLast(segments, active, expired);
      assert forall j | 0 <= j < |segments| :: Ends()[j] == segments[j].nextOff;
      segments, onDisk := remaining, files;
    }

    /** The loop of deleteExpiredSegments: what remains of the segments and of the files. */
    method Sift(expired: set<Segment>) returns (remaining: seq<Segment>, files: set<nat>)
      requires Valid()
      modifies Repr
      ensures Valid() && unchanged(this) && Ends() == old(Ends())
      ensures remaining == Kept(segments, active, expired) && files == onDisk - Gone(segments, active, expired)
    {
      hide Valid, Ends, Gone, Kept;
      NoneGone(active, expired);
      remaining := [];
      var removed := {};
      var i := 0;
      while i < |segments|
        invariant 0 <= i <= |segments| && Valid() && unchanged(this) && Ends() == old(Ends())
        invariant remaining == Kept(segments[..i], active, expired) && removed == Gone(segments[..i], active, expired)
      {
        var s := segments[i];
        assert segments[..i + 1] == segments[..i] + [s];
        OneGone(segments[..i], s, active, expired);
        OneKept(segments[..i], s, active, expired);
        if s == active || s !in expired {
          remaining := remaining + [s];
        } else {
          CloseAt(i);
          removed := removed + {s.baseOff};
        }
        i := i + 1;
      }
      assert segments[..i] == segments;
      files := onDisk - removed;
    }

    method CloseAt(i: nat)
      requires Valid() && i < |segments|
      modifies Repr
      ensures Valid() && unchanged(this) && Ends() == old(Ends())
    {
      hide Segment.Valid, Holds, InOrder, Piece;
      var s := segments[i];
      assert s in segments && {s.store.out, s.index.out} <= s.Footprint();
      var _ := CloseSegment(s);
    }

    /** Closing and opening again, whatever the order in which the files are listed, loses and changes nothing. */
    static method Reopen(w: SegmentedLog, names: seq<nat>) returns (v: SegmentedLog)
      requires w.Valid() && Distinct(names) && forall b :: b in names <==> b in w.onDisk
      modifies w.Repr
      ensures v.Valid() && fresh(v.Repr)
      ensures v.history == old(w.history) && v.Bases() == old(w.Bases()) && v.Ends() == old(w.Ends()) && v.onDisk == old(w.onDisk)
      ensures forall k: nat :: v.Covers(k) <==> old(w.Covers(k))
    {
      hide SegmentedLog.Valid, SegmentedLog.Bases, SegmentedLog.Ends, SegmentedLog.Covers, Clean, NextOf, Sort, InDirectory;
      w.ExtentsOk();
      w.NamesOk();
      w.CoversByExtent();
      ListingSorts(w.Bases(), names);
      var d := w.Close();
      ImageCovers(w.Bases(), w.Ends(), d);
      v := new SegmentedLog(w.crc, d, names, w.history);
      SameEnds(d, w.Bases(), v.Ends(), w.Ends());
    }
  }
}
