/** The two files of a Raft log: what they hold for a given log, and what recovery makes of any content. */
module RaftDisk {
  import opened RaftTypes
  import opened BigEndian
  import opened Slices

  /** gob, as a pair of functions. */
  datatype Codec = Codec(encode: LogEntry -> Bytes, decode: Bytes -> Option<LogEntry>)

  /** What is written can be read back. */
  ghost predicate RoundTrips(c: Codec) {
    forall e :: c.decode(c.encode(e)) == Some(e)
  }

  /** The content of log.store and log.index. */
  datatype Disk = Disk(store: Bytes, index: Bytes)

  /** Every entry encodes to less than 4 GiB, and the store file stays within what an int64 offset can address. */
  ghost predicate Storable(c: Codec, es: Log) {
    && (forall i | 0 <= i < |es| :: |c.encode(es[i])| < TWO_32)
    && |Store(c, es)| < TWO_64 / 2
  }

  // ---------------------------------------------------------------- the files of a log

  function Frame(c: Codec, e: LogEntry): Bytes {
    (if |c.encode(e)| < TWO_32 then PutUint32(|c.encode(e)|) else []) + c.encode(e)
  }

  function Store(c: Codec, es: Log): Bytes {
    if es == [] then [] else Store(c, es[..|es| - 1]) + Frame(c, es[|es| - 1])
  }

  /** Where record i starts; for i == |es|, where the store ends. */
  function Position(c: Codec, es: Log, i: nat): nat
    requires i <= |es|
  {
    |Store(c, es[..i])|
  }

  function Index(c: Codec, es: Log): Bytes {
    if es == [] then [] else
      var p := |Store(c, es[..|es| - 1])|;
      Index(c, es[..|es| - 1]) + (if p < TWO_64 then PutUint64(p) else [])
  }

  function Image(c: Codec, es: Log): Disk {
    Disk(Store(c, es), Index(c, es))
  }

  // ---------------------------------------------------------------- where things are

  lemma {:induction false} StorePrefix(c: Codec, es: Log, i: nat)
    requires i <= |es|
    ensures Store(c, es[..i]) <= Store(c, es)
    decreases |es|
  {
    if i < |es| {
      var front := es[..|es| - 1];
      assert front[..i] == es[..i];
      StorePrefix(c, front, i);
    } else {
      assert es[..i] == es;
    }
  }

  lemma PositionsGrow(c: Codec, es: Log, i: nat, j: nat)
    requires i <= j <= |es|
    ensures Position(c, es, i) <= Position(c, es, j) <= |Store(c, es)|
  {
    assert es[..j][..i] == es[..i];
    StorePrefix(c, es[..j], i);
    StorePrefix(c, es, j);
  }

  lemma StorablePrefix(c: Codec, es: Log, i: nat)
    requires Storable(c, es) && i <= |es|
    ensures Storable(c, es[..i])
  {
    StorePrefix(c, es, i);
  }

  lemma IndexGrows(c: Codec, es: Log)
    requires Storable(c, es) && es != []
    ensures Index(c, es[..|es| - 1]) <= Index(c, es) && |Index(c, es)| == |Index(c, es[..|es| - 1])| + 8
    ensures Storable(c, es[..|es| - 1])
  {
  }

  lemma {:induction false} IndexGrowsFrom(c: Codec, es: Log, i: nat)
    requires Storable(c, es) && i <= |es|
    ensures Index(c, es[..i]) <= Index(c, es) && |Index(c, es)| == |Index(c, es[..i])| + 8 * (|es| - i)
    decreases |es|
  {
    hide Storable, Index;
    if i == |es| {
      assert es[..i] == es;
    } else {
      IndexGrows(c, es);
      IndexGrowsFrom(c, es[..|es| - 1], i);
      assert es[..|es| - 1][..i] == es[..i];
    }
  }

  lemma IndexPrefix(c: Codec, es: Log, i: nat)
    requires Storable(c, es) && i <= |es|
    ensures |Index(c, es)| == 8 * |es| && Index(c, es)[..8 * i] == Index(c, es[..i])
  {
    hide Storable;
    StorablePrefix(c, es, i);
    IndexGrowsFrom(c, es, 0);
    IndexGrowsFrom(c, es[..i], 0);
    IndexGrowsFrom(c, es, i);
    assert es[..i][..0] == [] && es[..0] == [];
    PrefixOf(Index(c, es[..i]), Index(c, es));
  }

  /** Entry i of the index is the position of record i. */
  lemma IndexEntry(c: Codec, es: Log, i: nat)
    requires Storable(c, es) && i < |es|
    ensures |Index(c, es)| == 8 * |es|
    ensures Get(Index(c, es)[8 * i..8 * i + 8]) == Position(c, es, i)
  {
    hide Get, Store, Index, Storable, PutUint64;
    var upTo := es[..i + 1];
    assert upTo[..i] == es[..i];
    StorablePrefix(c, es, i + 1);
    StorablePrefix(c, es, i);
    IndexPrefix(c, es, i + 1);
    IndexPrefix(c, upTo, i);
    LastIndexEntry(c, upTo);
    PrefixSlice(Index(c, upTo), Index(c, es), 8 * i, 8 * i + 8);
    MiddleSlice(Index(c, es[..i]), PutUint64(Position(c, es, i)), []);
  }

  lemma LastIndexEntry(c: Codec, es: Log)
    requires es != [] && Storable(c, es)
    ensures Position(c, es, |es| - 1) < TWO_64
    ensures Index(c, es) == Index(c, es[..|es| - 1]) + PutUint64(Position(c, es, |es| - 1)) + []
  {
  }

  /** Record i of the store is the length and the encoding of entry i. */
  lemma StoreRecord(c: Codec, es: Log, i: nat)
    requires Storable(c, es) && i < |es|
    ensures var p, n := Position(c, es, i), |c.encode(es[i])|;
            && Position(c, es, i + 1) == p + 4 + n <= |Store(c, es)|
            && Get(Store(c, es)[p..p + 4]) == n
            && Store(c, es)[p + 4..p + 4 + n] == c.encode(es[i])
  {
    hide Get, Store, PutUint32;
    var upTo := es[..i + 1];
    var p, n := Position(c, es, i), |c.encode(es[i])|;
    assert upTo[..i] == es[..i];
    StorePrefix(c, es, i + 1);
    LastRecord(c, upTo);
    var s := Store(c, upTo);
    MiddleSlice(Store(c, es[..i]), PutUint32(n), c.encode(es[i]));
    MiddleSlice(Store(c, es[..i]) + PutUint32(n), c.encode(es[i]), []);
    PrefixSlice(s, Store(c, es), p, p + 4);
    PrefixSlice(s, Store(c, es), p + 4, p + 4 + n);
  }

  lemma LastRecord(c: Codec, es: Log)
    requires es != [] && |c.encode(es[|es| - 1])| < TWO_32
    ensures var e := c.encode(es[|es| - 1]);
            && Store(c, es) == Store(c, es[..|es| - 1]) + PutUint32(|e|) + e
            && Store(c, es) == Store(c, es[..|es| - 1]) + PutUint32(|e|) + e + []
  {
  }

  // ---------------------------------------------------------------- recovery

  function IndexAt(d: Disk, i: nat): nat
    requires 8 * i + 8 <= |d.index|
  {
    Get(d.index[8 * i..8 * i + 8])
  }

  /** Where the record at p ends, if there is a whole record there that decodes. */
  function RecordEnd(c: Codec, store: Bytes, p: nat): (end: Option<nat>)
    ensures end.Some? ==> p + 4 <= end.value <= |store|
  {
    if p + 4 > |store| then None
    else
      var end := p + 4 + Get(store[p..p + 4]);
      if end > |store| || c.decode(store[p + 4..end]) == None then None else Some(end)
  }

  /** How many records recovery keeps, when it already kept i. */
  function ValidRecords(c: Codec, d: Disk, i: nat): (k: nat)
    requires 8 * i <= |d.index|
    ensures i <= k && 8 * k <= |d.index|
    decreases |d.index| - 8 * i
  {
    if 8 * i + 8 > |d.index| || RecordEnd(c, d.store, IndexAt(d, i)) == None then i
    else ValidRecords(c, d, i + 1)
  }

  lemma {:induction false} ValidAt(c: Codec, d: Disk, i: nat, j: nat)
    requires 8 * i <= |d.index| && i <= j < ValidRecords(c, d, i)
    ensures 8 * j + 8 <= |d.index| && RecordEnd(c, d.store, IndexAt(d, j)).Some?
    decreases j - i
  {
    if i < j { ValidAt(c, d, i + 1, j); }
  }

  /** What recovery leaves on disk: the records before the first invalid one, and nothing behind the last of them. */
  function Recovered(c: Codec, d: Disk): Disk {
    var k := ValidRecords(c, d, 0);
    if k == 0 then Disk([], [])
    else
      ValidAt(c, d, 0, k - 1);
      Disk(d.store[..RecordEnd(c, d.store, IndexAt(d, k - 1)).value], d.index[..8 * k])
  }

  // ---------------------------------------------------------------- recovery of any content

  /** The bytes from p to end are four of a length and as many as they say, which decode to an entry. */
  ghost predicate RecordIn(c: Codec, store: Bytes, p: nat, end: nat) {
    && p + 4 <= end <= |store|
    && end == p + 4 + Get(store[p..p + 4])
    && c.decode(store[p + 4..end]).Some?
  }

  ghost predicate HasRecord(c: Codec, store: Bytes, p: nat) {
    exists end :: RecordIn(c, store, p, end)
  }

  lemma RecordEndIffRecord(c: Codec, store: Bytes, p: nat)
    ensures RecordEnd(c, store, p).Some? ==> RecordIn(c, store, p, RecordEnd(c, store, p).value)
    ensures HasRecord(c, store, p) <==> RecordEnd(c, store, p).Some?
  {
    hide Get;
  }

  /** What recovery keeps of any content: the index up to the first entry that points at no record, the store up to the end of the last record kept. */
  ghost predicate Keeps(c: Codec, d: Disk, k: nat, r: Disk) {
    && 8 * k <= |d.index| && r.index == d.index[..8 * k]
    && (forall j | 0 <= j < k :: HasRecord(c, d.store, IndexAt(d, j)))
    && (8 * k + 8 <= |d.index| ==> !HasRecord(c, d.store, IndexAt(d, k)))
    && if k == 0 then r.store == [] else r.store <= d.store && RecordIn(c, d.store, IndexAt(d, k - 1), |r.store|)
  }

  lemma RecoveredKeeps(c: Codec, d: Disk)
    ensures Keeps(c, d, ValidRecords(c, d, 0), Recovered(c, d))
  {
    hide Get, RecordEnd, ValidRecords, HasRecord, RecordIn;
    var k := ValidRecords(c, d, 0);
    forall j | 0 <= j < k ensures HasRecord(c, d.store, IndexAt(d, j)) {
      ValidAt(c, d, 0, j);
      RecordEndIffRecord(c, d.store, IndexAt(d, j));
    }
    if 8 * k + 8 <= |d.index| {
      ValidEnds(c, d, 0);
      RecordEndIffRecord(c, d.store, IndexAt(d, k));
    }
    if k > 0 {
      ValidAt(c, d, 0, k - 1);
      RecordEndIffRecord(c, d.store, IndexAt(d, k - 1));
    }
  }

  lemma {:induction false} ValidEnds(c: Codec, d: Disk, i: nat)
    requires 8 * i <= |d.index|
    ensures var k := ValidRecords(c, d, i); 8 * k + 8 <= |d.index| ==> RecordEnd(c, d.store, IndexAt(d, k)) == None
    decreases |d.index| - 8 * i
  {
    hide Get, RecordEnd;
    if !(8 * i + 8 > |d.index| || RecordEnd(c, d.store, IndexAt(d, i)) == None) {
      ValidEnds(c, d, i + 1);
    }
  }

  /** No record that recovery keeps reaches beyond the last one it keeps. */
  ghost predicate LastReachesFurthest(c: Codec, d: Disk) {
    forall i, end: nat | 0 <= i < ValidRecords(c, d, 0) && RecordIn(c, d.store, IndexAt(d, i), end) :: end <= |Recovered(c, d).store|
  }

  /**
   Recovery is not final on any content: it cuts the store behind the record that the last index entry points at, whether
   or not another reaches further. All entries it keeps still point at records, and recovering again changes nothing, if
   and only if none does.
   */
  lemma StableIffLastReachesFurthest(c: Codec, d: Disk)
    ensures var r := Recovered(c, d);
            && (Recovered(c, r) == r <==> LastReachesFurthest(c, d))
            && ((forall i | 0 <= i < |r.index| / 8 :: HasRecord(c, r.store, IndexAt(r, i))) <==> LastReachesFurthest(c, d))
  {
    hide Get, RecordEnd, ValidRecords, HasRecord, RecordIn, Recovered;
    var r, k := Recovered(c, d), ValidRecords(c, d, 0);
    RecoveredKeeps(c, d);
    RecoveredKeeps(c, r);
    forall i | 0 <= i < k
      ensures IndexAt(r, i) == IndexAt(d, i) && HasRecord(c, d.store, IndexAt(d, i))
      ensures forall end: nat :: RecordIn(c, r.store, IndexAt(d, i), end) <==> RecordIn(c, d.store, IndexAt(d, i), end) && end <= |r.store|
      ensures HasRecord(c, r.store, IndexAt(d, i)) <==> forall end: nat | RecordIn(c, d.store, IndexAt(d, i), end) :: end <= |r.store|
    {
      PrefixSlice(r.index, d.index, 8 * i, 8 * i + 8);
      RecordInPrefix(c, d.store, r.store, IndexAt(d, i));
    }
    var j := ValidRecords(c, r, 0);
    if j == k > 0 {
      assert |Recovered(c, r).store| == |r.store| by { OneEnd(c, r.store, IndexAt(r, k - 1), |r.store|, |Recovered(c, r).store|); }
    }
  }

  lemma OneEnd(c: Codec, store: Bytes, p: nat, a: nat, b: nat)
    requires RecordIn(c, store, p, a) && RecordIn(c, store, p, b)
    ensures a == b
  {
  }

  lemma RecordInPrefix(c: Codec, store: Bytes, front: Bytes, p: nat)
    requires front <= store
    ensures forall end: nat :: RecordIn(c, front, p, end) <==> RecordIn(c, store, p, end) && end <= |front|
    ensures HasRecord(c, store, p) ==> (HasRecord(c, front, p) <==> forall end: nat | RecordIn(c, store, p, end) :: end <= |front|)
  {
    hide Get;
    forall end: nat ensures RecordIn(c, front, p, end) <==> RecordIn(c, store, p, end) && end <= |front| {
      if p + 4 <= end <= |front| {
        PrefixSlice(front, store, p, p + 4);
        PrefixSlice(front, store, p + 4, end);
      }
    }
  }

  /** d is the disk of the log es after the files lost any amount of their tails. */
  ghost predicate TailLoss(c: Codec, es: Log, d: Disk) {
    d.store <= Store(c, es) && d.index <= Index(c, es)
  }

  /** The number of entries of es that are whole in both files. */
  function Whole(c: Codec, es: Log, d: Disk, k: nat): (n: nat)
    requires k <= |es|
    ensures n <= k
  {
    if k == 0 || (8 * k <= |d.index| && Position(c, es, k) <= |d.store|) then k
    else Whole(c, es, d, k - 1)
  }

  lemma StartsAtZero(c: Codec, es: Log)
    ensures Position(c, es, 0) == 0
  {
    assert es[..0] == [];
  }

  lemma {:induction false} WholeIsLargest(c: Codec, es: Log, d: Disk, k: nat)
    requires k <= |es|
    ensures var n := Whole(c, es, d, k);
            && 8 * n <= |d.index| && Position(c, es, n) <= |d.store|
            && forall j: nat | n < j <= k :: 8 * j > |d.index| || Position(c, es, j) > |d.store|
  {
    hide Position;
    assert k == 0 ==> Position(c, es, k) == 0 by { StartsAtZero(c, es); }
    if !(k == 0 || (8 * k <= |d.index| && Position(c, es, k) <= |d.store|)) {
      WholeIsLargest(c, es, d, k - 1);
    }
  }

  /** Recovery sees record i exactly when its index entry and the record itself survived. */
  lemma RecordSurvives(c: Codec, es: Log, d: Disk, i: nat)
    requires RoundTrips(c) && Storable(c, es) && TailLoss(c, es, d) && i < |es| && 8 * i + 8 <= |d.index|
    ensures IndexAt(d, i) == Position(c, es, i)
    ensures RecordEnd(c, d.store, IndexAt(d, i))
            == if Position(c, es, i + 1) <= |d.store| then Some(Position(c, es, i + 1)) else None
  {
    hide Get, Store, Index, Position, Storable;
    IndexEntry(c, es, i);
    PrefixSlice(d.index, Index(c, es), 8 * i, 8 * i + 8);
    StoreRecord(c, es, i);
    var p, n := Position(c, es, i), |c.encode(es[i])|;
    if p + 4 <= |d.store| {
      PrefixSlice(d.store, Store(c, es), p, p + 4);
      if p + 4 + n <= |d.store| {
        PrefixSlice(d.store, Store(c, es), p + 4, p + 4 + n);
      }
    }
  }

  lemma {:induction false} ValidIsWhole(c: Codec, es: Log, d: Disk, i: nat)
    requires RoundTrips(c) && Storable(c, es) && TailLoss(c, es, d)
    requires i <= |es| && 8 * i <= |d.index| && Position(c, es, i) <= |d.store|
    ensures ValidRecords(c, d, i) == Whole(c, es, d, |es|)
    decreases |es| - i
  {
    IndexPrefix(c, es, 0);
    WholeIsLargest(c, es, d, |es|);
    var k := Whole(c, es, d, |es|);
    if 8 * i + 8 <= |d.index| {
      RecordSurvives(c, es, d, i);
      if Position(c, es, i + 1) <= |d.store| {
        ValidIsWhole(c, es, d, i + 1);
      } else if i < k {
        PositionsGrow(c, es, i + 1, k);
      }
    }
  }

  /**
   Recovery from arbitrary tail loss: what is left is exactly the log's first k entries, for the largest k whose
   records and index entries all survived.
   */
  lemma RecoveryKeepsWhole(c: Codec, es: Log, d: Disk)
    requires RoundTrips(c) && Storable(c, es) && TailLoss(c, es, d)
    ensures Recovered(c, d) == Image(c, es[..Whole(c, es, d, |es|)])
  {
    var k := Whole(c, es, d, |es|);
    StartsAtZero(c, es);
    ValidIsWhole(c, es, d, 0);
    WholeIsLargest(c, es, d, |es|);
    IndexPrefix(c, es, k);
    hide Whole, ValidRecords, RecordEnd, Storable, Get;
    PrefixSlice(d.index, Index(c, es), 0, 8 * k);
    if k > 0 {
      RecordSurvives(c, es, d, k - 1);
      StorePrefix(c, es, k);
      PrefixSlice(d.store, Store(c, es), 0, Position(c, es, k));
      PrefixOf(Store(c, es[..k]), Store(c, es));
    } else {
      assert es[..0] == [];
    }
  }

  /** Recovering what was recovered changes nothing. */
  lemma RecoveryIdempotent(c: Codec, es: Log)
    requires RoundTrips(c) && Storable(c, es)
    ensures Recovered(c, Image(c, es)) == Image(c, es)
  {
    hide Recovered, Store, Index, Storable, RoundTrips;
    IndexPrefix(c, es, |es|);
    assert es[..|es|] == es;
    RecoveryKeepsWhole(c, es, Image(c, es));
  }

  /**
   The content on which recovery is not final, for any two entries: with their index entries swapped, the first recovery
   keeps both but cuts the store behind the first record, so that a second one keeps nothing.
   */
  lemma SwappedIndexLosesAll(c: Codec, a: LogEntry, b: LogEntry)
    requires RoundTrips(c) && Storable(c, [a, b])
    ensures var es := [a, b];
            var p := Position(c, es, 1);
            && 0 < p < TWO_64
            && var d := Disk(Store(c, es), PutUint64(p) + PutUint64(0));
               Recovered(c, d) == Disk(Store(c, [a]), d.index) && Recovered(c, Recovered(c, d)) == Disk([], [])
  {
    hide Get, Store, Index, Storable, Recovered, ValidRecords, RecordIn, Position;
    var es := [a, b];
    var p := Position(c, es, 1);
    assert es[..1] == [a];
    StartsAtZero(c, es);
    TwoRecords(c, es);
    assert Position(c, es, 1) == |Store(c, es[..1])| by { PositionIs(c, es, 1); }
    StorePrefix(c, es, 1);
    PrefixOf(Store(c, [a]), Store(c, es));
    var d := Disk(Store(c, es), PutUint64(p) + PutUint64(0));
    SwappedEntries(d, p);
    RecoveredKeeps(c, d);
    assert RecordIn(c, d.store, 0, p) && HasRecord(c, d.store, p);
    var r, k := Recovered(c, d), ValidRecords(c, d, 0);
    assert k == 2;
    OneEnd(c, d.store, 0, p, |r.store|);
    assert r.index == d.index && r.store == d.store[..p];
    RecoveredKeeps(c, r);
    NoRecordAtEnd(c, r.store);
    SwappedEntries(r, p);
    assert ValidRecords(c, r, 0) == 0;
    assert Recovered(c, r).index == [] && Recovered(c, r).store == [];
  }

  lemma SwappedEntries(d: Disk, p: nat)
    requires p < TWO_64 && d.index == PutUint64(p) + PutUint64(0)
    ensures |d.index| == 16 && IndexAt(d, 0) == p && IndexAt(d, 1) == 0
  {
    hide Get;
    assert d.index[0..8] == PutUint64(p) && d.index[8..16] == PutUint64(0);
  }

  lemma PositionIs(c: Codec, es: Log, i: nat)
    requires i <= |es|
    ensures Position(c, es, i) == |Store(c, es[..i])|
  {
  }

  lemma NoRecordAtEnd(c: Codec, store: Bytes)
    ensures !HasRecord(c, store, |store|)
  {
  }

  /** The two records of a log of two entries. */
  lemma TwoRecords(c: Codec, es: Log)
    requires RoundTrips(c) && Storable(c, es) && |es| == 2
    ensures var p := Position(c, es, 1);
            0 < p < TWO_64 && RecordIn(c, Store(c, es), 0, p) && HasRecord(c, Store(c, es), p)
  {
    hide Get, Store;
    StartsAtZero(c, es);
    PositionsGrow(c, es, 1, 2);
    StoreRecord(c, es, 0);
    StoreRecord(c, es, 1);
    assert RecordIn(c, Store(c, es), Position(c, es, 1), Position(c, es, 2));
  }

  // ---------------------------------------------------------------- crashes

  /** A crash while an entry is appended leaves the files of the longer log with part of a tail missing. */
  lemma AppendCrash(c: Codec, es: Log, e: LogEntry, d: Disk)
    requires RoundTrips(c) && Storable(c, es + [e])
    requires d.store <= Store(c, es + [e]) && d.index <= Index(c, es + [e])
    requires Store(c, es) <= d.store && Index(c, es) <= d.index
    ensures Recovered(c, d) == Image(c, es) || Recovered(c, d) == Image(c, es + [e])
  {
    var all := es + [e];
    assert all[..|es|] == es && all[..|all|] == all;
    IndexPrefix(c, all, |es|);
    RecoveryKeepsWhole(c, all, d);
    WholeIsLargest(c, all, d, |all|);
  }

  /** A crash while the tail from index i on is cut off leaves the store without it, or both files without it. */
  lemma TruncateCrash(c: Codec, es: Log, i: nat, d: Disk)
    requires RoundTrips(c) && Storable(c, es) && i < |es|
    requires d.store == Store(c, es[..i]) && (d.index == Index(c, es) || d.index == Index(c, es[..i]))
    ensures Recovered(c, d) == Image(c, es[..i])
  {
    IndexPrefix(c, es, i);
    StorePrefix(c, es, i);
    hide Whole, Store, Index, Recovered, Storable, RoundTrips;
    WholeAfterCut(c, es, i, d);
    RecoveryKeepsWhole(c, es, d);
  }

  lemma WholeAfterCut(c: Codec, es: Log, i: nat, d: Disk)
    requires Storable(c, es) && i < |es| && |d.store| == Position(c, es, i) && 8 * i <= |d.index|
    ensures Whole(c, es, d, |es|) == i
  {
    hide Whole, Store, Position, Storable, Get;
    WholeIsLargest(c, es, d, |es|);
    StoreRecord(c, es, i);
    var k := Whole(c, es, d, |es|);
    if k > i {
      PositionsGrow(c, es, i + 1, k);
    }
  }
}
