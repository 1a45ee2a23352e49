/** raft/storage.go: the durable Raft log, a store file of records and an index file of their positions. */
module RaftStorage {
  import opened RaftTypes
  import opened BigEndian
  import opened RaftDisk
  import opened Slices

  /** The content of a file after p was written at an offset; a gap is filled with zeros. */
  function WriteAt(b: Bytes, at: nat, p: Bytes): Bytes {
    if at > |b| then b + Zeros(at - |b|) + p
    else if at + |p| < |b| then b[..at] + p + b[at + |p|..]
    else b[..at] + p
  }

  function Zeros(n: nat): Bytes {
    seq(n, i => 0)
  }

  function Resize(b: Bytes, n: nat): Bytes {
    if n <= |b| then b[..n] else b + Zeros(n - |b|)
  }

  /** What the files may hold when the process stops while it writes p to the store at an offset. */
  ghost function StoreCrashes(d: Disk, at: nat, p: Bytes): iset<Disk> {
    iset j: nat | j <= |p| :: Disk(WriteAt(d.store, at, p[..j]), d.index)
  }

  ghost function IndexCrashes(d: Disk, at: nat, p: Bytes): iset<Disk> {
    iset j: nat | j <= |p| :: Disk(d.store, WriteAt(d.index, at, p[..j]))
  }

  /**
   The open files log.store and log.index, each with its write cursor. `crashes` collects what the files would hold if
   the process stopped at any moment of any write or truncation done so far; a write may stop after any number of bytes.
   */
  class LogFiles {
    var store: Bytes
    var storeAt: nat
    var index: Bytes
    var indexAt: nat
    ghost var crashes: iset<Disk>

    constructor (d: Disk)
      ensures Content() == d && storeAt == 0 && indexAt == 0 && crashes == iset{d}
    {
      store, index, storeAt, indexAt, crashes := d.store, d.index, 0, 0, iset{d};
    }

    function Content(): Disk
      reads this
    {
      Disk(store, index)
    }

    method WriteStore(p: Bytes)
      modifies this
      ensures store == WriteAt(old(store), old(storeAt), p) && storeAt == old(storeAt) + |p|
      ensures index == old(index) && indexAt == old(indexAt)
      ensures crashes == old(crashes) + StoreCrashes(old(Content()), old(storeAt), p)
    {
      crashes := crashes + StoreCrashes(Content(), storeAt, p);
      store, storeAt := WriteAt(store, storeAt, p), storeAt + |p|;
    }

    method WriteIndex(p: Bytes)
      modifies this
      ensures index == WriteAt(old(index), old(indexAt), p) && indexAt == old(indexAt) + |p|
      ensures store == old(store) && storeAt == old(storeAt)
      ensures crashes == old(crashes) + IndexCrashes(old(Content()), old(indexAt), p)
    {
      crashes := crashes + IndexCrashes(Content(), indexAt, p);
      index, indexAt := WriteAt(index, indexAt, p), indexAt + |p|;
    }

    /** Truncation does not move the cursor. */
    method TruncateStore(n: nat)
      modifies this
      ensures store == Resize(old(store), n)
      ensures index == old(index) && indexAt == old(indexAt) && storeAt == old(storeAt)
      ensures crashes == old(crashes) + iset{old(Content()), Content()}
    {
      ghost var before := Content();
      store := Resize(store, n);
      crashes := crashes + iset{before, Content()};
    }

    method TruncateIndex(n: nat)
      modifies this
      ensures index == Resize(old(index), n)
      ensures store == old(store) && indexAt == old(indexAt) && storeAt == old(storeAt)
      ensures crashes == old(crashes) + iset{old(Content()), Content()}
    {
      ghost var before := Content();
      index := Resize(index, n);
      crashes := crashes + iset{before, Content()};
    }

    method SeekStore(n: nat)
      modifies this`storeAt
      ensures storeAt == n
    {
      storeAt := n;
    }

    method SeekIndex(n: nat)
      modifies this`indexAt
      ensures indexAt == n
    {
      indexAt := n;
    }

    /** ReadAt: the n bytes at an offset, or an error when there are not that many. */
    method ReadStore(at: nat, n: nat) returns (r: Option<Bytes>)
      ensures r == if at + n <= |store| then Some(store[at..at + n]) else None
    {
      r := if at + n <= |store| then Some(store[at..at + n]) else None;
    }

    method ReadIndex(at: nat, n: nat) returns (r: Option<Bytes>)
      ensures r == if at + n <= |index| then Some(index[at..at + n]) else None
    {
      r := if at + n <= |index| then Some(index[at..at + n]) else None;
    }
  }

  class RaftLog {
    const files: LogFiles
    const codec: Codec
    var sSize: nat
    var count: nat
    ghost var entries: Log

    /** The files hold exactly the log's entries, and both cursors are at the ends. */
    ghost predicate Valid()
      reads this, files
    {
      && RoundTrips(codec) && Storable(codec, entries)
      && files.Content() == Image(codec, entries)
      && files.storeAt == sSize == |files.store|
      && files.indexAt == |files.index|
      && count == |entries|
    }

    /** A crash at any moment since `before` leaves files that recover to the log a or the log b. */
    ghost predicate CrashesTo(before: iset<Disk>, a: Log, b: Log)
      reads files
    {
      forall d :: d in files.crashes && d !in before ==>
        Recovered(codec, d) == Image(codec, a) || Recovered(codec, d) == Image(codec, b)
    }

    /**
     newRaftLog, on any content of the files: recovery, and the dummy entry if that leaves nothing. When recovery leaves
     the files of a log es, the log opens with its entries; when the files are those of es with tails lost, it opens with
     the entries that are whole.
     */
    constructor (files: LogFiles, codec: Codec, ghost es: Log)
      requires RoundTrips(codec) && Storable(codec, [DUMMY])
      modifies files
      ensures this.files == files && this.codec == codec
      ensures files.Content() == var d := Recovered(codec, old(files.Content())); if d == Disk([], []) then Image(codec, [DUMMY]) else d
      ensures Recovered(codec, old(files.Content())) == Disk([], []) ==> Valid() && entries == [DUMMY]
      ensures Storable(codec, es) && Recovered(codec, old(files.Content())) == Image(codec, es) ==>
                Valid() && entries == if es == [] then [DUMMY] else es
      ensures Storable(codec, es) && TailLoss(codec, es, old(files.Content())) ==>
                var kept := es[..Whole(codec, es, old(files.Content()), |es|)];
                Valid() && entries == if kept == [] then [DUMMY] else kept
    {
      hide RoundTrips, Recovered, TailLoss, Storable, Whole;
      this.files := files;
      this.codec := codec;
      sSize, count, entries := 0, 0, [];
      new;
      ghost var d := files.Content();
      if Storable(codec, es) && Recovered(codec, d) == Image(codec, es) {
        entries := es;
      }
      if Storable(codec, es) && TailLoss(codec, es, d) {
        RecoveryKeepsWhole(codec, es, d);
        StorablePrefix(codec, es, Whole(codec, es, d, |es|));
        entries := es[..Whole(codec, es, d, |es|)];
        if Recovered(codec, d) == Image(codec, es) {
          SameImage(codec, es, Whole(codec, es, d, |es|));
        }
      }
      EmptyImage(codec);
      Recover(es);
      if count == 0 {
        assert |files.Content().index| == 0;
        RecoveredEmpty(codec, d);
        NoEntries(codec, entries);
        entries := [];
        assert entries + [DUMMY] == [DUMMY];
        var _ := Append(DUMMY);
      } else {
        ImageParts(codec, entries);
      }
    }

    /**
     recover, on any content of the files: keeps the index entries before the first that points at no record which is whole
     and decodes, and the store up to the end of the record that the last of them points at. When the content is that of
     a log es that lost tails, a crash during recovery makes no difference to the next one.
     */
    method Recover(ghost es: Log)
      modifies this, files
      ensures files.Content() == Recovered(codec, old(files.Content()))
      ensures Keeps(codec, old(files.Content()), count, files.Content())
      ensures files.storeAt == sSize == |files.store|
      ensures files.indexAt == 8 * count == |files.index|
      ensures entries == old(entries)
      ensures RoundTrips(codec) && Storable(codec, es) && TailLoss(codec, es, old(files.Content())) ==>
                forall d :: d in files.crashes && d !in old(files.crashes) ==>
                  Recovered(codec, d) == Recovered(codec, old(files.Content()))
    {
      hide RoundTrips, Storable, TailLoss, Recovered, Get, ValidRecords, RecordEnd, Keeps;
      ghost var d := files.Content();
      var storeSize := |files.store|;
      var indexSize := |files.index|;
      var validIndexSize := indexSize - indexSize % 8;
      if validIndexSize != indexSize {
        files.TruncateIndex(validIndexSize);
        indexSize := validIndexSize;
        IndexTailIgnored(codec, d, validIndexSize / 8);
      }
      ghost var d1 := files.Content();
      assert Recovered(codec, d1) == Recovered(codec, d);
      var n, lastValidStoreEnd := ScanRecords(indexSize / 8, storeSize);
      IndexTailIgnored(codec, d1, n);
      RecoveredKeeps(codec, d);
      RecoverResult(codec, d1, lastValidStoreEnd);
      files.TruncateIndex(8 * n);
      files.TruncateStore(lastValidStoreEnd);
      count := n;
      sSize := lastValidStoreEnd;
      files.SeekStore(sSize);
      files.SeekIndex(8 * count);
      if RoundTrips(codec) && Storable(codec, es) && TailLoss(codec, es, d) {
        RecoveredAgain(codec, es, d);
      }
    }

    /** The validation loop of recover: how many records are valid, and where the last of them ends. */
    method ScanRecords(indexed: nat, storeSize: nat) returns (n: nat, lastValidStoreEnd: nat)
      requires indexed == |files.index| / 8 && storeSize == |files.store|
      ensures n == ValidRecords(codec, files.Content(), 0) && 8 * n <= |files.index| && lastValidStoreEnd <= storeSize
      ensures if n == 0 then lastValidStoreEnd == 0
              else RecordEnd(codec, files.store, IndexAt(files.Content(), n - 1)) == Some(lastValidStoreEnd)
    {
      hide Get, RecordEnd;
      ghost var d := files.Content();
      n := indexed;
      lastValidStoreEnd := 0;
      var i := 0;
      while i < n
        invariant i <= n == indexed
        invariant ValidRecords(codec, d, 0) == ValidRecords(codec, d, i)
        invariant lastValidStoreEnd <= storeSize
        invariant if i == 0 then lastValidStoreEnd == 0
                  else RecordEnd(codec, d.store, IndexAt(d, i - 1)) == Some(lastValidStoreEnd)
      {
        var positionBuf := files.ReadIndex(8 * i, 8);
        var position := Get(positionBuf.value);
        if position >= storeSize {
          n := i;
          break;
        }
        var end := ValidateRecord(position, storeSize);
        if end == None {
          n := i;
          break;
        }
        lastValidStoreEnd := end.value;
        i := i + 1;
      }
    }

    /** validateRecord: where the record at a position ends, or an error unless it is whole and decodes. */
    method ValidateRecord(position: nat, storeSize: nat) returns (r: Option<nat>)
      requires storeSize == |files.store|
      ensures r == RecordEnd(codec, files.store, position)
      ensures r.Some? ==> RecordIn(codec, files.store, position, r.value)
      ensures r == None ==> !HasRecord(codec, files.store, position)
    {
      hide Get;
      if position + 4 > storeSize {
        return None;
      }
      var lengthBuf := files.ReadStore(position, 4);
      var length := Get(lengthBuf.value);
      var end := position + 4 + length;
      if end > storeSize {
        return None;
      }
      var data := files.ReadStore(position + 4, length);
      if codec.decode(data.value) == None {
        return None;
      }
      return Some(end);
    }

    method Append(e: LogEntry) returns (index: nat)
      requires Valid() && Storable(codec, entries + [e])
      modifies this, files
      ensures Valid() && entries == old(entries) + [e] && index == |old(entries)|
      ensures CrashesTo(old(files.crashes), old(entries), entries)
    {
      hide Storable, RoundTrips, Recovered, Image, Store, Index, WriteAt, StoreCrashes, IndexCrashes;
      ghost var was := entries;
      ImageParts(codec, was);
      AppendWrites(codec, was, e);
      AppendRecovers(codec, was, e);
      var data := codec.encode(e);
      var position := sSize;
      var record := PutUint32(|data|) + data;
      files.WriteStore(record);
      var indexPosition := PutUint64(position);
      files.WriteIndex(indexPosition);
      sSize := sSize + |record|;
      index := count;
      count := count + 1;
      entries := entries + [e];
      ImageParts(codec, entries);
    }

    /** Get: the entry at an index, or an error when there is none. */
    method Fetch(i: int) returns (r: Option<LogEntry>)
      requires Valid()
      ensures r == if 0 <= i < |entries| then Some(entries[i]) else None
    {
      if i < 0 || i >= count {
        return None;
      }
      var position := PositionOf(i);
      r := ReadAtPosition(position.value, i);
    }

    method LastIndex() returns (i: int)
      requires Valid()
      ensures i == |entries| - 1
    {
      if count == 0 {
        return -1;
      }
      return count - 1;
    }

    method LastTerm() returns (t: nat)
      requires Valid()
      ensures t == RaftTypes.LastTerm(entries)
    {
      if count == 0 {
        return 0;
      }
      var position := PositionOf(count - 1);
      var e := ReadAtPosition(position.value, count - 1);
      return e.value.term;
    }

    /** getPosition */
    method PositionOf(i: int) returns (r: Option<nat>)
      requires Valid()
      ensures r == if 0 <= i < |entries| then Some(Position(codec, entries, i)) else None
    {
      hide Storable, RoundTrips, Get, Position;
      if i < 0 || i >= count {
        return None;
      }
      IndexEntry(codec, entries, i);
      var buf := files.ReadIndex(8 * i, 8);
      r := Some(Get(buf.value));
    }

    /** readAtPosition */
    method ReadAtPosition(position: nat, ghost i: nat) returns (r: Option<LogEntry>)
      requires Valid() && i < |entries| && position == Position(codec, entries, i)
      ensures r == Some(entries[i])
    {
      hide Storable, Get, Position;
      StoreRecord(codec, entries, i);
      var lengthBuf := files.ReadStore(position, 4);
      var length := Get(lengthBuf.value);
      var data := files.ReadStore(position + 4, length);
      r := codec.decode(data.value);
    }

    method GetRange(start: int, end: int) returns (r: Option<Log>)
      requires Valid()
      ensures r == if 0 <= start <= end <= |entries| then Some(entries[start..end]) else None
    {
      if start < 0 || end < start || end > count {
        return None;
      }
      var es: Log := [];
      for i := start to end
        invariant es == entries[start..i]
      {
        var position := PositionOf(i);
        var e := ReadAtPosition(position.value, i);
        es := es + [e.value];
      }
      return Some(es);
    }

    method TruncateFrom(i: int) returns (ok: bool)
      requires Valid()
      modifies this, files
      ensures Valid() && ok == (0 <= i <= |old(entries)|)
      ensures entries == if ok then old(entries)[..i] else old(entries)
      ensures CrashesTo(old(files.crashes), old(entries), entries)
    {
      hide Storable, RoundTrips, Recovered, Image, Store, Index, Resize;
      if i < 0 {
        return false;
      }
      if i > count {
        return false;
      }
      if i == count {
        assert entries[..i] == entries;
        return true;
      }
      var newStoreSize := 0;
      if i > 0 {
        var position := PositionOf(i);
        newStoreSize := position.value;
      } else {
        StartsAtZero(codec, entries);
      }
      ghost var was := entries;
      ImageParts(codec, was);
      TruncateWrites(codec, was, i);
      assert newStoreSize == Position(codec, was, i);
      files.TruncateStore(newStoreSize);
      var newIndexSize := 8 * i;
      files.TruncateIndex(newIndexSize);
      files.SeekStore(newStoreSize);
      files.SeekIndex(newIndexSize);
      sSize := newStoreSize;
      count := i;
      entries := entries[..i];
      ImageParts(codec, entries);
      ok := true;
    }
  }

  // ---------------------------------------------------------------- opening

  lemma EmptyImage(c: Codec)
    ensures Image(c, []) == Disk([], []) && Storable(c, [])
  {
  }

  /** A log whose first k entries have the same files as all of it has no more than k. */
  lemma SameImage(c: Codec, es: Log, k: nat)
    requires Storable(c, es) && k <= |es| && Image(c, es) == Image(c, es[..k])
    ensures es[..k] == es
  {
    hide Storable, Store, Index;
    StorablePrefix(c, es, k);
    IndexPrefix(c, es, 0);
    IndexPrefix(c, es[..k], 0);
    assert |es[..k]| == |es|;
  }

  /** Recovery that leaves no index entry leaves nothing. */
  lemma RecoveredEmpty(c: Codec, d: Disk)
    requires |Recovered(c, d).index| == 0
    ensures Recovered(c, d) == Disk([], [])
  {
    hide ValidRecords, RecordEnd;
  }

  lemma NoEntries(c: Codec, es: Log)
    requires Storable(c, es) && |Image(c, es).index| == 0
    ensures es == []
  {
    hide Storable;
    IndexPrefix(c, es, 0);
  }

  // ---------------------------------------------------------------- what the writes amount to

  lemma ImageParts(c: Codec, es: Log)
    ensures Image(c, es) == Disk(Store(c, es), Index(c, es))
    ensures Storable(c, es) ==> |Index(c, es)| == 8 * |es| && |Store(c, es)| < TWO_64
  {
  }

  /** Writing the record and then its position at the ends of the files gives the files of the longer log. */
  lemma AppendWrites(c: Codec, es: Log, e: LogEntry)
    requires Storable(c, es + [e])
    ensures |c.encode(e)| < TWO_32 && |Store(c, es)| < TWO_64
    ensures var record := PutUint32(|c.encode(e)|) + c.encode(e);
            && Store(c, es + [e]) == Store(c, es) + record
            && WriteAt(Store(c, es), |Store(c, es)|, record) == Store(c, es + [e])
            && Index(c, es + [e]) == Index(c, es) + PutUint64(|Store(c, es)|)
            && WriteAt(Index(c, es), |Index(c, es)|, PutUint64(|Store(c, es)|)) == Index(c, es + [e])
  {
    var all := es + [e];
    assert all[..|es|] == es;
    assert all[|all| - 1] == e;
    AllFit(c, all);
    hide Storable, Store, Index, Get, PutUint32, PutUint64, Position, WriteAt;
    LastRecord(c, all);
    LastIndexEntry(c, all);
    PositionAt(c, all, |es|);
    var length, data := PutUint32(|c.encode(e)|), c.encode(e);
    assert Store(c, es) + length + data == Store(c, es) + (length + data);
    WriteAtEnd(Store(c, es), length + data);
    WriteAtEnd(Index(c, es), PutUint64(|Store(c, es)|));
  }

  lemma WriteAtEnd(b: Bytes, p: Bytes)
    ensures WriteAt(b, |b|, p) == b + p
  {
  }

  lemma AllFit(c: Codec, es: Log)
    requires Storable(c, es) && es != []
    ensures |c.encode(es[|es| - 1])| < TWO_32
  {
  }

  lemma PositionAt(c: Codec, es: Log, i: nat)
    requires i <= |es|
    ensures Position(c, es, i) == |Store(c, es[..i])|
  {
  }

  lemma AppendRecovers(c: Codec, es: Log, e: LogEntry)
    requires RoundTrips(c) && Storable(c, es + [e])
    requires |c.encode(e)| < TWO_32 && |Store(c, es)| < TWO_64
    ensures var record := PutUint32(|c.encode(e)|) + c.encode(e);
            forall d | d in StoreCrashes(Image(c, es), |Store(c, es)|, record)
                    || d in IndexCrashes(Disk(Store(c, es + [e]), Index(c, es)), |Index(c, es)|, PutUint64(|Store(c, es)|)) ::
              Recovered(c, d) == Image(c, es) || Recovered(c, d) == Image(c, es + [e])
  {
    hide RoundTrips, Storable, Recovered, Store, Index, PutUint32, PutUint64;
    AppendWrites(c, es, e);
    var record := PutUint32(|c.encode(e)|) + c.encode(e);
    forall d | d in StoreCrashes(Image(c, es), |Store(c, es)|, record)
            || d in IndexCrashes(Disk(Store(c, es + [e]), Index(c, es)), |Index(c, es)|, PutUint64(|Store(c, es)|))
      ensures Recovered(c, d) == Image(c, es) || Recovered(c, d) == Image(c, es + [e])
    {
      AppendCrash(c, es, e, d);
    }
  }

  /** Cutting the store at record i and the index at entry i gives the files of the shorter log, crash or no crash. */
  lemma TruncateWrites(c: Codec, es: Log, i: nat)
    requires RoundTrips(c) && Storable(c, es) && i < |es|
    ensures Storable(c, es[..i]) && |Store(c, es[..i])| == Position(c, es, i)
    ensures Resize(Store(c, es), Position(c, es, i)) == Store(c, es[..i])
    ensures Resize(Index(c, es), 8 * i) == Index(c, es[..i])
    ensures Recovered(c, Image(c, es)) == Image(c, es)
    ensures Recovered(c, Disk(Store(c, es[..i]), Index(c, es))) == Image(c, es[..i])
    ensures Recovered(c, Image(c, es[..i])) == Image(c, es[..i])
  {
    hide RoundTrips, Storable, Recovered, Store, Index;
    IndexPrefix(c, es, i);
    StorePrefix(c, es, i);
    StorablePrefix(c, es, i);
    TruncateCrash(c, es, i, Disk(Store(c, es[..i]), Index(c, es)));
    RecoveryIdempotent(c, es);
    RecoveryIdempotent(c, es[..i]);
  }

  // ---------------------------------------------------------------- what recovery does not look at

  lemma {:induction false} ValidInPrefix(c: Codec, d: Disk, j: nat, i: nat)
    requires i <= j && 8 * j <= |d.index| && ValidRecords(c, d, i) <= j
    ensures ValidRecords(c, Disk(d.store, d.index[..8 * j]), i) == ValidRecords(c, d, i)
    decreases j - i
  {
    hide Get, RecordEnd;
    var e := Disk(d.store, d.index[..8 * j]);
    if i < j {
      PrefixSlice(e.index, d.index, 8 * i, 8 * i + 8);
      if ValidRecords(c, d, i) != i {
        ValidInPrefix(c, d, j, i + 1);
      }
    }
  }

  /** Index entries from the first invalid one on make no difference. */
  lemma IndexTailIgnored(c: Codec, d: Disk, j: nat)
    requires 8 * j <= |d.index| && ValidRecords(c, d, 0) <= j
    ensures ValidRecords(c, Disk(d.store, d.index[..8 * j]), 0) == ValidRecords(c, d, 0)
    ensures Recovered(c, Disk(d.store, d.index[..8 * j])) == Recovered(c, d)
  {
    hide ValidRecords, RecordEnd, Get;
    ValidInPrefix(c, d, j, 0);
    var k := ValidRecords(c, d, 0);
    var e := Disk(d.store, d.index[..8 * j]);
    if k > 0 {
      ValidAt(c, d, 0, k - 1);
      PrefixSlice(e.index, d.index, 8 * (k - 1), 8 * (k - 1) + 8);
      assert e.index[..8 * k] == d.index[..8 * k];
    }
  }

  /** Cutting the files behind the last valid record is what recovery is defined to do. */
  lemma RecoverResult(c: Codec, d: Disk, end: nat)
    requires var n := ValidRecords(c, d, 0);
             if n == 0 then end == 0 else
             end <= |d.store| && (ValidAt(c, d, 0, n - 1); RecordEnd(c, d.store, IndexAt(d, n - 1)) == Some(end))
    ensures Disk(Resize(d.store, end), Resize(d.index, 8 * ValidRecords(c, d, 0))) == Recovered(c, d)
  {
  }

  lemma RecoveredAgain(c: Codec, es: Log, d: Disk)
    requires RoundTrips(c) && Storable(c, es) && TailLoss(c, es, d)
    ensures Recovered(c, Recovered(c, d)) == Recovered(c, d)
  {
    hide Recovered, Image;
    RecoveryKeepsWhole(c, es, d);
    StorablePrefix(c, es, Whole(c, es, d, |es|));
    RecoveryIdempotent(c, es[..Whole(c, es, d, |es|)]);
  }
}
