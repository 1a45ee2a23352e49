/** wal/log/segment.go: a store and an index kept in step. */
module WalSegment {
  import opened RaftTypes
  import opened BigEndian
  import opened Records
  import opened WalFiles
  import opened WalStore

  /** What the store and the index file of a segment hold. */
  datatype Files = Files(store: Bytes, index: Bytes)

  /** The files of a segment with these records, closed. */
  function FilesOf(crc: Checksum, rs: seq<Record>): Files
    requires AllFit(rs) && |rs| <= TWO_32 && StorePosition(rs, |rs|) < TWO_64
  {
    Files(StoreBytes(crc, rs), IndexBytes(rs))
  }

  /** As many records as fit a segment. */
  ghost predicate Fit(rs: seq<Record>) {
    Within(rs) && |rs| <= TWO_32 && StorePosition(rs, |rs|) < TWO_64
  }

  class Segment {
    const store: LogStore
    const index: Index
    const baseOff: nat
    var nextOff: nat
    ghost var records: seq<Record>

    ghost function Footprint(): set<object> {
      {this, store, store.out, index, index.out}
    }

    /** The store and the index hold exactly the records, and nextOff counts them. */
    ghost predicate Valid()
      reads this, store, store.out, index, index.out
    {
      && store.out != index.out
      && store.Valid() && index.Valid()
      && Fit(records)
      && store.out.Logical() == StoreBytes(store.crc, records)
      && index.out.Logical() == IndexBytes(records)
      && nextOff == baseOff + |records|
    }

    ghost predicate Closed()
      reads store, store.out, index, index.out
    {
      store.out.buf == [] && index.out.buf == []
    }

    ghost function OnDisk(): Files
      reads store, store.out, index, index.out
    {
      Files(store.out.disk, index.out.disk)
    }

    /** newSegment: opens the files of a segment, whatever they hold; nextOff follows from the size of the index. */
    constructor (baseOff: nat, files: Files, crc: Checksum, ghost rs: seq<Record>)
      ensures this.baseOff == baseOff && store.crc == crc && records == rs && fresh(Footprint())
      ensures nextOff == baseOff + |files.index| / INDEX_ENTRY && OnDisk() == files && Closed()
      ensures Fit(rs) && files == FilesOf(crc, rs) ==> Valid() && nextOff == baseOff + |rs|
    {
      hide StoreBytes, IndexBytes, Fit;
      var storeFile := new BufferedFile(files.store);
      var s := new LogStore(storeFile, crc);
      var indexFile := new BufferedFile(files.index);
      var i := new Index(indexFile);
      this.baseOff := baseOff;
      store, index := s, i;
      var indexEntries := i.size / 12;
      nextOff := baseOff + indexEntries;
      records := rs;
    }

    method Append(r: Record) returns (off: Option<nat>)
      requires Valid() && |r.value| < TWO_32 && StorePosition(records, |records|) < MAX_STORE_BYTES
      modifies this, store, store.out, index, index.out
      ensures Valid()
      ensures off == if Fits(r) then Some(old(nextOff)) else None
      ensures records == if Fits(r) then old(records) + [r] else old(records)
      ensures nextOff == baseOff + |records|
    {
      hide StoreBytes, IndexBytes, StoreFrame, IndexEntry, Fit;
      FitBounds(store.crc, records);
      var offset := nextOff;
      var res := store.Append(r);
      if res == None {
        return None;
      }
      var pos := res.value.1;
      var relOff := Wrap32(offset - baseOff);
      index.Write(relOff, pos);
      nextOff := nextOff + 1;
      AppendFits(store.crc, records, r);
      records := records + [r];
      return Some(offset);
    }

    /** The record at an offset, as the store keeps it, if the segment covers the offset. */
    method Read(offset: nat) returns (r: Option<Record>)
      requires Valid()
      modifies store.out, index.out
      ensures Valid()
      ensures r == if baseOff <= offset < nextOff then Some(Stored(records[offset - baseOff])) else None
    {
      hide StoreBytes, IndexBytes, RecordAt, Get, Fit, StorePosition;
      if offset < baseOff || offset >= nextOff {
        return None;
      }
      FitBounds(store.crc, records);
      IndexReads(records, offset - baseOff);
      StoreReads(store.crc, records, offset - baseOff);
      var relOff := Wrap32(offset - baseOff);
      assert relOff == offset - baseOff && relOff * INDEX_ENTRY + 4 < TWO_32;
      var pos := index.Read(relOff);
      if pos == None {
        return None;
      }
      r := store.Read(pos.value);
    }

    method IsMaxed() returns (b: bool)
      requires Valid()
      ensures b == (StorePosition(records, |records|) >= 16_777_216)
    {
      StoreLength(store.crc, records);
      b := store.size >= MAX_STORE_BYTES;
    }

    method Flush()
      requires Valid()
      modifies store.out, index.out
      ensures Valid() && Closed()
    {
      index.out.Flush();
      store.out.Flush();
    }

    method Close()
      requires Valid()
      modifies store.out, index.out
      ensures Valid() && Closed() && OnDisk() == FilesOf(store.crc, records)
    {
      index.Close();
      store.Close();
      assert store.out.disk == store.out.Logical() && index.out.disk == index.out.Logical();
    }
  }

  lemma FitBounds(crc: Checksum, rs: seq<Record>)
    requires Fit(rs)
    ensures AllFit(rs) && |rs| <= 699_051 && StorePosition(rs, |rs|) <= 17_777_239
    ensures |StoreBytes(crc, rs)| == StorePosition(rs, |rs|)
  {
    SegmentBounds(rs);
    StoreLength(crc, rs);
  }

  /** One more record, while the store is below its limit, keeps a segment within its bounds. */
  lemma AppendFits(crc: Checksum, rs: seq<Record>, r: Record)
    requires Fit(rs) && Fits(r) && StorePosition(rs, |rs|) < MAX_STORE_BYTES
    ensures var all := rs + [r];
            && Fit(all) && StorePosition(rs, |rs|) < TWO_64
            && StoreBytes(crc, all) == StoreBytes(crc, rs) + StoreFrame(crc, r)
            && |rs| < TWO_32
            && IndexBytes(all) == IndexBytes(rs) + IndexEntry(|rs|, StorePosition(rs, |rs|))
  {
    hide StoreBytes, IndexBytes, StoreFrame, IndexEntry, StorePosition, Within, AllFit;
    WithinGrows(rs, r);
    SegmentBounds(rs);
    SegmentBounds(rs + [r]);
    StoreGrows(crc, rs, r);
    IndexGrows(rs, r);
  }

  lemma WithinGrows(rs: seq<Record>, r: Record)
    requires Within(rs) && Fits(r) && StorePosition(rs, |rs|) < MAX_STORE_BYTES
    ensures Within(rs + [r]) && AllFit(rs)
  {
    hide StorePosition, Fits;
    var all := rs + [r];
    SamePosition(rs, all, |rs|);
    assert |all| - 1 == |rs|;
    assert AllFit(all);
  }

  lemma StoreGrows(crc: Checksum, rs: seq<Record>, r: Record)
    requires AllFit(rs) && Fits(r)
    ensures AllFit(rs + [r]) && StoreBytes(crc, rs + [r]) == StoreBytes(crc, rs) + StoreFrame(crc, r)
  {
    hide StoreFrame, Fits;
    assert (rs + [r])[..|rs|] == rs;
  }

  lemma IndexGrows(rs: seq<Record>, r: Record)
    requires |rs| < TWO_32 && StorePosition(rs + [r], |rs| + 1) < TWO_64
    ensures StorePosition(rs, |rs|) < TWO_64
    ensures IndexBytes(rs + [r]) == IndexBytes(rs) + IndexEntry(|rs|, StorePosition(rs, |rs|))
  {
    hide IndexEntry;
    assert (rs + [r])[..|rs|] == rs;
    PositionFront(rs + [r], |rs|);
  }
}
