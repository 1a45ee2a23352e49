/** The store and index file of a WAL segment: their bytes for given records, and how a record is read back. */
module WalFiles {
  import opened RaftTypes
  import opened BigEndian
  import opened Records
  import opened Slices

  /** CRC32, as some function of the bytes. */
  type Checksum = Bytes -> uint32

  const HEADER := 24
  const INDEX_ENTRY := 12

  /** maxStoreBytes: a segment whose store has reached this size takes no more records. */
  const MAX_STORE_BYTES := 16 * 1024 * 1024

  /** What the store keeps of a record: not its key. */
  function Stored(r: Record): Record {
    r.(key := [])
  }

  ghost predicate AllFit(rs: seq<Record>) {
    forall i | 0 <= i < |rs| :: Fits(rs[i])
  }

  /** The length is cut to 32 bits. */
  function Header(crc: Checksum, r: Record): (h: Bytes)
    ensures |h| == HEADER
  {
    var length := PutUint32(|r.value| % TWO_32);
    length + PutUint32(crc(length + r.value)) + PutUint64(r.timestamp) + PutUint64(r.offset)
  }

  function StoreFrame(crc: Checksum, r: Record): Bytes {
    Header(crc, r) + r.value
  }

  function StoreBytes(crc: Checksum, rs: seq<Record>): Bytes
    requires AllFit(rs)
  {
    if rs == [] then [] else StoreBytes(crc, rs[..|rs| - 1]) + StoreFrame(crc, rs[|rs| - 1])
  }

  /** Where record i starts; for i == |rs|, where the store ends. It does not depend on the checksum. */
  function StorePosition(rs: seq<Record>, i: nat): nat
    requires i <= |rs|
  {
    if i == 0 then 0 else StorePosition(rs, i - 1) + HEADER + |rs[i - 1].value|
  }

  function IndexEntry(i: nat, pos: nat): (b: Bytes)
    requires i < TWO_32 && pos < TWO_64
    ensures |b| == INDEX_ENTRY
  {
    PutUint32(i) + PutUint64(pos)
  }

  /** The index of n records starting at these positions. */
  function IndexBytes(rs: seq<Record>): (b: Bytes)
    requires |rs| <= TWO_32 && StorePosition(rs, |rs|) < TWO_64
    ensures |b| == INDEX_ENTRY * |rs|
  {
    if rs == [] then [] else
      var n := |rs| - 1;
      PositionFront(rs, n);
      IndexBytes(rs[..n]) + IndexEntry(n, StorePosition(rs, n))
  }

  lemma {:induction false} PositionFront(rs: seq<Record>, i: nat)
    requires i < |rs|
    ensures forall k: nat | k <= i :: StorePosition(rs[..i], k) == StorePosition(rs, k)
    ensures StorePosition(rs, i) <= StorePosition(rs, |rs|)
  {
    forall k: nat | k <= i ensures StorePosition(rs[..i], k) == StorePosition(rs, k) { SamePosition(rs[..i], rs, k); }
    PositionsGrow(rs, i, |rs|);
  }

  lemma {:induction false} SamePosition(a: seq<Record>, b: seq<Record>, k: nat)
    requires a <= b && k <= |a|
    ensures StorePosition(a, k) == StorePosition(b, k)
  {
    if k > 0 { SamePosition(a, b, k - 1); }
  }

  lemma {:induction false} PositionsGrow(rs: seq<Record>, i: nat, j: nat)
    requires i <= j <= |rs|
    ensures StorePosition(rs, i) + HEADER * (j - i) <= StorePosition(rs, j)
    decreases j
  {
    if i < j { PositionsGrow(rs, i, j - 1); }
  }

  // ---------------------------------------------------------------- the size of a segment

  /** Every record was appended while the store was below its limit. */
  ghost predicate Within(rs: seq<Record>) {
    && AllFit(rs)
    && (rs != [] ==> StorePosition(rs, |rs| - 1) < MAX_STORE_BYTES)
  }

  /** Rotation keeps the uint32 arithmetic of the index exact. */
  lemma SegmentBounds(rs: seq<Record>)
    requires Within(rs)
    ensures |rs| <= 699_051 && StorePosition(rs, |rs|) <= 17_777_239
    ensures forall i: nat | i <= |rs| :: i * INDEX_ENTRY + 4 < TWO_32
  {
    if rs != [] {
      PositionsGrow(rs, 0, |rs| - 1);
    }
  }

  // ---------------------------------------------------------------- reading back

  lemma {:induction false} StoreLength(crc: Checksum, rs: seq<Record>)
    requires AllFit(rs)
    ensures |StoreBytes(crc, rs)| == StorePosition(rs, |rs|)
  {
    if rs != [] {
      StoreLength(crc, rs[..|rs| - 1]);
      SamePosition(rs[..|rs| - 1], rs, |rs| - 1);
    }
  }

  lemma {:induction false} StorePrefix(crc: Checksum, rs: seq<Record>, i: nat)
    requires AllFit(rs) && i <= |rs|
    ensures StoreBytes(crc, rs[..i]) <= StoreBytes(crc, rs)
    decreases |rs|
  {
    if i < |rs| {
      var front := rs[..|rs| - 1];
      assert front[..i] == rs[..i];
      StorePrefix(crc, front, i);
    } else {
      assert rs[..i] == rs;
    }
  }

  lemma {:induction false} IndexPrefix(rs: seq<Record>, i: nat)
    requires |rs| <= TWO_32 && StorePosition(rs, |rs|) < TWO_64 && i <= |rs|
    ensures StorePosition(rs[..i], i) < TWO_64 && IndexBytes(rs[..i]) <= IndexBytes(rs)
    decreases |rs|
  {
    SamePosition(rs[..i], rs, i);
    PositionsGrow(rs, i, |rs|);
    if i < |rs| {
      var front := rs[..|rs| - 1];
      PositionFront(rs, |rs| - 1);
      assert front[..i] == rs[..i];
      IndexPrefix(front, i);
    } else {
      assert rs[..i] == rs;
    }
  }

  /** logStore.Read on the bytes of a file: the record at a position, if it is whole and its checksum is right. */
  function RecordAt(crc: Checksum, b: Bytes, pos: nat): Option<Record> {
    if pos + HEADER > |b| then None
    else
      var h := b[pos..pos + HEADER];
      var length := Get(h[0..4]);
      if pos + HEADER + length > |b| then None
      else
        var data := b[pos + HEADER..pos + HEADER + length];
        GetFits(h[8..16]);
        GetFits(h[16..24]);
        if crc(h[0..4] + data) != Get(h[4..8]) then None
        else Some(Record([], data, Get(h[8..16]), Get(h[16..24])))
  }

  /** The bytes from pos to end are a header and a value of the length it says, with the checksum it says. */
  ghost predicate FrameIn(crc: Checksum, b: Bytes, pos: nat, end: nat) {
    && pos + 24 <= end <= |b|
    && end - pos - 24 == Get(b[pos..pos + 4])
    && crc(b[pos..pos + 4] + b[pos + 24..end]) == Get(b[pos + 4..pos + 8])
  }

  /** What is read of a frame: the value, and the timestamp and offset of its header; the key is not stored. */
  ghost predicate ReadsAs(b: Bytes, pos: nat, r: Record) {
    && r.key == [] && pos + 24 + |r.value| <= |b| && r.value == b[pos + 24..pos + 24 + |r.value|]
    && |r.value| == Get(b[pos..pos + 4]) && r.timestamp == Get(b[pos + 8..pos + 16]) && r.offset == Get(b[pos + 16..pos + 24])
  }

  /** A frame is read exactly when it is whole and its checksum is right, so no flipped byte goes unnoticed by the checksum. */
  lemma ReadsIffChecked(crc: Checksum, b: Bytes, pos: nat)
    ensures RecordAt(crc, b, pos).Some? <==> exists end :: FrameIn(crc, b, pos, end)
    ensures RecordAt(crc, b, pos).Some? ==> ReadsAs(b, pos, RecordAt(crc, b, pos).value)
  {
    hide Get;
    if pos + 24 <= |b| {
      var h := b[pos..pos + 24];
      assert h[0..4] == b[pos..pos + 4] && h[4..8] == b[pos + 4..pos + 8];
      assert h[8..16] == b[pos + 8..pos + 16] && h[16..24] == b[pos + 16..pos + 24];
      if RecordAt(crc, b, pos).Some? {
        assert FrameIn(crc, b, pos, pos + 24 + Get(h[0..4]));
      }
    }
  }

  lemma HeaderFields(crc: Checksum, r: Record)
    requires |r.value| < TWO_32
    ensures var h, length := Header(crc, r), PutUint32(|r.value|);
            && h[0..4] == length && Get(h[0..4]) == |r.value|
            && Get(h[4..8]) == crc(length + r.value)
            && Get(h[8..16]) == r.timestamp && Get(h[16..24]) == r.offset
  {
    hide Get;
    var length := PutUint32(|r.value|);
    var sum := PutUint32(crc(length + r.value));
    var ts, off := PutUint64(r.timestamp), PutUint64(r.offset);
    var h := Header(crc, r);
    assert h == length + sum + ts + off;
    assert h[0..4] == length && h[4..8] == sum && h[8..16] == ts && h[16..24] == off;
  }

  /** What was framed at the end of a prefix of the file reads back as it was stored. */
  lemma FrameReads(crc: Checksum, b: Bytes, pos: nat, r: Record)
    requires |r.value| < TWO_32 && pos + HEADER + |r.value| <= |b|
    requires b[pos..pos + HEADER + |r.value|] == StoreFrame(crc, r)
    ensures RecordAt(crc, b, pos) == Some(Stored(r))
  {
    hide Get, Header;
    HeaderFields(crc, r);
    var f := StoreFrame(crc, r);
    assert f[0..HEADER] == Header(crc, r);
    assert f[HEADER..HEADER + |r.value|] == r.value;
    assert b[pos..pos + HEADER] == f[0..HEADER];
    assert b[pos + HEADER..pos + HEADER + |r.value|] == f[HEADER..HEADER + |r.value|];
  }

  /** Record i of a store is at its position. */
  lemma StoreHolds(crc: Checksum, rs: seq<Record>, i: nat)
    requires AllFit(rs) && i < |rs|
    ensures |StoreBytes(crc, rs[..i])| == StorePosition(rs, i) && Fits(rs[i])
    ensures StoreBytes(crc, rs[..i]) + StoreFrame(crc, rs[i]) <= StoreBytes(crc, rs)
  {
    hide StoreFrame, StorePosition, Fits;
    assert rs[..i + 1][..i] == rs[..i];
    StorePrefix(crc, rs, i + 1);
    StoreLength(crc, rs[..i]);
    SamePosition(rs[..i], rs, i);
  }

  /** And it reads back as it was stored. */
  lemma StoreReads(crc: Checksum, rs: seq<Record>, i: nat)
    requires AllFit(rs) && i < |rs|
    ensures RecordAt(crc, StoreBytes(crc, rs), StorePosition(rs, i)) == Some(Stored(rs[i]))
  {
    hide RecordAt, StoreBytes, StoreFrame, StorePosition, Stored;
    StoreHolds(crc, rs, i);
    ReadsInside(crc, StoreBytes(crc, rs[..i]), rs[i], StoreBytes(crc, rs));
  }

  lemma ReadsInside(crc: Checksum, front: Bytes, r: Record, b: Bytes)
    requires |r.value| < TWO_32 && front + StoreFrame(crc, r) <= b
    ensures RecordAt(crc, b, |front|) == Some(Stored(r))
  {
    hide RecordAt, StoreFrame, Stored;
    FrameLength(crc, r);
    InsidePrefix(front, StoreFrame(crc, r), b);
    FrameReads(crc, b, |front|, r);
  }

  lemma FrameLength(crc: Checksum, r: Record)
    ensures |StoreFrame(crc, r)| == HEADER + |r.value|
  {
  }

  /** Entry i of an index is about record i. */
  lemma IndexHolds(rs: seq<Record>, i: nat)
    requires |rs| <= TWO_32 && StorePosition(rs, |rs|) < TWO_64 && i < |rs|
    ensures StorePosition(rs, i) < TWO_64 && StorePosition(rs[..i], i) < TWO_64
    ensures IndexBytes(rs[..i]) + IndexEntry(i, StorePosition(rs, i)) <= IndexBytes(rs)
  {
    hide IndexEntry;
    var upTo := rs[..i + 1];
    assert upTo[..i] == rs[..i];
    IndexPrefix(rs, i + 1);
    PositionFront(rs, i);
    PositionFront(upTo, i);
    SamePosition(upTo, rs, i);
    hide StorePosition;
  }

  /** Entry i of an index holds i and the position of record i. */
  lemma IndexReads(rs: seq<Record>, i: nat)
    requires |rs| <= TWO_32 && StorePosition(rs, |rs|) < TWO_64 && i < |rs|
    ensures var at := 12 * i;
            && at + 12 <= |IndexBytes(rs)|
            && Get(IndexBytes(rs)[at..at + 4]) == i && Get(IndexBytes(rs)[at + 4..at + 12]) == StorePosition(rs, i)
  {
    hide Get, IndexBytes, StorePosition;
    IndexHolds(rs, i);
    EntryEnds(IndexBytes(rs[..i]), i, StorePosition(rs, i));
    InsidePrefix(IndexBytes(rs[..i]) + PutUint32(i), PutUint64(StorePosition(rs, i)), IndexBytes(rs));
    InsidePrefix(IndexBytes(rs[..i]), PutUint32(i), IndexBytes(rs));
  }

  lemma EntryEnds(front: Bytes, i: nat, pos: nat)
    requires i < TWO_32 && pos < TWO_64
    ensures front + IndexEntry(i, pos) == front + PutUint32(i) + PutUint64(pos)
  {
    hide Get;
  }
}
