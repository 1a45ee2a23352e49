/** wal/log/log_store.go and wal/log/index.go: the two buffered files of a WAL segment. */
module WalStore {
  import opened RaftTypes
  import opened BigEndian
  import opened Records
  import opened WalFiles

  /** A file opened for appending, behind a bufio.Writer: `disk` is what the file holds, `buf` what is still buffered. */
  class BufferedFile {
    var disk: Bytes
    var buf: Bytes

    constructor (content: Bytes)
      ensures disk == content && buf == []
    {
      disk, buf := content, [];
    }

    /** All that was written, whether it has reached the file or not. */
    function Logical(): Bytes
      reads this
    {
      disk + buf
    }

    /** Buffers p. The buffer may spill to the file, in part or whole, at any point. */
    method Write(p: Bytes)
      modifies this
      ensures Logical() == old(Logical()) + p && old(disk) <= disk
    {
      var all := disk + buf + p;
      var spilled: nat :| |disk| <= spilled <= |all|;
      disk, buf := all[..spilled], all[spilled..];
    }

    method Flush()
      modifies this
      ensures disk == Logical() == old(Logical()) && buf == []
    {
      disk, buf := disk + buf, [];
    }

    /** ReadAt sees only what has reached the file. */
    method ReadAt(at: nat, n: nat) returns (r: Option<Bytes>)
      ensures r == if at + n <= |disk| then Some(disk[at..at + n]) else None
    {
      r := if at + n <= |disk| then Some(disk[at..at + n]) else None;
    }
  }

  /** `summed` is what the running checksum has taken in since it was last reset. */
  class LogStore {
    const out: BufferedFile
    const crc: Checksum
    var size: nat
    var summed: Bytes

    ghost predicate Valid()
      reads this, out
    {
      size == |out.Logical()| && summed == []
    }

    constructor (out: BufferedFile, crc: Checksum)
      requires out.buf == []
      ensures this.out == out && this.crc == crc && Valid()
    {
      this.out, this.crc, summed := out, crc, [];
      size := |out.disk|;
    }

    /** The frame of the record goes to the end of the store; a value whose length, cut to 32 bits, is too long is refused. */
    method Append(r: Record) returns (res: Option<(nat, nat)>)
      requires Valid()
      modifies this, out
      ensures Valid()
      ensures if |r.value| % TWO_32 <= 1_000_000
              then res == Some((HEADER + |r.value|, old(size))) && out.Logical() == old(out.Logical()) + StoreFrame(crc, r)
              else res == None && out.Logical() == old(out.Logical())
    {
      var msgLen := |r.value| % TWO_32;
      if msgLen > MAX_VALUE {
        return None;
      }
      var pos := size;
      var length := PutUint32(msgLen);
      summed := summed + length;
      summed := summed + r.value;
      var checksum := crc(summed);
      summed := [];
      var h := length + PutUint32(checksum) + PutUint64(r.timestamp) + PutUint64(r.offset);
      assert [] + length + r.value == length + r.value;
      assert h == Header(crc, r);
      out.Write(h);
      out.Write(r.value);
      var totalBytesWritten := 4 + 4 + 8 + 8 + |r.value|;
      size := size + totalBytesWritten;
      return Some((totalBytesWritten, pos));
    }

    /** The record at a position of all that was written, or an error when it is not whole or its checksum is wrong. */
    method Read(pos: nat) returns (r: Option<Record>)
      requires Valid()
      modifies out
      ensures Valid() && out.Logical() == old(out.Logical())
      ensures r == RecordAt(crc, out.Logical(), pos)
      ensures r.Some? <==> exists end :: FrameIn(crc, out.Logical(), pos, end)
      ensures r.Some? ==> ReadsAs(out.Logical(), pos, r.value)
    {
      ReadsIffChecked(crc, out.Logical(), pos);
      out.Flush();
      var header := out.ReadAt(pos, 24);
      if header == None {
        return None;
      }
      var h := header.value;
      GetFits(h[8..16]);
      GetFits(h[16..24]);
      var dataLen := Get(h[0..4]);
      var expectedChecksum := Get(h[4..8]);
      var timestamp := Get(h[8..16]);
      var offset := Get(h[16..24]);
      var data := out.ReadAt(pos + 24, dataLen);
      if data == None {
        return None;
      }
      var actualChecksum := crc(h[0..4] + data.value);
      if actualChecksum != expectedChecksum {
        return None;
      }
      return Some(Record([], data.value, timestamp, offset));
    }

    method Close()
      requires Valid()
      modifies out
      ensures Valid() && out.Logical() == old(out.Logical()) && out.buf == []
    {
      out.Flush();
    }
  }

  /** uint32 multiplication and addition. */
  function Wrap32(n: nat): uint32 {
    n % TWO_32
  }

  class Index {
    const out: BufferedFile
    var size: nat

    ghost predicate Valid()
      reads this, out
    {
      size == |out.Logical()|
    }

    constructor (out: BufferedFile)
      requires out.buf == []
      ensures this.out == out && Valid()
    {
      this.out := out;
      size := |out.disk|;
    }

    method Write(off: uint32, pos: uint64)
      requires Valid()
      modifies this, out
      ensures Valid() && out.Logical() == old(out.Logical()) + IndexEntry(off, pos)
    {
      out.Write(PutUint32(off));
      out.Write(PutUint64(pos));
      size := size + INDEX_ENTRY;
    }

    /** The position in entry `off`, with the arithmetic of the program: it wraps around at 2^32. */
    method Read(off: uint32) returns (pos: Option<nat>)
      requires Valid()
      modifies out
      ensures Valid() && out.Logical() == old(out.Logical())
      ensures var at := Wrap32(Wrap32(off * INDEX_ENTRY) + 4);
              pos == if at + 8 <= |out.Logical()| then Some(Get(out.Logical()[at..at + 8])) else None
    {
      out.Flush();
      var posInIndex: nat := Wrap32(off * INDEX_ENTRY);
      posInIndex := Wrap32(posInIndex + 4);
      var data := out.ReadAt(posInIndex, 8);
      if data == None {
        return None;
      }
      return Some(Get(data.value));
    }

    method Close()
      requires Valid()
      modifies out
      ensures Valid() && out.Logical() == old(out.Logical()) && out.buf == []
    {
      out.Flush();
    }
  }
}
