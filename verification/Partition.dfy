/** wal/log/partition.go: a Raft group that feeds a WAL. */
module Partition {
  import opened RaftTypes
  import opened RaftNode
  import opened RaftDisk
  import opened RaftStorage
  import opened RaftServer
  import opened StateFile
  import opened BigEndian
  import opened Records
  import opened WalFiles
  import opened Wal
  import opened Offsets
  import Cluster
  import Delivery

  /** Gob on records: decoding is some function of the bytes, which also stands for what a failed decoding leaves behind. */
  datatype RecordCodec = RecordCodec(encode: Record -> Bytes, decode: Bytes -> Record)

  ghost predicate DecodesBack(g: RecordCodec) {
    forall r: Record :: g.decode(g.encode(r)) == r
  }

  class Partition {
    const raft: Raft
    const wal: SegmentedLog
    const gob: RecordCodec

    ghost function RaftObjects(): set<object> {
      {raft, raft.log, raft.log.files, raft.disk}
    }

    ghost predicate Valid()
      reads this, RaftObjects(), wal, wal.Repr
    {
      raft.Valid() && wal.Valid() && RaftObjects() !! wal.Repr
    }

    /** WAL offset k holds the decoded command of Raft index k + 1, and the next entry to apply is the one after them. */
    ghost predicate InStep()
      reads RaftObjects(), wal
    {
      && raft.lastApplied == |wal.history| < |raft.log.entries|
      && forall k | 0 <= k < |wal.history| :: wal.history[k] == gob.decode(raft.log.entries[k + 1].command)
    }

    /** newPartition: Raft resumes applying where the reopened WAL ends. */
    constructor (id: NodeId, peers: set<NodeId>, log: RaftLog, disk: StateDir, gob: RecordCodec,
                 crc: Checksum, d: Directory, names: seq<nat>, ghost h: seq<Record>)
      requires log.Valid() && ValidId(id) && Loaded(disk.Disk()).Some?
      requires Clean(crc, d, h) && Distinct(names) && forall b :: b in names <==> b in d
      ensures Valid() && this.gob == gob && wal.history == h && raft.log == log && raft.disk == disk
      ensures var s := Loaded(disk.Disk()).value;
              raft.View() == Restarted(s.currentTerm, VoteOf(s.votedFor), log.entries, |h|)
      ensures raft.state == Follower && raft.lastApplied == raft.commitIndex == |h|
      ensures |h| < |log.entries| && (forall k | 0 <= k < |h| :: h[k] == gob.decode(log.entries[k + 1].command)) ==> InStep()
    {
      hide SegmentedLog.Valid, Raft.Valid, Clean, Distinct, Storable, RoundTrips, SegmentedLog.Covers, InDirectory, Sort, BasesOf, EndsOf, Holds, InOrder, Image;
      var w := new SegmentedLog(crc, d, names, h);
      var r := new Raft(id, peers, log, disk);
      var next := w.NextOffset();
      r.SetLastApplied(next);
      raft, wal := r, w;
      this.gob := gob;
    }

    /** Append: encodes the record and submits it; true as soon as the leader has it in its own log. */
    method Append(record: Record) returns (ok: bool)
      requires Valid() && Storable(raft.log.codec, raft.log.entries + [LogEntry(raft.term, gob.encode(record))])
      modifies raft.log, raft.log.files, raft`crashes
      ensures Valid() && raft.View() == Submit(old(raft.View()), gob.encode(record)) && ok == (raft.state == Leader)
      ensures raft.log.entries == old(raft.log.entries) + if ok then [LogEntry(raft.term, gob.encode(record))] else []
      ensures wal.history == old(wal.history)
    {
      hide Storable, RoundTrips;
      ok := raft.Submit(gob.encode(record));
    }

    /** One message in applyLoop: the dummy is skipped, a record that the store refuses is dropped. */
    method Apply(m: ApplyMessage)
      requires Valid() && |gob.decode(m.command).value| < TWO_32
      modifies wal.Repr
      ensures Valid() && wal.history == Cluster.Applied(gob.decode, old(wal.history), m)
      ensures var record := gob.decode(m.command);
              wal.history == old(wal.history) + if m.index != 0 && |record.value| <= 1_000_000 then [record] else []
      ensures fresh(wal.Repr - old(wal.Repr))
    {
      hide Raft.Valid, RaftLog.Valid, SegmentedLog.Valid, SegmentedLog.Covers;
      if m.index == 0 {
        return;
      }
      var record := gob.decode(m.command);
      var _ := wal.Append(record);
    }

    /** applyLoop, on the messages that come out of the channel. */
    method ApplyLoop(ms: seq<ApplyMessage>)
      requires Valid() && forall i | 0 <= i < |ms| :: |gob.decode(ms[i].command).value| < TWO_32
      modifies wal.Repr
      ensures Valid() && wal.history == Delivery.AppliedAll(gob.decode, old(wal.history), ms)
    {
      hide Raft.Valid, RaftLog.Valid, SegmentedLog.Valid, SegmentedLog.Covers, Cluster.Applied;
      assert ms[..0] == [];
      for i := 0 to |ms|
        invariant Valid() && fresh(wal.Repr - old(wal.Repr))
        invariant wal.history == Delivery.AppliedAll(gob.decode, old(wal.history), ms[..i])
      {
        assert ms[..i + 1][..i] == ms[..i];
        Apply(ms[i]);
      }
      assert ms[..|ms|] == ms;
    }

    /**
     One round of ApplyLoop and of applyLoop: the next committed entry, if there is one, becomes the next record. WAL
     offsets stay in step with Raft indices if and only if there was none or the store accepts it.
     */
    method ApplyNext() returns (applied: bool)
      requires Valid() && InStep() && raft.commitIndex < |raft.log.entries|
      requires CanApply(raft.View()) ==> |gob.decode(raft.log.entries[raft.lastApplied + 1].command).value| < TWO_32
      modifies raft`lastApplied, wal.Repr
      ensures Valid() && applied == (old(raft.lastApplied) < raft.commitIndex)
      ensures if applied then
                var (r, m) := RaftNode.ApplyNext(old(raft.View()));
                && raft.View() == r && wal.history == Cluster.Applied(gob.decode, old(wal.history), m)
                && (InStep() <==> Fits(gob.decode(m.command)))
              else raft.View() == old(raft.View()) && wal.history == old(wal.history) && InStep()
      ensures fresh(wal.Repr - old(wal.Repr))
    {
      hide Raft.Valid, RaftLog.Valid, SegmentedLog.Valid, SegmentedLog.Covers;
      var m := raft.NextToApply();
      if m.Some? {
        Apply(m.value);
      }
      return m.Some?;
    }

    /** Read: what the WAL has under an offset is what the cluster committed one index further, as the store keeps it. */
    method Read(offset: nat) returns (r: Option<Record>)
      requires Valid() && InStep()
      modifies wal.Repr
      ensures Valid() && InStep()
      ensures wal.Covers(offset) ==> offset + 1 < |raft.log.entries|
      ensures r == if wal.Covers(offset) then Some(Stored(gob.decode(raft.log.entries[offset + 1].command))) else None
      ensures forall record: Record | DecodesBack(gob) && wal.Covers(offset) && raft.log.entries[offset + 1].command == gob.encode(record) ::
                r == Some(Stored(record))
    {
      r := wal.Read(offset);
    }
  }
}
