/** What a record that is too long for the store does to a broker: a run of three nodes that stores another one twice. */
module OversizedRecords {
  import opened RaftTypes
  import opened RaftNode
  import opened Cluster
  import opened Scenarios
  import Delivery

  /** The three steps by which node n takes its next committed entry to its WAL. */
  lemma TakeOne(c: Config, g: Checks, s: State, n: NodeId) returns (t: State)
    requires Reachable(c, g, s) && n in s.procs && CanApply(s.procs[n].raft)
    requires s.procs[n].sending == None && s.procs[n].received == None
    ensures Reachable(c, g, t)
    ensures var p := s.procs[n];
            var (r, m) := ApplyNext(p.raft);
            t == With(s, n, p.(raft := r, wal := Applied(c.decode, p.wal, m)))
  {
    hide Applied, Reachable;
    ReachableNext(c, g, s, SendApply(n));
    var s1 := Next(c, s, SendApply(n));
    ReachableNext(c, g, s1, ReceiveApply(n));
    var s2 := Next(c, s1, ReceiveApply(n));
    ReachableNext(c, g, s2, AppendToWal(n));
    t := Next(c, s2, AppendToWal(n));
  }

  /** A request by which a leader of term 1 tells n that the last entry of this log is committed. */
  ghost predicate Announces(s: State, n: NodeId, log: Log, m: Message) {
    && m in s.net && m.AppendRequest? && m.to == n && m.epoch == 0 && m.term == 1
    && log != [] && m.body.prev == |log| - 1 && m.body.prevTerm == LastTerm(log) && m.body.entries == []
    && m.body.leaderCommit >= |log| - 1
  }

  /** a leads term 1, takes in two entries, has x take them in, and tells x that they are committed. */
  lemma CommitTwo(c: Config, g: Checks, a: NodeId, x: NodeId, y: NodeId, log: Log) returns (t: State, m: Message)
    requires Three(c, a, x, y) && |log| == 3 && log[0] == DUMMY && log[1].term == log[2].term == 1
    ensures Live(c, g, t) && Up(t, x, 1, log) && Announces(t, x, log, m)
  {
    hide Reachable, New;
    var s1 := FirstTerm(c, g, a, x, y, log[1], log[2]);
    assert [DUMMY, log[1], log[2]] == log;
    var s2 := Replicate(c, g, s1, a, x, 1, 0, log, {});
    var s3 := Beat(c, g, s2, a);
    t, m := Send(c, g, s3, a, x, 1);
  }

  /** x hears of the commitment. */
  lemma Hears(c: Config, g: Checks, s: State, x: NodeId, log: Log, m: Message) returns (t: State)
    requires Reachable(c, g, s) && x in s.procs && Announces(s, x, log, m)
    requires s.procs[x].raft.log == log && s.procs[x].raft.term == 1
    ensures Reachable(c, g, t) && m in t.net && x in t.procs
    ensures var p, q := s.procs[x], t.procs[x];
            && q == p.(raft := q.raft) && q.raft.log == log && q.raft.term == 1
            && q.raft.lastApplied == p.raft.lastApplied && q.raft.commitIndex >= |log| - 1
  {
    hide Reachable;
    ReachableNext(c, g, s, DeliverAppend(m));
    t := Next(c, s, DeliverAppend(m));
  }

  lemma Restart(c: Config, g: Checks, s: State, n: NodeId, offset: nat) returns (t: State)
    requires Reachable(c, g, s) && n in s.procs && offset <= |s.procs[n].wal|
    ensures Reachable(c, g, t)
    ensures var p := s.procs[n]; t == With(s, n, Reboot(p, p.raft.term, p.raft.votedFor, p.raft.log, offset))
  {
    hide Reachable;
    ReachableNext(c, g, s, CrashRestart(n, offset));
    t := Next(c, s, CrashRestart(n, offset));
  }

  /**
   After a record that does not fit was dropped, a restart takes the number of records in the WAL for the number of
   entries applied, and the entry after it is stored twice. All checks on terms are kept to.
   */
  lemma OversizedRecordRepeats(c: Config, a: NodeId, x: NodeId, y: NodeId, big: Bytes, small: Bytes) returns (s: State)
    requires Three(c, a, x, y) && !Delivery.CommandFits(c, big) && Delivery.CommandFits(c, small)
    ensures Reachable(c, Checks(true, true), s) && x in s.procs
    ensures s.procs[x].raft.log == [DUMMY, LogEntry(1, big), LogEntry(1, small)]
    ensures s.procs[x].wal == [c.decode(small), c.decode(small)]
  {
    hide Reachable;
    var g := Checks(true, true);
    var log := [DUMMY, LogEntry(1, big), LogEntry(1, small)];
    var s1, m := CommitTwo(c, g, a, x, y, log);
    var s2 := Hears(c, g, s1, x, log, m);
    s := Repeats(c, g, s2, x, big, small, m);
  }

  lemma Repeats(c: Config, g: Checks, s: State, x: NodeId, big: Bytes, small: Bytes, m: Message) returns (t: State)
    requires Reachable(c, g, s) && !Delivery.CommandFits(c, big) && Delivery.CommandFits(c, small)
    requires var log := [DUMMY, LogEntry(1, big), LogEntry(1, small)];
             Announces(s, x, log, m) && Up(s, x, 1, log)
    requires var p := s.procs[x];
             && p.wal == [] && p.sending == None && p.received == None
             && p.raft.lastApplied == 0 && p.raft.commitIndex >= 2
    ensures Reachable(c, g, t) && x in t.procs && t.procs[x].raft.log == s.procs[x].raft.log
    ensures t.procs[x].wal == [c.decode(small), c.decode(small)]
  {
    hide Reachable;
    var s1 := TakeOne(c, g, s, x);
    var s2 := TakeOne(c, g, s1, x);
    var s3 := Restart(c, g, s2, x, 1);
    var s4 := Hears(c, g, s3, x, s.procs[x].raft.log, m);
    t := TakeOne(c, g, s4, x);
  }
}
