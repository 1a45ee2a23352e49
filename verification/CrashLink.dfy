/**
 The crashes of the Raft object are crashes of the cluster model: whatever a crash inside one of its handlers leaves in
 the files, the model has an event that restarts the node with that, and starting the object on the files does the same.
 */
module CrashLink {
  import opened RaftTypes
  import opened RaftNode
  import opened RaftDisk
  import opened RaftStorage
  import opened StateFile
  import opened RaftServer
  import opened Cluster
  import opened ClusterSafety

  /** A crash in state s brings node n back with m, and `offset` records in its WAL. */
  ghost predicate RebootsTo(c: Config, s: State, n: NodeId, m: Remembered, offset: nat) {
    exists e :: RebootsBy(c, s, e, n, m, offset)
  }

  ghost predicate RebootsBy(c: Config, s: State, e: Event, n: NodeId, m: Remembered, offset: nat) {
    && n in s.procs && Enabled(c, s, e) && Restarts(e, n) && n in Next(c, s, e).procs
    && Next(c, s, e).procs[n].raft == Restarted(m.term, m.votedFor, m.log, offset)
  }

  /** Between two handlers a node comes back with what it has. */
  lemma CrashAtRest(c: Config, s: State, n: NodeId, offset: nat)
    requires n in s.procs && offset <= |s.procs[n].wal|
    ensures RebootsTo(c, s, n, Remember(s.procs[n].raft), offset)
  {
    assert RebootsBy(c, s, CrashRestart(n, offset), n, Remember(s.procs[n].raft), offset);
  }

  /** A crash while an append request is handled is one of the model's, before the request is handled. */
  lemma CrashInRequest(c: Config, s: State, m: Message, x: Remembered, offset: nat)
    requires Enabled(c, s, DeliverAppend(m)) && offset <= |s.procs[m.to].wal|
    requires x in AppendCrashes(s.procs[m.to].raft, m.term, m.body.prev, m.body.prevTerm, m.body.entries)
    ensures RebootsTo(c, s, m.to, x, offset)
  {
    hide MergeUpTo;
    var r := s.procs[m.to].raft;
    if x == Remember(r) {
      CrashAtRest(c, s, m.to, offset);
    } else if x == Remember(EnterTerm(r, m.term)) {
      assert RebootsBy(c, s, CrashOnTerm(m, offset), m.to, x, offset);
    } else {
      var f := Remember(EnterTerm(r, m.term));
      assert x in MergeCrashes(f, m.body.prev + 1, m.body.entries);
      var w: nat :| w <= |m.body.entries| && x == f.(log := MergeUpTo(f.log, m.body.prev + 1, m.body.entries, w));
      assert RebootsBy(c, s, CrashInAppend(m, w, offset), m.to, x, offset);
    }
  }

  /** A crash while a vote request is handled is one of the model's, before or after the request is handled. */
  lemma CrashInVote(c: Config, s: State, m: Message, x: Remembered, offset: nat)
    requires Enabled(c, s, DeliverVoteRequest(m)) && offset <= |s.procs[m.to].wal|
    requires x in VoteCrashes(s.procs[m.to].raft, m.term, m.from, m.lastIndex, m.lastTerm)
    ensures RebootsTo(c, s, m.to, x, offset) || RebootsTo(c, Next(c, s, DeliverVoteRequest(m)), m.to, x, offset)
  {
    hide UpToDate;
    var r := s.procs[m.to].raft;
    if x == Remember(r) {
      CrashAtRest(c, s, m.to, offset);
    } else if m.term > r.term && x == Remember(BecomeFollower(r, m.term)) {
      assert RebootsBy(c, s, CrashOnTerm(m, offset), m.to, x, offset);
    } else {
      CrashAtRest(c, Next(c, s, DeliverVoteRequest(m)), m.to, offset);
    }
  }

  /** In all other handlers a crash leaves what was there before or what is there after. */
  lemma CrashElsewhere(c: Config, s: State, e: Event, n: NodeId, x: Remembered, offset: nat)
    requires Enabled(c, s, e) && n in s.procs && n in Next(c, s, e).procs
    requires offset <= |s.procs[n].wal| && offset <= |Next(c, s, e).procs[n].wal|
    requires x in iset{Remember(s.procs[n].raft), Remember(Next(c, s, e).procs[n].raft)}
    ensures RebootsTo(c, s, n, x, offset) || RebootsTo(c, Next(c, s, e), n, x, offset)
  {
    hide Enabled, Next, RebootsTo;
    CrashAtRest(c, s, n, offset);
    CrashAtRest(c, Next(c, s, e), n, offset);
  }

  /** The first start of a node, with no state file and an empty log: what the cluster model starts it with. */
  method FirstStart(c: Config, id: NodeId, codec: Codec, leftover: Content) returns (r: Raft)
    requires RoundTrips(codec) && Storable(codec, [DUMMY])
    requires ValidId(id) && id in c.nodes
    ensures r.Valid() && r.View() == Init(c).procs[id].raft
    ensures r.state == Follower && r.term == 0 && r.votedFor == NOBODY && r.log.entries == [DUMMY]
    ensures r.commitIndex == r.lastApplied == 0 && r.nextIndex == r.matchIndex == map[] && r.totalVotesReceived == 0
    ensures r.id == id && r.peers == c.Peers(id)
  {
    hide RoundTrips, Storable, Recovered, Image;
    var empty := Disk([], []);
    RecoveredNothing(codec);
    var files := new LogFiles(empty);
    var log := new RaftLog(files, codec, []);
    var disk := new StateDir(StateDisk(Absent, leftover));
    r := new Raft(id, c.Peers(id), log, disk);
    r.SetLastApplied(0);
  }

  lemma RecoveredNothing(codec: Codec)
    ensures Recovered(codec, Disk([], [])) == Disk([], [])
  {
  }

  /** NewRaft and SetLastApplied on files that a crash left: the node the model restarts. */
  method Restart(id: NodeId, peers: set<NodeId>, codec: Codec, f: RaftFiles, ghost m: Remembered, offset: nat) returns (r: Raft)
    requires RoundTrips(codec) && Storable(codec, [DUMMY]) && Storable(codec, m.log) && m.log != []
    requires ValidId(id) && Leaves(codec, f, m)
    ensures r.Valid() && r.View() == Restarted(m.term, m.votedFor, m.log, offset)
  {
    hide RoundTrips, Storable, Recovered, Image;
    var files := new LogFiles(f.1);
    var log := new RaftLog(files, codec, m.log);
    var disk := new StateDir(f.0);
    r := new Raft(id, peers, log, disk);
    r.SetLastApplied(offset);
  }
}
