/** What ties the state of a cluster to the history of its run; every step keeps it. */
module ClusterInvariant {
  import opened RaftTypes
  import opened RaftNode
  import opened RaftHistory
  import opened RaftMoves
  import opened Cluster

  // ---------------------------------------------------------------- the invariant

  ghost predicate Linked(c: Config, s: State, h: History) {
    && s.procs.Keys == c.nodes == h.nodes
    && (forall n | n in s.procs :: n in h.term && h.term[n] == s.procs[n].raft.term)
    && (forall n | n in s.procs :: n in h.log && h.log[n] == s.procs[n].raft.log)
  }

  ghost predicate VoteLinked(h: History, r: RaftState, n: NodeId) {
    match r.votedFor
    case None => (n, r.term) !in h.vote
    case Some(c) => (n, r.term) in h.vote && h.vote[(n, r.term)] == c
  }

  /** The counter of a candidate is one plus the number of peers that granted it their vote. */
  ghost predicate CandidateLinked(c: Config, h: History, p: Process, n: NodeId) {
    var r := p.raft;
    && r.term > 0
    && r.votedFor == Some(n)
    && (n, r.term) in h.candidateLog && h.candidateLog[(n, r.term)] == r.log
    && (r.term in h.leader ==> h.leader[r.term] != n)
    && p.grants <= c.Peers(n) && p.grants !! p.voteCalls
    && r.totalVotes == 1 + |p.grants|
    && (forall g | g in p.grants :: (g, r.term) in h.vote && h.vote[(g, r.term)] == n)
  }

  /** matchIndex never runs ahead of what the peer confirmed, and nextIndex stays within the log. */
  ghost predicate PeerLinked(h: History, r: RaftState, q: NodeId) {
    && q in r.nextIndex && 1 <= r.nextIndex[q] <= |r.log|
    && q in r.matchIndex && 0 <= r.matchIndex[q]
    && (r.matchIndex[q] > 0 ==> Acked(h, q, r.term) > r.matchIndex[q])
  }

  ghost predicate LeaderLinked(c: Config, h: History, r: RaftState, n: NodeId) {
    && r.term > 0
    && r.term in h.leader && h.leader[r.term] == n
    && r.term in h.leaderLog && h.leaderLog[r.term] == r.log
    && Acked(h, n, r.term) == |r.log|
    && (forall q | q in c.Peers(n) :: PeerLinked(h, r, q))
  }

  function InFlight(p: Process): nat {
    (if p.received.Some? then 1 else 0) + (if p.sending.Some? then 1 else 0)
  }

  ghost predicate CommitLinked(h: History, p: Process) {
    && |p.wal| + InFlight(p) <= p.raft.lastApplied <= p.raft.commitIndex
    && Committed(h, p.raft.log, p.raft.commitIndex, p.raft.term)
  }

  ghost predicate ProcessOk(c: Config, h: History, p: Process, n: NodeId) {
    && VoteLinked(h, p.raft, n)
    && (p.raft.role == Candidate ==> CandidateLinked(c, h, p, n))
    && (p.raft.role == Leader ==> LeaderLinked(c, h, p.raft, n))
    && CommitLinked(h, p)
  }

  /**
   What the body of a request of the leader of term t says is so. In particular the leader sends all it has from
   nextIndex on, so its commit index lies within what it sends: this is why a follower may go by its own last index.
   */
  ghost predicate BodyOk(h: History, t: nat, b: AppendBody) {
    && t in h.leaderLog
    && 0 <= b.prev && b.prev + 1 + |b.entries| <= |h.leaderLog[t]|
    && h.leaderLog[t][b.prev].term == b.prevTerm
    && (forall i | 0 <= i < |b.entries| :: b.entries[i] == h.leaderLog[t][b.prev + 1 + i])
    && b.leaderCommit <= b.prev + |b.entries|
    && Committed(h, h.leaderLog[t][..b.prev + 1 + |b.entries|], b.leaderCommit, t)
  }

  ghost predicate MessageOk(c: Config, h: History, m: Message) {
    && m.from in c.nodes && m.to in c.nodes && m.from != m.to
    && match m
       case VoteRequest(from, _, _, term, lastIndex, lastTerm) =>
         && (from, term) in h.candidateLog
         && lastIndex == |h.candidateLog[(from, term)]| - 1
         && lastTerm == LastTerm(h.candidateLog[(from, term)])
       case VoteReply(from, to, _, savedTerm, term, granted) =>
         granted ==> (from, savedTerm) in h.vote && h.vote[(from, savedTerm)] == to
       case AppendRequest(from, _, _, term, body) =>
         term in h.leader && h.leader[term] == from && BodyOk(h, term, body)
       case AppendReply(from, to, _, savedTerm, prev, count, term, success) =>
         success ==> prev >= 0 && Acked(h, from, savedTerm) >= prev + 1 + count
  }

  ghost predicate Inv(c: Config, s: State, h: History) {
    && Good(h)
    && Linked(c, s, h)
    && (forall n | n in s.procs :: ProcessOk(c, h, s.procs[n], n))
    && (forall m | m in s.net :: MessageOk(c, h, m))
  }

  lemma GoodAt(h: History, n: NodeId, t: nat)
    requires Good(h)
    ensures CandidateOk(h, n, t) && VoteOk(h, n, t) && AckOk(h, n, t) && LeaderOk(h, t)
    ensures h.leader.Keys <= h.leaderLog.Keys
  {
  }

  lemma GoodLogs(h: History, n: NodeId, t: nat)
    requires Good(h)
    ensures n in h.log ==> LogOk(h, h.log[n])
    ensures n in h.log && n in h.term ==> TermsUpTo(h.log[n], h.term[n])
    ensures t in h.leaderLog ==> LogOk(h, h.leaderLog[t]) && TermsUpTo(h.leaderLog[t], t)
  {
  }

  lemma InvAt(c: Config, s: State, h: History, n: NodeId)
    requires Inv(c, s, h) && n in s.procs
    ensures Good(h) && Extends(h, h)
    ensures s.procs.Keys == c.nodes == h.nodes == h.term.Keys == h.log.Keys
    ensures h.term[n] == s.procs[n].raft.term && h.log[n] == s.procs[n].raft.log
    ensures ProcessOk(c, h, s.procs[n], n)
  {
  }

  lemma InvMessage(c: Config, s: State, h: History, m: Message)
    requires Inv(c, s, h) && m in s.net
    ensures MessageOk(c, h, m)
  {
  }

  // ---------------------------------------------------------------- what a step leaves alone

  lemma MessageStable(c: Config, h: History, k: History, m: Message)
    requires Extends(h, k) && MessageOk(c, h, m)
    ensures MessageOk(c, k, m)
  {
    hide Committed;
    if m.AppendRequest? {
      var b := m.body;
      assert Agree(h.leaderLog[m.term], k.leaderLog[m.term], |h.leaderLog[m.term]|);
      assert h.leaderLog[m.term][..b.prev + 1 + |b.entries|] == k.leaderLog[m.term][..b.prev + 1 + |b.entries|];
      CommittedStable(h, k, h.leaderLog[m.term][..b.prev + 1 + |b.entries|], b.leaderCommit, m.term);
    }
  }

  /** Nothing in k beyond h concerns n. */
  ghost predicate Untouched(h: History, k: History, n: NodeId) {
    && n in h.term && n in k.term && k.term[n] == h.term[n]
    && var t := h.term[n];
       && ((n, t) in k.vote ==> (n, t) in h.vote)
       && (t in h.leader && h.leader[t] == n && t in h.leaderLog ==>
             t in k.leaderLog && k.leaderLog[t] == h.leaderLog[t] && Acked(k, n, t) == Acked(h, n, t))
       && (t in k.leader && k.leader[t] == n ==> t in h.leader)
  }

  ghost predicate OthersUntouched(h: History, k: History, n: NodeId) {
    forall v | v in h.nodes && v != n :: Untouched(h, k, v)
  }

  lemma PeersStable(c: Config, h: History, k: History, r: RaftState, n: NodeId)
    requires Extends(h, k)
    requires forall q | q in c.Peers(n) :: PeerLinked(h, r, q)
    ensures forall q | q in c.Peers(n) :: PeerLinked(k, r, q)
  {
  }

  /** A later history that adds nothing but about n. */
  lemma UntouchedStill(h: History, j: History, k: History, n: NodeId)
    requires OthersUntouched(h, j, n)
    requires k.term == j.term && k.vote == j.vote && k.leader == j.leader && k.leaderLog == j.leaderLog
    requires forall v, t: nat | v != n :: Acked(k, v, t) == Acked(j, v, t)
    ensures OthersUntouched(h, k, n)
  {
  }

  lemma SelfUntouched(h: History, n: NodeId)
    requires h.nodes == h.term.Keys
    ensures OthersUntouched(h, h, n)
  {
  }

  lemma ExtendsSelf(h: History)
    ensures Extends(h, h)
  {
  }

  lemma ProcessStable(c: Config, h: History, k: History, p: Process, n: NodeId)
    requires Extends(h, k) && Untouched(h, k, n) && h.term[n] == p.raft.term
    requires ProcessOk(c, h, p, n)
    ensures ProcessOk(c, k, p, n)
  {
    hide Committed, PeerLinked;
    CommittedStable(h, k, p.raft.log, p.raft.commitIndex, p.raft.term);
    if p.raft.role == Leader {
      PeersStable(c, h, k, p.raft, n);
    }
  }

  /** A step at n is fine once n itself and the new messages are. */
  lemma StepAt(c: Config, s: State, h: History, s': State, k: History, n: NodeId)
    requires Inv(c, s, h) && n in s.procs && n in s'.procs
    requires Good(k) && Extends(h, k) && k.nodes == h.nodes
    requires s'.procs == s.procs[n := s'.procs[n]]
    requires n in k.term && k.term == h.term[n := s'.procs[n].raft.term]
    requires n in k.log && k.log == h.log[n := s'.procs[n].raft.log]
    requires ProcessOk(c, k, s'.procs[n], n)
    requires OthersUntouched(h, k, n)
    requires forall m | m in s'.net :: m in s.net || MessageOk(c, k, m)
    ensures Inv(c, s', k)
  {
    hide Good, Extends, Untouched, ProcessOk, MessageOk;
    forall v | v in s'.procs ensures ProcessOk(c, k, s'.procs[v], v) {
      if v != n { ProcessStable(c, h, k, s.procs[v], v); }
    }
    forall m | m in s'.net ensures MessageOk(c, k, m) {
      if m in s.net { MessageStable(c, h, k, m); }
    }
  }

  // ---------------------------------------------------------------- commitment

  lemma CommittedLater(h: History, l: Log, c: int, t: nat, d: int, u: nat)
    requires Committed(h, l, c, t) && 0 <= d <= c && t <= u
    ensures Committed(h, l, d, u)
  {
    var s, m :| CommittedAs(h, l, c, t, s, m);
    assert CommittedAs(h, l, d, u, s, m);
  }

  lemma CommittedBound(h: History, l: Log, c: int, t: nat)
    requires Committed(h, l, c, t)
    ensures 0 <= c < |l|
  {
  }

  lemma CommittedCopy(h: History, l: Log, c: int, t: nat, k: Log)
    requires Committed(h, l, c, t) && Agree(k, l, c + 1)
    ensures Committed(h, k, c, t)
  {
    var s, m :| CommittedAs(h, l, c, t, s, m);
    assert CommittedAs(h, k, c, t, s, m);
  }

  /** A leader that finds index n held by a majority, with an entry of its own term there, has it chosen. */
  lemma LeaderCommits(c: Config, h: History, r: RaftState, n: NodeId, i: int)
    requires n in c.nodes && h.nodes == c.nodes && LeaderLinked(c, h, r, n)
    requires i > 0 && Committable(r, c.Peers(n), i)
    ensures Committed(h, r.log, i, r.term)
  {
    var q := Holders(r, c.Peers(n), i) + {n};
    assert |c.Peers(n)| + 1 == |c.nodes|;
    assert |q| == |Holders(r, c.Peers(n), i)| + 1;
    forall v | v in q ensures Acked(h, v, r.term) >= i + 1 {
      if v != n { assert PeerLinked(h, r, v); }
    }
    assert ChosenBy(h, r.term, i + 1, q);
    assert CommittedAs(h, r.log, i, r.term, r.term, i + 1);
  }

  // ---------------------------------------------------------------- elections

  /** n enters term t, or stays in it. */
  lemma EnterKeeps(h: History, n: NodeId, r: RaftState, t: nat) returns (k: History)
    requires Good(h) && n in h.nodes && n in h.term && h.term[n] == r.term <= t
    requires h.term.Keys == h.nodes && Committed(h, r.log, r.commitIndex, r.term)
    ensures k == Advance(h, n, t)
    ensures Good(k) && Extends(h, k) && OthersUntouched(h, k, n)
    ensures t > r.term ==> (n, t) !in k.vote && (n, t) !in k.candidateLog && (t in k.leader ==> k.leader[t] != n)
    ensures Committed(k, r.log, r.commitIndex, t)
  {
    hide Good, Extends, Committed;
    k := AdvanceGood(h, n, t);
    GoodAt(h, n, t);
    CommittedStable(h, k, r.log, r.commitIndex, r.term);
    CommittedLater(k, r.log, r.commitIndex, r.term, r.commitIndex, t);
  }

  /** A process that entered a term, perhaps waiting for fewer replies, is as the history says. */
  lemma Enters(c: Config, h: History, p: Process, n: NodeId, t: nat, p': Process) returns (k: History)
    requires Good(h) && c.nodes == h.nodes == h.term.Keys == h.log.Keys && n in h.nodes
    requires h.term[n] == p.raft.term <= t && h.log[n] == p.raft.log && ProcessOk(c, h, p, n)
    requires p' == p.(raft := BecomeFollower(p.raft, t), voteCalls := p'.voteCalls) && p'.voteCalls <= p.voteCalls
    ensures Good(k) && Extends(h, k) && OthersUntouched(h, k, n) && k.nodes == h.nodes
    ensures k.term == h.term[n := t] && k.log == h.log[n := p.raft.log] && ProcessOk(c, k, p', n)
  {
    hide Good, Extends, OthersUntouched, Committed, PeerLinked, LeaderLinked, CandidateLinked;
    k := EnterKeeps(h, n, p.raft, t);
  }

  lemma StandKeeps(h: History, n: NodeId, r: RaftState) returns (k: History)
    requires Good(h) && n in h.nodes && h.term.Keys == h.log.Keys == h.nodes
    requires h.term[n] == r.term && h.log[n] == r.log && Committed(h, r.log, r.commitIndex, r.term)
    ensures Good(k) && Extends(h, k) && OthersUntouched(h, k, n)
    ensures k == Stand(Advance(h, n, r.term + 1), n)
    ensures Committed(k, r.log, r.commitIndex, r.term + 1)
    ensures r.term + 1 in k.leader ==> k.leader[r.term + 1] != n
  {
    hide Good, Extends, Committed;
    var j := EnterKeeps(h, n, r, r.term + 1);
    GoodLogs(h, n, 0);
    k := StandGood(j, n);
    ExtendsTransitive(h, j, k);
    CommittedStable(j, k, r.log, r.commitIndex, r.term + 1);
  }

  lemma TimeoutKeeps(c: Config, s: State, h: History, n: NodeId) returns (k: History)
    requires Inv(c, s, h) && Enabled(c, s, ElectionTimeout(n))
    ensures Inv(c, Next(c, s, ElectionTimeout(n)), k) && Extends(h, k)
  {
    hide Inv, Good, Extends, Committed, OthersUntouched;
    var s' := Next(c, s, ElectionTimeout(n));
    InvAt(c, s, h, n);
    k := StandKeeps(h, n, s.procs[n].raft);
    assert ProcessOk(c, k, s'.procs[n], n);
    StepAt(c, s, h, s', k, n);
  }

  /** The history after n answered a vote request. */
  lemma VoteCast(c: Config, h: History, r: RaftState, n: NodeId, m: Message) returns (k: History)
    requires Good(h) && n in h.nodes && h.term.Keys == h.log.Keys == h.nodes
    requires h.term[n] == r.term && h.log[n] == r.log && Committed(h, r.log, r.commitIndex, r.term)
    requires VoteLinked(h, r, n) && m.VoteRequest? && MessageOk(c, h, m)
    ensures Good(k) && Extends(h, k) && OthersUntouched(h, k, n)
    ensures var (r', granted) := OnVoteRequest(r, m.term, m.from, m.lastIndex, m.lastTerm);
            && k.nodes == h.nodes && k.term == h.term[n := r'.term] && k.log == h.log
            && k.leaderLog == h.leaderLog && k.leader == h.leader && k.candidateLog == h.candidateLog && k.acked == h.acked
            && VoteLinked(k, r', n)
            && (forall p | p in h.vote :: p in k.vote && k.vote[p] == h.vote[p])
            && (granted ==> (n, m.term) in k.vote && k.vote[(n, m.term)] == m.from)
            && Committed(k, r'.log, r'.commitIndex, r'.term)
  {
    hide Good, Extends, Committed, OthersUntouched;
    var t := if m.term > r.term then m.term else r.term;
    k := EnterKeeps(h, n, r, t);
    if OnVoteRequest(r, m.term, m.from, m.lastIndex, m.lastTerm).1 {
      var j := k;
      k := GrantKeeps(h, j, r, n, m.from, m.lastIndex, m.lastTerm);
    }
  }

  lemma GrantKeeps(h: History, j: History, r: RaftState, n: NodeId, c: NodeId, lastIndex: int, lastTerm: nat) returns (k: History)
    requires Good(j) && Extends(h, j) && OthersUntouched(h, j, n)
    requires n in j.nodes && n in j.term && n in j.log && j.log[n] == r.log && Committed(j, r.log, r.commitIndex, j.term[n])
    requires (n, j.term[n]) in j.vote ==> j.vote[(n, j.term[n])] == c
    requires (c, j.term[n]) in j.candidateLog
    requires var l := j.candidateLog[(c, j.term[n])]; lastIndex == |l| - 1 && lastTerm == LastTerm(l)
    requires UpToDate(lastTerm, lastIndex, r.log)
    ensures k == Grant(j, n, c)
    ensures Good(k) && Extends(h, k) && OthersUntouched(h, k, n)
    ensures Committed(k, r.log, r.commitIndex, j.term[n])
  {
    hide Good, Extends, Committed;
    GoodAt(j, c, j.term[n]);
    k := GrantGood(j, n, c);
    ExtendsTransitive(h, j, k);
    CommittedStable(j, k, r.log, r.commitIndex, j.term[n]);
  }

  lemma VoteRequestKeeps(c: Config, s: State, h: History, m: Message) returns (k: History)
    requires Inv(c, s, h) && Enabled(c, s, DeliverVoteRequest(m))
    ensures Inv(c, Next(c, s, DeliverVoteRequest(m)), k) && Extends(h, k)
  {
    hide Inv, Good, Extends, Committed, OthersUntouched, PeerLinked;
    var n := m.to;
    var r := s.procs[n].raft;
    var s' := Next(c, s, DeliverVoteRequest(m));
    InvAt(c, s, h, n);
    InvMessage(c, s, h, m);
    k := VoteCast(c, h, r, n, m);
    if s'.procs[n].raft.role == Leader {
      PeersStable(c, h, k, r, n);
      SamePeers(c, k, r, s'.procs[n].raft, n);
    }
    assert ProcessOk(c, k, s'.procs[n], n);
    StepAt(c, s, h, s', k, n);
  }

  /** What a leader knows of its peers does not depend on its vote, its commit index or what it applied. */
  lemma SamePeers(c: Config, h: History, r: RaftState, r': RaftState, n: NodeId)
    requires r'.term == r.term && r'.log == r.log && r'.nextIndex == r.nextIndex && r'.matchIndex == r.matchIndex
    requires forall q | q in c.Peers(n) :: PeerLinked(h, r, q)
    ensures forall q | q in c.Peers(n) :: PeerLinked(h, r', q)
  {
  }

  lemma VoteReplyKeeps(c: Config, s: State, h: History, m: Message) returns (k: History)
    requires Inv(c, s, h) && Enabled(c, s, DeliverVoteReply(m))
    ensures Inv(c, Next(c, s, DeliverVoteReply(m)), k) && Extends(h, k)
  {
    hide Inv, Good, Extends, Committed, OthersUntouched, PeerLinked;
    var n := m.to;
    var p := s.procs[n];
    var s' := Next(c, s, DeliverVoteReply(m));
    InvAt(c, s, h, n);
    InvMessage(c, s, h, m);
    k := VoteCounted(c, h, p, n, m, s'.procs[n]);
    StepAt(c, s, h, s', k, n);
  }

  /** The history after a candidate got a reply. */
  lemma VoteCounted(c: Config, h: History, p: Process, n: NodeId, m: Message, p': Process) returns (k: History)
    requires Good(h) && c.nodes == h.nodes == h.term.Keys == h.log.Keys && n in h.nodes
    requires h.term[n] == p.raft.term && h.log[n] == p.raft.log && ProcessOk(c, h, p, n)
    requires m.VoteReply? && m.to == n && MessageOk(c, h, m)
    requires m.savedTerm == p.raft.term ==> m.from in p.voteCalls
    requires p' == VoteReplied(c, p, m)
    ensures Good(k) && Extends(h, k) && OthersUntouched(h, k, n) && k.nodes == h.nodes
    ensures k.term == h.term[n := p'.raft.term] && k.log == h.log[n := p'.raft.log]
    ensures ProcessOk(c, k, p', n)
  {
    hide Good, Extends, Committed, PeerLinked, OthersUntouched, LeaderLinked, CandidateLinked, BecomeLeader, MessageOk;
    var r := p.raft;
    if r.role == Candidate && r.term == m.savedTerm < m.term {
      k := Enters(c, h, p, n, m.term, p');
    } else if r.role == Candidate && r.term == m.savedTerm == m.term && m.granted {
      k := GrantCounted(c, h, p, n, m, p');
    } else {
      k := h;
      ExtendsSelf(h);
      SelfUntouched(h, n);
      ReplyIgnored(c, h, p, n, p');
    }
  }

  /** Waiting for fewer replies changes nothing else. */
  lemma ReplyIgnored(c: Config, h: History, p: Process, n: NodeId, p': Process)
    requires ProcessOk(c, h, p, n) && h.term.Keys == h.log.Keys && n in h.term
    requires h.term[n] == p.raft.term && h.log[n] == p.raft.log
    requires p' == p.(voteCalls := p'.voteCalls) && p'.voteCalls <= p.voteCalls
    ensures ProcessOk(c, h, p', n)
    ensures h.term == h.term[n := p'.raft.term] && h.log == h.log[n := p'.raft.log]
  {
  }

  lemma GrantCounted(c: Config, h: History, p: Process, n: NodeId, m: Message, p': Process) returns (k: History)
    requires Good(h) && c.nodes == h.nodes == h.term.Keys == h.log.Keys && n in h.nodes
    requires h.term[n] == p.raft.term && h.log[n] == p.raft.log && ProcessOk(c, h, p, n)
    requires m.VoteReply? && m.to == n && MessageOk(c, h, m)
    requires p.raft.role == Candidate && p.raft.term == m.savedTerm == m.term && m.granted && m.from in p.voteCalls
    requires p' == VoteReplied(c, p, m)
    ensures Good(k) && Extends(h, k) && OthersUntouched(h, k, n) && k.nodes == h.nodes
    ensures k.term == h.term[n := p'.raft.term] && k.log == h.log[n := p'.raft.log]
    ensures ProcessOk(c, k, p', n)
  {
    hide Good, Extends, Committed, OthersUntouched, ProcessOk, BecomeLeader;
    var v := p.raft.(totalVotes := p.raft.totalVotes + 1);
    var q := p.(raft := v, grants := p.grants + {m.from}, voteCalls := p.voteCalls - {m.from});
    GrantAdded(c, h, p, n, m, q);
    if v.totalVotes > (|c.Peers(n)| + 1) / 2 {
      k := GrantWins(c, h, q, n);
      assert p' == q.(raft := BecomeLeader(v, c.Peers(n)));
    } else {
      k := h;
      ExtendsSelf(h);
      SelfUntouched(h, n);
      assert p' == q;
    }
  }

  lemma GrantAdded(c: Config, h: History, p: Process, n: NodeId, m: Message, q: Process)
    requires ProcessOk(c, h, p, n) && MessageOk(c, h, m)
    requires m.VoteReply? && m.to == n && p.raft.role == Candidate
    requires p.raft.term == m.savedTerm == m.term && m.granted && m.from in p.voteCalls
    requires q == p.(raft := p.raft.(totalVotes := p.raft.totalVotes + 1),
                     grants := p.grants + {m.from}, voteCalls := p.voteCalls - {m.from})
    ensures ProcessOk(c, h, q, n)
  {
  }

  lemma GrantWins(c: Config, h: History, q: Process, n: NodeId) returns (k: History)
    requires Good(h) && c.nodes == h.nodes == h.term.Keys == h.log.Keys && n in h.nodes
    requires h.term[n] == q.raft.term && h.log[n] == q.raft.log && ProcessOk(c, h, q, n)
    requires q.raft.role == Candidate && q.raft.totalVotes > (|c.Peers(n)| + 1) / 2
    ensures Good(k) && Extends(h, k) && OthersUntouched(h, k, n) && k.nodes == h.nodes
    ensures var r := BecomeLeader(q.raft, c.Peers(n));
            && k.term == h.term[n := r.term] && k.log == h.log[n := r.log]
            && ProcessOk(c, k, q.(raft := r), n)
  {
    hide Good, Extends, Committed, OthersUntouched, LeaderLinked;
    k := WinningKeeps(c, h, q.raft, n, q.grants);
    CommittedStable(h, k, q.raft.log, q.raft.commitIndex, q.raft.term);
  }

  /** The candidate n, granted the votes of a majority with its own, leads its term and no one else does. */
  lemma WinningKeeps(c: Config, h: History, r: RaftState, n: NodeId, grants: set<NodeId>) returns (k: History)
    requires Good(h) && c.nodes == h.nodes == h.term.Keys == h.log.Keys && n in h.nodes
    requires h.term[n] == r.term > 0 && h.log[n] == r.log
    requires (n, r.term) in h.vote && h.vote[(n, r.term)] == n
    requires (n, r.term) in h.candidateLog && h.candidateLog[(n, r.term)] == r.log
    requires r.term in h.leader ==> h.leader[r.term] != n
    requires grants <= c.Peers(n) && 1 + |grants| > (|c.Peers(n)| + 1) / 2
    requires forall g | g in grants :: (g, r.term) in h.vote && h.vote[(g, r.term)] == n
    ensures k == Elect(h, n) && Good(k) && Extends(h, k) && OthersUntouched(h, k, n)
    ensures LeaderLinked(c, k, BecomeLeader(r, c.Peers(n)), n)
  {
    hide Good, Extends, OthersUntouched, LeaderLinked;
    var q := grants + {n};
    assert |q| == |grants| + 1 && |c.Peers(n)| + 1 == |c.nodes|;
    assert IsQuorum(h.nodes, q);
    if r.term in h.leaderLog {
      OneWinner(h, n, r.term, q);
      assert false;
    }
    GoodAt(h, n, r.term);
    k := ElectGood(h, n, q);
    GoodLogs(h, n, 0);
    ElectUntouched(c, h, r, n);
  }

  lemma ElectUntouched(c: Config, h: History, r: RaftState, n: NodeId)
    requires h.nodes == h.term.Keys == h.log.Keys && n in h.nodes
    requires h.term[n] == r.term && h.log[n] == r.log && r.term > 0 && |r.log| > 0
    requires r.term !in h.leaderLog && h.leader.Keys <= h.leaderLog.Keys
    ensures OthersUntouched(h, Elect(h, n), n)
    ensures LeaderLinked(c, Elect(h, n), BecomeLeader(r, c.Peers(n)), n)
  {
  }

  // ---------------------------------------------------------------- replication

  lemma HeartbeatKeeps(c: Config, s: State, h: History, n: NodeId)
    requires Inv(c, s, h) && Enabled(c, s, Heartbeat(n))
    ensures Inv(c, Next(c, s, Heartbeat(n)), h)
  {
    hide Inv, Good, Extends, Committed, PeerLinked;
    InvAt(c, s, h, n);
    StepAt(c, s, h, Next(c, s, Heartbeat(n)), h, n);
  }

  /** The leader's request says of its log what is so. */
  lemma BodySent(c: Config, h: History, p: Process, n: NodeId, q: NodeId)
    requires ProcessOk(c, h, p, n) && p.raft.role == Leader && q in c.Peers(n)
    ensures AppendFor(p.raft, q).Some? && BodyOk(h, p.raft.term, AppendFor(p.raft, q).value)
  {
    hide Committed;
    var r := p.raft;
    assert PeerLinked(h, r, q);
    var b := AppendFor(r, q).value;
    assert r.log[..b.prev + 1 + |b.entries|] == r.log;
    CommittedBound(h, r.log, r.commitIndex, r.term);
  }

  lemma SendKeeps(c: Config, s: State, h: History, n: NodeId, q: NodeId, t: nat)
    requires Inv(c, s, h) && Enabled(c, s, SendAppend(n, q, t)) && TermGuard(s, SendAppend(n, q, t))
    ensures Inv(c, Next(c, s, SendAppend(n, q, t)), h)
  {
    hide Inv, Good, Extends, BodyOk, Committed, PeerLinked;
    InvAt(c, s, h, n);
    if s.procs[n].raft.role == Leader {
      BodySent(c, h, s.procs[n], n, q);
      StepAt(c, s, h, Next(c, s, SendAppend(n, q, t)), h, n);
    }
  }

  /** How a log takes in entries of the log l of the leader of its term: it keeps what agrees, else copies. */
  lemma MergeFollows(h: History, log: Log, l: Log, prev: int, entries: Log, written: nat)
    requires LogOk(h, log) && LogOk(h, l)
    requires 0 <= prev < |log| && prev + 1 + |entries| <= |l| && log[prev].term == l[prev].term
    requires forall i | 0 <= i < |entries| :: entries[i] == l[prev + 1 + i]
    requires written <= |entries|
    ensures var n := Matching(log, prev + 1, entries);
            && Agree(log, l, prev + 1 + n)
            && (n < |entries| ==> forall m: nat :: Agree(log, l, m) ==> m <= prev + 1 + n)
            && MergeUpTo(log, prev + 1, entries, written)
               == if n == |entries| || written < n then log else l[..prev + 1 + written]
  {
    hide LogOk, Agree, MergeUpTo;
    MatchedAgree(h, log, l, prev, entries);
    SplicedLog(log, l, prev + 1, entries, written);
  }

  /** A log agrees with the leader's as far as the entries match, and no further when they stop short. */
  lemma MatchedAgree(h: History, log: Log, l: Log, prev: int, entries: Log)
    requires LogOk(h, log) && LogOk(h, l)
    requires 0 <= prev < |log| && prev + 1 + |entries| <= |l| && log[prev].term == l[prev].term
    requires forall i | 0 <= i < |entries| :: entries[i] == l[prev + 1 + i]
    ensures var n := Matching(log, prev + 1, entries);
            && Agree(log, l, prev + 1 + n)
            && (n < |entries| ==> forall m: nat :: Agree(log, l, m) ==> m <= prev + 1 + n)
  {
    hide LogOk, Matching;
    var n := Matching(log, prev + 1, entries);
    LogsMatch(h, log, l, prev);
    if n > 0 {
      assert log[prev + 1 + (n - 1)].term == entries[n - 1].term;
      LogsMatch(h, log, l, prev + n);
    }
    if n < |entries| && prev + 1 + n < |log| {
      assert log[prev + 1 + n] != l[prev + 1 + n];
    }
  }

  /** What n's log is after it wrote the first `written` of the entries sent, and that its committed entries are still there. */
  lemma Written(h: History, r: RaftState, n: NodeId, t: nat, b: AppendBody, written: nat)
    requires Good(h) && n in h.log && h.log[n] == r.log && Committed(h, r.log, r.commitIndex, t)
    requires BodyOk(h, t, b) && Accepts(r, t, b.prev, b.prevTerm) && written <= |b.entries|
    ensures var log := MergeUpTo(r.log, b.prev + 1, b.entries, written);
            var l := h.leaderLog[t];
            && (written == |b.entries| ==> Agree(log, l, b.prev + 1 + |b.entries|))
            && Agree(log, r.log, r.commitIndex + 1)
            && (log == r.log
                || (log == l[..b.prev + 1 + written] && forall m: nat :: Agree(r.log, l, m) ==> m <= b.prev + 1 + written))
  {
    hide Good, Committed, LogOk, Matching, MergeUpTo;
    var l := h.leaderLog[t];
    GoodLogs(h, n, t);
    MergeFollows(h, r.log, l, b.prev, b.entries, written);
    CommittedInLeader(h, r.log, r.commitIndex, t, t);
  }

  /** The history after n, at term t or before, wrote the first `written` of the entries a request of the leader of term t carries. */
  lemma TakeIn(h: History, r: RaftState, n: NodeId, t: nat, b: AppendBody, written: nat) returns (k: History)
    requires Good(h) && n in h.nodes && h.term.Keys == h.log.Keys == h.nodes
    requires h.term[n] == r.term && h.log[n] == r.log && Committed(h, r.log, r.commitIndex, r.term)
    requires BodyOk(h, t, b) && Accepts(r, t, b.prev, b.prevTerm) && written <= |b.entries|
    ensures Good(k) && Extends(h, k) && OthersUntouched(h, k, n)
    ensures var log := MergeUpTo(r.log, b.prev + 1, b.entries, written);
            && k == h.(term := h.term[n := t], log := h.log[n := log])
            && Committed(k, log, r.commitIndex, t)
            && (written == |b.entries| ==> Agree(log, k.leaderLog[t], b.prev + 1 + |b.entries|))
            && Agree(log, r.log, r.commitIndex + 1)
    ensures t > r.term ==> (n, t) !in k.vote
  {
    hide Good, Extends, Committed, OthersUntouched, MergeUpTo, Agree;
    var log := MergeUpTo(r.log, b.prev + 1, b.entries, written);
    var j := EnterKeeps(h, n, r, t);
    SameBody(h, j, t, b);
    Written(j, r, n, t, b, written);
    k := j;
    if log == r.log {
      assert h.log[n := log] == h.log;
    } else {
      k := AdoptGood(j, n, b.prev + 1 + written);
      ExtendsTransitive(h, j, k);
      UntouchedStill(h, j, k, n);
      CommittedStable(j, k, r.log, r.commitIndex, t);
      CommittedCopy(k, r.log, r.commitIndex, t, log);
    }
  }

  lemma SameBody(h: History, k: History, t: nat, b: AppendBody)
    requires BodyOk(h, t, b) && Extends(h, k) && k.leaderLog == h.leaderLog
    ensures BodyOk(k, t, b)
  {
    hide Committed;
    CommittedStable(h, k, h.leaderLog[t][..b.prev + 1 + |b.entries|], b.leaderCommit, t);
  }

  /** n confirms what it took in, and follows the leader's commit index. */
  lemma AcceptedKeeps(h: History, j: History, r: RaftState, n: NodeId, t: nat, b: AppendBody) returns (k: History)
    requires Good(j) && Extends(h, j) && BodyOk(h, t, b) && n in j.nodes
    requires Accepts(r, t, b.prev, b.prevTerm)
    requires var log := Merge(r.log, b.prev + 1, b.entries);
             && n in j.term && j.term[n] == t && n in j.log && j.log[n] == log && j.leaderLog == h.leaderLog
             && Committed(j, log, r.commitIndex, t)
             && Agree(log, j.leaderLog[t], b.prev + 1 + |b.entries|)
    ensures Good(k) && Extends(j, k)
    ensures k == Confirm(j, n, b.prev + 1 + |b.entries|)
    ensures var r' := OnAppendRequest(r, t, b.prev, b.prevTerm, b.entries, b.leaderCommit).0;
            && Committed(k, r'.log, r'.commitIndex, t)
            && Acked(k, n, t) >= b.prev + 1 + |b.entries|
  {
    hide Good, Extends, Committed, MergeUpTo;
    k := ConfirmGood(j, n, b.prev + 1 + |b.entries|);
    var log := Merge(r.log, b.prev + 1, b.entries);
    CommittedStable(j, k, log, r.commitIndex, t);
    var sent := h.leaderLog[t][..b.prev + 1 + |b.entries|];
    ExtendsTransitive(h, j, k);
    CommittedStable(h, k, sent, b.leaderCommit, t);
    CommittedBound(k, sent, b.leaderCommit, t);
    CommittedCopy(k, sent, b.leaderCommit, t, log);
  }

  /** The history after n handled a request of the leader of term m.term. */
  lemma AppendHandled(c: Config, h: History, p: Process, n: NodeId, m: Message) returns (k: History)
    requires Good(h) && c.nodes == h.nodes == h.term.Keys == h.log.Keys && n in h.nodes
    requires h.term[n] == p.raft.term && h.log[n] == p.raft.log && ProcessOk(c, h, p, n)
    requires m.AppendRequest? && m.to == n && MessageOk(c, h, m)
    ensures Good(k) && Extends(h, k) && OthersUntouched(h, k, n) && k.nodes == h.nodes
    ensures var (r', outcome) := OnAppendRequest(p.raft, m.term, m.body.prev, m.body.prevTerm, m.body.entries, m.body.leaderCommit);
            && k.term == h.term[n := r'.term] && k.log == h.log[n := r'.log]
            && ProcessOk(c, k, p.(raft := r'), n)
            && outcome != Failed
            && (outcome.success ==> Acked(k, n, m.term) >= m.body.prev + 1 + |m.body.entries|)
  {
    hide Good, Extends, Committed, PeerLinked, OthersUntouched, BodyOk, MergeUpTo, LeaderLinked, CandidateLinked;
    var r := p.raft;
    var b := m.body;
    BodyPrev(h, m.term, b);
    if m.term < r.term {
      k := h;
      ExtendsSelf(h);
      SelfUntouched(h, n);
      ReplyIgnored(c, h, p, n, p);
    } else if !Accepts(r, m.term, b.prev, b.prevTerm) {
      k := Enters(c, h, p, n, m.term, p.(raft := BecomeFollower(r, m.term)));
    } else {
      k := AppendAccepted(c, h, p, n, m);
    }
  }

  lemma AppendAccepted(c: Config, h: History, p: Process, n: NodeId, m: Message) returns (k: History)
    requires Good(h) && c.nodes == h.nodes == h.term.Keys == h.log.Keys && n in h.nodes
    requires h.term[n] == p.raft.term && h.log[n] == p.raft.log && ProcessOk(c, h, p, n)
    requires m.AppendRequest? && m.to == n && BodyOk(h, m.term, m.body)
    requires Accepts(p.raft, m.term, m.body.prev, m.body.prevTerm)
    ensures Good(k) && Extends(h, k) && OthersUntouched(h, k, n) && k.nodes == h.nodes
    ensures var (r', outcome) := OnAppendRequest(p.raft, m.term, m.body.prev, m.body.prevTerm, m.body.entries, m.body.leaderCommit);
            && k.term == h.term[n := r'.term] && k.log == h.log[n := r'.log]
            && ProcessOk(c, k, p.(raft := r'), n)
            && Acked(k, n, m.term) >= m.body.prev + 1 + |m.body.entries|
  {
    hide Good, Extends, Committed, PeerLinked, OthersUntouched, BodyOk, MergeUpTo, LeaderLinked, CandidateLinked;
    var j := TakeIn(h, p.raft, n, m.term, m.body, |m.body.entries|);
    k := AcceptedKeeps(h, j, p.raft, n, m.term, m.body);
    ExtendsTransitive(h, j, k);
    UntouchedStill(h, j, k, n);
  }

  lemma BodyPrev(h: History, t: nat, b: AppendBody)
    requires BodyOk(h, t, b)
    ensures b.prev >= 0
  {
  }

  lemma AppendKeeps(c: Config, s: State, h: History, m: Message) returns (k: History)
    requires Inv(c, s, h) && Enabled(c, s, DeliverAppend(m))
    ensures Inv(c, Next(c, s, DeliverAppend(m)), k) && Extends(h, k)
  {
    hide Inv, Good, Extends, OthersUntouched, ProcessOk, OnAppendRequest;
    InvAt(c, s, h, m.to);
    InvMessage(c, s, h, m);
    k := AppendHandled(c, h, s.procs[m.to], m.to, m);
    StepAt(c, s, h, Next(c, s, DeliverAppend(m)), k, m.to);
  }

  /** A leader that counts only replies to what it sent in its present term never overestimates its peers. */
  lemma LeaderAfterReply(c: Config, h: History, p: Process, n: NodeId, m: Message)
    requires Good(h) && n in c.nodes && h.nodes == c.nodes && ProcessOk(c, h, p, n) && MessageOk(c, h, m)
    requires m.AppendReply? && m.to == n && p.raft.role == Leader && p.raft.term == m.savedTerm >= m.term
    ensures ProcessOk(c, h, p.(raft := OnAppendReply(p.raft, c.Peers(n), m.from, m.savedTerm, m.prev, m.count, m.term, m.success)), n)
  {
    hide Good, Committed;
    var r := p.raft;
    var r' := OnAppendReply(r, c.Peers(n), m.from, m.savedTerm, m.prev, m.count, m.term, m.success);
    GoodAt(h, m.from, r.term);
    forall q | q in c.Peers(n) ensures PeerLinked(h, r', q) {
      assert PeerLinked(h, r, q);
    }
    assert LeaderLinked(c, h, r', n);
    CommittedBound(h, r.log, r.commitIndex, r.term);
    if r'.commitIndex != r.commitIndex {
      LeaderCommits(c, h, r', n, r'.commitIndex);
    }
  }

  /** The history after n handled a reply to what it sent in its present term, or ignored one. */
  lemma ReplyHandled(c: Config, h: History, p: Process, n: NodeId, m: Message) returns (k: History)
    requires Good(h) && c.nodes == h.nodes == h.term.Keys == h.log.Keys && n in h.nodes
    requires h.term[n] == p.raft.term && h.log[n] == p.raft.log && ProcessOk(c, h, p, n) && MessageOk(c, h, m)
    requires m.AppendReply? && m.to == n && (p.raft.role == Leader ==> p.raft.term == m.savedTerm)
    ensures Good(k) && Extends(h, k) && OthersUntouched(h, k, n) && k.nodes == h.nodes
    ensures var r' := OnAppendReply(p.raft, c.Peers(n), m.from, m.savedTerm, m.prev, m.count, m.term, m.success);
            && k.term == h.term[n := r'.term] && k.log == h.log[n := r'.log]
            && ProcessOk(c, k, p.(raft := r'), n)
  {
    hide Good, Extends, OthersUntouched, Committed, PeerLinked, CommitFrom;
    var r := p.raft;
    if r.role == Leader && m.term > m.savedTerm {
      k := Enters(c, h, p, n, m.term, p.(raft := BecomeFollower(r, m.term)));
    } else {
      k := h;
      ExtendsSelf(h);
      SelfUntouched(h, n);
      if r.role == Leader { LeaderAfterReply(c, h, p, n, m); }
    }
  }

  lemma AppendReplyKeeps(c: Config, s: State, h: History, m: Message) returns (k: History)
    requires Inv(c, s, h) && Enabled(c, s, DeliverAppendReply(m)) && TermGuard(s, DeliverAppendReply(m))
    ensures Inv(c, Next(c, s, DeliverAppendReply(m)), k) && Extends(h, k)
  {
    hide Inv, Good, Extends, OthersUntouched, ProcessOk, OnAppendReply;
    InvAt(c, s, h, m.to);
    InvMessage(c, s, h, m);
    k := ReplyHandled(c, h, s.procs[m.to], m.to, m);
    StepAt(c, s, h, Next(c, s, DeliverAppendReply(m)), k, m.to);
  }

  lemma ProposeKeeps(c: Config, s: State, h: History, n: NodeId, command: Bytes) returns (k: History)
    requires Inv(c, s, h) && Enabled(c, s, Event.Propose(n, command))
    ensures Inv(c, Next(c, s, Event.Propose(n, command)), k) && Extends(h, k)
  {
    hide Inv, Good, Extends, OthersUntouched;
    InvAt(c, s, h, n);
    SelfUntouched(h, n);
    k := h;
    if s.procs[n].raft.role == Leader {
      k := LeaderProposes(c, h, s.procs[n], n, command);
    }
    StepAt(c, s, h, Next(c, s, Event.Propose(n, command)), k, n);
  }

  lemma LeaderProposes(c: Config, h: History, p: Process, n: NodeId, command: Bytes) returns (k: History)
    requires Good(h) && c.nodes == h.nodes == h.term.Keys == h.log.Keys && n in h.nodes
    requires h.term[n] == p.raft.term && h.log[n] == p.raft.log && ProcessOk(c, h, p, n)
    requires p.raft.role == Leader
    ensures Good(k) && Extends(h, k) && OthersUntouched(h, k, n)
    ensures k == RaftHistory.Propose(h, n, LogEntry(p.raft.term, command))
    ensures ProcessOk(c, k, p.(raft := Submit(p.raft, command)), n)
  {
    hide Good, Extends, Committed;
    var r := p.raft;
    var r' := Submit(r, command);
    GoodAt(h, n, r.term);
    k := ProposeGood(h, n, LogEntry(r.term, command));
    CommittedStable(h, k, r.log, r.commitIndex, r.term);
    CommittedBound(k, r.log, r.commitIndex, r.term);
    CommittedCopy(k, r.log, r.commitIndex, r.term, r'.log);
    PeersStable(c, h, k, r, n);
    forall q | q in c.Peers(n) ensures PeerLinked(k, r', q) {
      assert PeerLinked(k, r, q);
    }
  }

  // ---------------------------------------------------------------- applying

  lemma ApplyKeeps(c: Config, s: State, h: History, e: Event)
    requires Inv(c, s, h) && Enabled(c, s, e)
    requires e.SendApply? || e.ReceiveApply? || e.AppendToWal?
    ensures Inv(c, Next(c, s, e), h)
  {
    hide Inv, Good, Extends, OthersUntouched, Committed, PeerLinked;
    var n := e.node;
    var s' := Next(c, s, e);
    InvAt(c, s, h, n);
    SelfUntouched(h, n);
    if s.procs[n].raft.role == Leader {
      SamePeers(c, h, s.procs[n].raft, s'.procs[n].raft, n);
    }
    StepAt(c, s, h, s', h, n);
  }

  // ---------------------------------------------------------------- crashes

  /** A restarted node is a follower that knows to be committed what its WAL holds. */
  lemma RebootOk(c: Config, k: History, p: Process, n: NodeId, term: nat, votedFor: Option<NodeId>, log: Log, offset: nat)
    requires |p.wal| <= p.raft.commitIndex && offset <= |p.wal|
    requires Committed(k, log, p.raft.commitIndex, term)
    requires VoteLinked(k, Restarted(term, votedFor, log, offset), n)
    ensures ProcessOk(c, k, Reboot(p, term, votedFor, log, offset), n)
  {
    hide Committed;
    CommittedLater(k, log, p.raft.commitIndex, term, offset, term);
  }

  lemma CrashKeeps(c: Config, s: State, h: History, n: NodeId, offset: nat)
    requires Inv(c, s, h) && Enabled(c, s, CrashRestart(n, offset))
    ensures Inv(c, Next(c, s, CrashRestart(n, offset)), h)
  {
    hide Inv, Good, Extends, OthersUntouched, Committed, PeerLinked;
    var p := s.procs[n];
    InvAt(c, s, h, n);
    SelfUntouched(h, n);
    RebootOk(c, h, p, n, p.raft.term, p.raft.votedFor, p.raft.log, offset);
    StepAt(c, s, h, Next(c, s, CrashRestart(n, offset)), h, n);
  }

  lemma CrashOnTermKeeps(c: Config, s: State, h: History, m: Message, offset: nat) returns (k: History)
    requires Inv(c, s, h) && Enabled(c, s, CrashOnTerm(m, offset))
    ensures Inv(c, Next(c, s, CrashOnTerm(m, offset)), k) && Extends(h, k)
  {
    hide Inv, Good, Extends, OthersUntouched, Committed, PeerLinked;
    var n := m.to;
    var p := s.procs[n];
    InvAt(c, s, h, n);
    k := EnterKeeps(h, n, p.raft, m.term);
    RebootOk(c, k, p, n, m.term, None, p.raft.log, offset);
    StepAt(c, s, h, Next(c, s, CrashOnTerm(m, offset)), k, n);
  }

  lemma CrashInAppendKeeps(c: Config, s: State, h: History, m: Message, written: nat, offset: nat) returns (k: History)
    requires Inv(c, s, h) && Enabled(c, s, CrashInAppend(m, written, offset))
    ensures Inv(c, Next(c, s, CrashInAppend(m, written, offset)), k) && Extends(h, k)
  {
    hide Inv, Good, Extends, OthersUntouched, Committed, PeerLinked, BodyOk, MergeUpTo;
    var n := m.to;
    var p := s.procs[n];
    InvAt(c, s, h, n);
    InvMessage(c, s, h, m);
    k := TakeIn(h, p.raft, n, m.term, m.body, written);
    var r := EnterTerm(p.raft, m.term);
    RebootOk(c, k, p, n, r.term, r.votedFor, MergeUpTo(r.log, m.body.prev + 1, m.body.entries, written), offset);
    StepAt(c, s, h, Next(c, s, CrashInAppend(m, written, offset)), k, n);
  }

  // ---------------------------------------------------------------- every step

  lemma StepKeeps(c: Config, s: State, h: History, e: Event) returns (k: History)
    requires Inv(c, s, h) && Enabled(c, s, e) && TermGuard(s, e)
    ensures Inv(c, Next(c, s, e), k) && Extends(h, k)
  {
    hide Inv, Next, Enabled, TermGuard, Extends;
    k := h;
    ExtendsSelf(h);
    match e
    case ElectionTimeout(n) => k := TimeoutKeeps(c, s, h, n);
    case DeliverVoteRequest(m) => k := VoteRequestKeeps(c, s, h, m);
    case DeliverVoteReply(m) => k := VoteReplyKeeps(c, s, h, m);
    case Heartbeat(n) => HeartbeatKeeps(c, s, h, n);
    case SendAppend(n, q, t) => SendKeeps(c, s, h, n, q, t);
    case DeliverAppend(m) => k := AppendKeeps(c, s, h, m);
    case DeliverAppendReply(m) => k := AppendReplyKeeps(c, s, h, m);
    case Propose(n, command) => k := ProposeKeeps(c, s, h, n, command);
    case SendApply(_) => ApplyKeeps(c, s, h, e);
    case ReceiveApply(_) => ApplyKeeps(c, s, h, e);
    case AppendToWal(_) => ApplyKeeps(c, s, h, e);
    case CrashRestart(n, offset) => CrashKeeps(c, s, h, n, offset);
    case CrashOnTerm(m, offset) => k := CrashOnTermKeeps(c, s, h, m, offset);
    case CrashInAppend(m, written, offset) => k := CrashInAppendKeeps(c, s, h, m, written, offset);
  }

  ghost function InitialHistory(c: Config): History {
    History(c.nodes,
            map n | n in c.nodes :: 0, map n | n in c.nodes :: [DUMMY],
            map[0 := [DUMMY]], map[],
            map n | n in c.nodes :: (n, 0) := 1,
            map[], map[])
  }

  lemma InitOk(c: Config)
    requires c.nodes != {}
    ensures Inv(c, Init(c), InitialHistory(c))
  {
    InitGood(c);
    DummyChosen(c);
    hide Good;
  }

  lemma DummyChosen(c: Config)
    requires c.nodes != {}
    ensures Committed(InitialHistory(c), [DUMMY], 0, 0)
  {
    assert ChosenBy(InitialHistory(c), 0, 1, c.nodes);
    assert CommittedAs(InitialHistory(c), [DUMMY], 0, 0, 0, 1);
  }

  lemma InitGood(c: Config)
    requires c.nodes != {}
    ensures Good(InitialHistory(c))
  {
  }
}
