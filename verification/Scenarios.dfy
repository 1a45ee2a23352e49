/**
 Building runs: what a few steps of the cluster do together, for use in proofs that something can happen. Every lemma
 takes a state that some run reaches and gives one that a longer run reaches.
 */
module Scenarios {
  import opened RaftTypes
  import opened RaftNode
  import opened Cluster

  /** Which of the two term checks that replicateToPeer lacks are kept to all along a run. */
  datatype Checks = Checks(send: bool, reply: bool)

  ghost predicate Allowed(g: Checks, s: State, e: Event) {
    (g.send ==> SendGuard(s, e)) && (g.reply ==> ReplyGuard(s, e))
  }

  ghost predicate Checked(g: Checks, run: Run) {
    && |run.states| == |run.events| + 1
    && forall i | 0 <= i < |run.events| :: Allowed(g, run.states[i], run.events[i])
  }

  ghost predicate Ends(c: Config, g: Checks, run: Run, s: State) {
    IsRun(c, run) && Checked(g, run) && run.states[|run.events|] == s
  }

  ghost predicate Reachable(c: Config, g: Checks, s: State) {
    exists run :: Ends(c, g, run, s)
  }

  lemma ReachableNext(c: Config, g: Checks, s: State, e: Event)
    requires Reachable(c, g, s) && Enabled(c, s, e) && Allowed(g, s, e)
    ensures Reachable(c, g, Next(c, s, e))
  {
    hide Enabled, Next, Init, Allowed;
    var run :| Ends(c, g, run, s);
    var more := Run(run.states + [Next(c, s, e)], run.events + [e]);
    forall i: nat ensures StepOk(c, more, i) {
      assert StepOk(c, run, i);
    }
    assert Ends(c, g, more, Next(c, s, e));
  }

  lemma ReachableInit(c: Config, g: Checks)
    requires c.nodes != {}
    ensures Reachable(c, g, Init(c))
  {
    hide Init, Enabled, Next;
    var run := Run([Init(c)], []);
    assert forall i: nat :: StepOk(c, run, i);
    assert Ends(c, g, run, Init(c));
  }

  /**
   Nothing the world may do is left out: in any state, timers fire, commands come, nodes crash with any records lost, any
   request ever sent arrives, and so does any reply to a call of a present incarnation that is still awaited.
   */
  lemma AnythingMayHappen(c: Config, s: State, n: NodeId, m: Message, command: Bytes, offset: nat)
    requires n in s.procs && m in s.net && m.to in s.procs && offset <= |s.procs[n].wal|
    ensures Enabled(c, s, ElectionTimeout(n)) && Enabled(c, s, Propose(n, command)) && Enabled(c, s, CrashRestart(n, offset))
    ensures m.VoteRequest? ==> Enabled(c, s, DeliverVoteRequest(m))
    ensures m.AppendRequest? ==> Enabled(c, s, DeliverAppend(m))
    ensures m.AppendReply? && m.epoch == s.procs[m.to].epoch ==> Enabled(c, s, DeliverAppendReply(m))
    ensures m.VoteReply? && m.epoch == s.procs[m.to].epoch && (m.savedTerm == s.procs[m.to].raft.term ==> m.from in s.procs[m.to].voteCalls) ==>
              Enabled(c, s, DeliverVoteReply(m))
  {
  }

  // ---------------------------------------------------------------- what a few steps do together

  /** A node that has neither restarted nor applied anything. */
  ghost predicate New(p: Process) {
    p.epoch == 0 && p.wal == [] && p.sending == None && p.received == None && p.raft.lastApplied == 0
  }

  ghost predicate Live(c: Config, g: Checks, s: State) {
    Reachable(c, g, s) && s.procs.Keys == c.nodes && forall n | n in s.procs :: New(s.procs[n])
  }

  ghost predicate Up(s: State, n: NodeId, term: nat, log: Log) {
    n in s.procs && s.procs[n].raft.term == term && s.procs[n].raft.log == log
  }

  ghost predicate Leads(s: State, n: NodeId, term: nat, log: Log) {
    Up(s, n, term, log) && s.procs[n].raft.role == Leader
  }

  /** No other node changed, and no node forgot a term in which it started heartbeats. */
  ghost predicate Only(s: State, t: State, ns: set<NodeId>) {
    && s.net <= t.net
    && forall n | n in s.procs :: n in t.procs && s.procs[n].savedTerms <= t.procs[n].savedTerms
                                 && (n !in ns ==> t.procs[n] == s.procs[n])
  }

  lemma Start(c: Config, g: Checks) returns (s: State)
    requires c.nodes != {}
    ensures Live(c, g, s) && forall n | n in c.nodes :: Up(s, n, 0, [DUMMY])
  {
    hide Reachable;
    ReachableInit(c, g);
    s := Init(c);
  }

  lemma Timeout(c: Config, g: Checks, s: State, n: NodeId) returns (t: State)
    requires Live(c, g, s) && n in c.nodes
    ensures Live(c, g, t) && Only(s, t, {n}) && t.procs[n].voteCalls == c.Peers(n)
    ensures var r := t.procs[n].raft;
            && r == StartElection(s.procs[n].raft, n)
            && forall q | q in c.Peers(n) :: VoteRequest(n, q, 0, r.term, r.LastIndex(), LastTerm(r.log)) in t.net
  {
    hide Reachable;
    ReachableNext(c, g, s, ElectionTimeout(n));
    t := Next(c, s, ElectionTimeout(n));
  }

  /** f has a vote for the candidate n in this term: it is new to the term, or has not voted in it, or voted for n. */
  ghost predicate HasVote(f: RaftState, term: nat, n: NodeId) {
    f.term < term || (f.term == term && (f.votedFor == None || f.votedFor == Some(n)))
  }

  /** n may be elected in its next term with the vote of q. */
  ghost predicate MayVote(s: State, n: NodeId, q: NodeId)
    requires n in s.procs && q in s.procs
  {
    var r, f := s.procs[n].raft, s.procs[q].raft;
    HasVote(f, r.term + 1, n) && UpToDate(LastTerm(r.log), r.LastIndex(), f.log)
  }

  /** The candidate n asked q, which has a vote for it. */
  ghost predicate Asked(s: State, n: NodeId, q: NodeId)
    requires n in s.procs && q in s.procs
  {
    var r, f := s.procs[n].raft, s.procs[q].raft;
    && q in s.procs[n].voteCalls && VoteRequest(n, q, 0, r.term, r.LastIndex(), LastTerm(r.log)) in s.net
    && HasVote(f, r.term, n) && UpToDate(LastTerm(r.log), r.LastIndex(), f.log)
  }

  /** q votes for the candidate n. */
  lemma Vote(c: Config, g: Checks, s: State, n: NodeId, q: NodeId) returns (t: State)
    requires Live(c, g, s) && n in c.nodes && q in c.Peers(n)
    requires s.procs[n].raft.role == Candidate && Asked(s, n, q)
    ensures Live(c, g, t) && Only(s, t, {n, q}) && Up(t, q, s.procs[n].raft.term, s.procs[q].raft.log)
    ensures t.procs[n].voteCalls == s.procs[n].voteCalls - {q}
    ensures var r := s.procs[n].raft; t.procs[n].raft == OnVoteReply(r, c.Peers(n), r.term, r.term, true)
  {
    hide Reachable, OnVoteReply, UpToDate;
    var r := s.procs[n].raft;
    var m := VoteRequest(n, q, 0, r.term, r.LastIndex(), LastTerm(r.log));
    ReachableNext(c, g, s, DeliverVoteRequest(m));
    var s1 := Next(c, s, DeliverVoteRequest(m));
    var reply := VoteReply(q, n, 0, r.term, r.term, true);
    assert reply in s1.net;
    ReachableNext(c, g, s1, DeliverVoteReply(reply));
    t := Next(c, s1, DeliverVoteReply(reply));
    OnVoteReplyKeeps(r, c.Peers(n));
  }

  lemma OnVoteReplyKeeps(r: RaftState, peers: set<NodeId>)
    ensures OnVoteReply(r, peers, r.term, r.term, true).lastApplied == r.lastApplied
  {
  }

  /** n leads in a term, with this log, and has told no follower anything yet. */
  ghost predicate Elected(c: Config, s: State, n: NodeId, term: nat, log: Log) {
    n in s.procs && Won(s.procs[n].raft, c.Peers(n), term, log)
  }

  ghost predicate Won(r: RaftState, peers: set<NodeId>, term: nat, log: Log) {
    && r.role == Leader && r.term == term && r.log == log
    && forall p | p in peers :: Lookup(r.nextIndex, p) == |log| && Lookup(r.matchIndex, p) == 0
  }

  /** One more vote wins exactly if it makes a majority of the cluster. */
  lemma CountVote(r: RaftState, peers: set<NodeId>)
    requires r.role == Candidate
    ensures var r' := OnVoteReply(r, peers, r.term, r.term, true);
            if 2 * (r.totalVotes + 1) > |peers| + 1 then Won(r', peers, r.term, r.log)
            else r' == r.(totalVotes := r.totalVotes + 1)
  {
  }

  /** The candidate n gathers the votes of these nodes, the last of which makes a majority. */
  lemma {:induction false} Gather(c: Config, g: Checks, s: State, n: NodeId, voters: set<NodeId>) returns (t: State)
    requires Live(c, g, s) && n in c.nodes && voters <= c.Peers(n) && voters != {}
    requires var r := s.procs[n].raft;
             && r.role == Candidate
             && 2 * (r.totalVotes + |voters| - 1) <= |c.nodes| < 2 * (r.totalVotes + |voters|)
    requires forall q | q in voters :: Asked(s, n, q)
    ensures Live(c, g, t) && Only(s, t, {n} + voters)
    ensures Elected(c, t, n, s.procs[n].raft.term, s.procs[n].raft.log)
    ensures forall q | q in voters :: Up(t, q, s.procs[n].raft.term, s.procs[q].raft.log)
    decreases |voters|
  {
    hide Live, Up, Won, OnVoteReply, Asked;
    assert s.procs.Keys == c.nodes by { LiveNodes(c, g, s); }
    var q :| q in voters;
    var rest := voters - {q};
    var s1 := Vote(c, g, s, n, q);
    LiveNodes(c, g, s1);
    assert |c.nodes| == |c.Peers(n)| + 1 by { assert c.nodes == c.Peers(n) + {n}; }
    CountVote(s.procs[n].raft, c.Peers(n));
    if rest == {} {
      assert voters == {q};
      t := s1;
    } else {
      forall p | p in rest ensures Asked(s1, n, p) {
        StillAsked(s, s1, n, q, p);
      }
      t := Gather(c, g, s1, n, rest);
      StillUp(c, s, s1, t, n, q, rest);
    }
  }

  lemma LiveNodes(c: Config, g: Checks, s: State)
    requires Live(c, g, s)
    ensures s.procs.Keys == c.nodes
  {
  }

  lemma StillAsked(s: State, t: State, n: NodeId, q: NodeId, p: NodeId)
    requires n in s.procs && p in s.procs && Asked(s, n, p) && p != q && p != n
    requires Only(s, t, {n, q}) && t.procs[n].voteCalls == s.procs[n].voteCalls - {q}
    requires t.procs[n].raft.term == s.procs[n].raft.term && t.procs[n].raft.log == s.procs[n].raft.log
    ensures Asked(t, n, p)
  {
    hide UpToDate, LastTerm;
  }

  /** The votes of q and of the rest together changed only these nodes, and left each as it was when it voted. */
  lemma StillUp(c: Config, s: State, s1: State, t: State, n: NodeId, q: NodeId, rest: set<NodeId>)
    requires n in s.procs && q in s.procs && rest <= s.procs.Keys && n != q && q !in rest && n !in rest
    requires Only(s, s1, {n, q}) && Only(s1, t, {n} + rest)
    requires Up(s1, q, s.procs[n].raft.term, s.procs[q].raft.log)
    requires forall p | p in rest && p in s1.procs :: Up(t, p, s.procs[n].raft.term, s1.procs[p].raft.log)
    ensures Only(s, t, {n} + (rest + {q}))
    ensures forall p | p in rest + {q} :: p in s.procs && Up(t, p, s.procs[n].raft.term, s.procs[p].raft.log)
  {
    forall p | p in rest + {q} ensures Up(t, p, s.procs[n].raft.term, s.procs[p].raft.log) {
      if p != q { assert s1.procs[p] == s.procs[p]; }
    }
  }

  /**
   Any node may be elected by any smallest majority that has a vote left for it: its log must be up to date to each of
   them, and each must be behind its next term or free to vote in it.
   */
  lemma Elect(c: Config, g: Checks, s: State, n: NodeId, voters: set<NodeId>) returns (t: State)
    requires Live(c, g, s) && n in c.nodes && voters <= c.Peers(n) && voters != {}
    requires 2 * |voters| <= |c.nodes| < 2 * (1 + |voters|) && forall q | q in voters :: MayVote(s, n, q)
    ensures Live(c, g, t) && Only(s, t, {n} + voters)
    ensures var term := s.procs[n].raft.term + 1;
            && Elected(c, t, n, term, s.procs[n].raft.log)
            && forall q | q in voters :: Up(t, q, term, s.procs[q].raft.log)
  {
    hide Reachable, New, Won, UpToDate, LastTerm;
    var s1 := Timeout(c, g, s, n);
    forall q | q in voters ensures Asked(s1, n, q) {
      assert MayVote(s, n, q) && s1.procs[q] == s.procs[q];
    }
    t := Gather(c, g, s1, n, voters);
  }

  ghost predicate Three(c: Config, a: NodeId, x: NodeId, y: NodeId) {
    c.nodes == {a, x, y} && |c.nodes| == 3 && a != x && a != y && x != y
  }

  /** One vote besides its own makes n a leader of a cluster of three. */
  lemma ElectOfThree(c: Config, g: Checks, s: State, n: NodeId, p: NodeId) returns (t: State)
    requires Live(c, g, s) && |c.nodes| == 3 && {n, p} <= c.nodes && n != p && MayVote(s, n, p)
    ensures Live(c, g, t) && Only(s, t, {n, p})
    ensures var term := s.procs[n].raft.term + 1;
            Elected(c, t, n, term, s.procs[n].raft.log) && Up(t, p, term, s.procs[p].raft.log)
  {
    hide Reachable, New, Won, MayVote, LastTerm;
    assert {n} + {p} == {n, p};
    t := Elect(c, g, s, n, {p});
  }

  /** Two votes besides its own make n a leader of a cluster of five. */
  lemma ElectOfFive(c: Config, g: Checks, s: State, n: NodeId, p: NodeId, q: NodeId) returns (t: State)
    requires Live(c, g, s) && |c.nodes| == 5 && {n, p, q} <= c.nodes && n != p && n != q && p != q
    requires MayVote(s, n, p) && MayVote(s, n, q)
    ensures Live(c, g, t) && Only(s, t, {n, p, q})
    ensures var term := s.procs[n].raft.term + 1;
            && Elected(c, t, n, term, s.procs[n].raft.log)
            && Up(t, p, term, s.procs[p].raft.log) && Up(t, q, term, s.procs[q].raft.log)
  {
    hide Reachable, New, Won, MayVote, LastTerm;
    assert {n} + {p, q} == {n, p, q} && |{p, q}| == 2;
    t := Elect(c, g, s, n, {p, q});
  }

  /** In any state, what is proposed to a leader goes to the end of its log in its term, and what is proposed to others nowhere. */
  lemma Proposed(c: Config, s: State, n: NodeId, command: Bytes)
    requires n in s.procs
    ensures Enabled(c, s, Propose(n, command))
    ensures var r := s.procs[n].raft;
            var log := if r.role == Leader then r.log + [LogEntry(r.term, command)] else r.log;
            Next(c, s, Propose(n, command)) == With(s, n, s.procs[n].(raft := r.(log := log)))
  {
  }

  /** The leader takes in a command. */
  lemma Take(c: Config, g: Checks, s: State, n: NodeId, term: nat, log: Log, e: LogEntry) returns (t: State)
    requires Live(c, g, s) && n in c.nodes && Leads(s, n, term, log) && e.term == term
    ensures Live(c, g, t) && Only(s, t, {n}) && Leads(t, n, term, log + [e])
    ensures t.procs[n].raft == s.procs[n].raft.(log := log + [e])
  {
    hide Reachable;
    Proposed(c, s, n, e.command);
    ReachableNext(c, g, s, Propose(n, e.command));
    t := Next(c, s, Propose(n, e.command));
  }

  lemma Beat(c: Config, g: Checks, s: State, n: NodeId) returns (t: State)
    requires Live(c, g, s) && n in c.nodes && s.procs[n].raft.role == Leader
    ensures Live(c, g, t) && Only(s, t, {n}) && t.procs[n].raft == s.procs[n].raft
    ensures t.procs[n].raft.term in t.procs[n].savedTerms
  {
    hide Reachable;
    ReachableNext(c, g, s, Heartbeat(n));
    t := Next(c, s, Heartbeat(n));
  }

  /** replicateToPeer sends, with the term it was given, what it now has for the peer. */
  lemma Send(c: Config, g: Checks, s: State, n: NodeId, q: NodeId, savedTerm: nat) returns (t: State, m: Message)
    requires Live(c, g, s) && n in c.nodes && q in c.Peers(n) && savedTerm in s.procs[n].savedTerms
    requires s.procs[n].raft.role == Leader && AppendFor(s.procs[n].raft, q).Some?
    requires g.send ==> savedTerm == s.procs[n].raft.term
    ensures Live(c, g, t) && Only(s, t, {}) && t.procs == s.procs
    ensures m in t.net && m == AppendRequest(n, q, 0, savedTerm, AppendFor(s.procs[n].raft, q).value)
  {
    hide Reachable;
    ReachableNext(c, g, s, SendAppend(n, q, savedTerm));
    t := Next(c, s, SendAppend(n, q, savedTerm));
    m := AppendRequest(n, q, 0, savedTerm, AppendFor(s.procs[n].raft, q).value);
  }

  function Handled(r: RaftState, m: Message): (RaftState, AppendOutcome)
    requires m.AppendRequest?
  {
    OnAppendRequest(r, m.term, m.body.prev, m.body.prevTerm, m.body.entries, m.body.leaderCommit)
  }

  lemma AlwaysReplied(r: RaftState, m: Message)
    requires m.AppendRequest? && m.body.prev >= 0
    ensures Handled(r, m).1.Replied?
  {
    hide MergeUpTo;
  }

  function ReplyTo(m: Message, outcome: AppendOutcome): Message
    requires m.AppendRequest? && outcome.Replied?
  {
    AppendReply(m.to, m.from, 0, m.term, m.body.prev, |m.body.entries|, outcome.term, outcome.success)
  }

  lemma Deliver(c: Config, g: Checks, s: State, m: Message) returns (t: State)
    requires Live(c, g, s) && m in s.net && m.AppendRequest? && m.epoch == 0 && m.to in c.nodes
    ensures Live(c, g, t) && Only(s, t, {m.to})
    ensures t.procs[m.to].raft == Handled(s.procs[m.to].raft, m).0
    ensures Handled(s.procs[m.to].raft, m).1.Replied? ==> ReplyTo(m, Handled(s.procs[m.to].raft, m).1) in t.net
  {
    hide Reachable, MergeUpTo;
    ReachableNext(c, g, s, DeliverAppend(m));
    t := Next(c, s, DeliverAppend(m));
  }

  lemma Answer(c: Config, g: Checks, s: State, m: Message) returns (t: State)
    requires Live(c, g, s) && m in s.net && m.AppendReply? && m.epoch == 0 && m.to in c.nodes
    requires g.reply && s.procs[m.to].raft.role == Leader ==> s.procs[m.to].raft.term == m.savedTerm
    ensures Live(c, g, t) && Only(s, t, {m.to})
    ensures t.procs[m.to].raft
            == OnAppendReply(s.procs[m.to].raft, c.Peers(m.to), m.from, m.savedTerm, m.prev, m.count, m.term, m.success)
  {
    hide Reachable, CommitFrom;
    ReachableNext(c, g, s, DeliverAppendReply(m));
    t := Next(c, s, DeliverAppendReply(m));
  }

  ghost function RequestFor(s: State, n: NodeId, q: NodeId): Message
    requires n in s.procs && AppendFor(s.procs[n].raft, q).Some?
  {
    AppendRequest(n, q, 0, s.procs[n].raft.term, AppendFor(s.procs[n].raft, q).value)
  }

  lemma RequestParts(s: State, n: NodeId, q: NodeId)
    requires n in s.procs && AppendFor(s.procs[n].raft, q).Some?
    ensures var r, b := s.procs[n].raft, RequestFor(s, n, q).body;
            && 0 <= b.prev == Lookup(r.nextIndex, q) - 1 < |r.log| && b.prevTerm == r.log[b.prev].term
            && b.entries == r.log[b.prev + 1..] && b.leaderCommit == r.commitIndex
  {
  }

  /** A heartbeat in the leader's own term: the request goes out, is handled, and its reply is handled. */
  lemma Exchange(c: Config, g: Checks, s: State, n: NodeId, q: NodeId) returns (t: State)
    requires Live(c, g, s) && n in c.nodes && q in c.Peers(n)
    requires s.procs[n].raft.role == Leader && AppendFor(s.procs[n].raft, q).Some?
    ensures Live(c, g, t) && Only(s, t, {n, q})
    ensures var m := RequestFor(s, n, q);
            var (r, outcome) := Handled(s.procs[q].raft, m);
            && outcome.Replied? && t.procs[q].raft == r
            && t.procs[n].raft == OnAppendReply(s.procs[n].raft, c.Peers(n), q, m.term,
                                    m.body.prev, |m.body.entries|, outcome.term, outcome.success)
  {
    hide Reachable, New, Handled, AppendFor, OnAppendReply;
    var s1 := Beat(c, g, s, n);
    var s2, m := Send(c, g, s1, n, q, s1.procs[n].raft.term);
    assert m == RequestFor(s, n, q) && s2.procs[q] == s.procs[q];
    RequestParts(s, n, q);
    AlwaysReplied(s.procs[q].raft, m);
    var s3 := Deliver(c, g, s2, m);
    assert s3.procs[n].raft == s.procs[n].raft;
    t := Answer(c, g, s3, ReplyTo(m, Handled(s.procs[q].raft, m).1));
  }

  // ---------------------------------------------------------------- bringing a follower up to date

  /** A request that q rejects makes the leader n go one entry further back. */
  lemma Rejection(c: Config, g: Checks, s: State, n: NodeId, q: NodeId, term: nat, log: Log) returns (t: State)
    requires Live(c, g, s) && n in c.nodes && q in c.Peers(n) && Leads(s, n, term, log)
    requires 1 < Lookup(s.procs[n].raft.nextIndex, q) <= |log| && s.procs[q].raft.term <= term
    requires var prev := Lookup(s.procs[n].raft.nextIndex, q) - 1; !Accepts(s.procs[q].raft, term, prev, log[prev].term)
    ensures Live(c, g, t) && Only(s, t, {n, q}) && Leads(t, n, term, log) && Up(t, q, term, s.procs[q].raft.log)
    ensures var r := s.procs[n].raft; t.procs[n].raft == r.(nextIndex := r.nextIndex[q := Lookup(r.nextIndex, q) - 1])
  {
    hide Reachable, New, MergeUpTo;
    t := Exchange(c, g, s, n, q);
  }

  /** The log holds the other one up to index k, and conflicts with it right after, or ends there. */
  ghost predicate Shares(l: Log, log: Log, k: nat) {
    k + 1 < |log| && Agree(l, log, k + 1) && (|l| > k + 1 ==> l[k + 1].term != log[k + 1].term)
  }

  lemma TakesAll(r: RaftState, m: Message, k: nat, log: Log)
    requires Shares(r.log, log, k) && m.AppendRequest? && m.term >= r.term
    requires m.body.prev == k && m.body.prevTerm == log[k].term && m.body.entries == log[k + 1..]
    ensures var (r', outcome) := Handled(r, m);
            && r'.log == log && r'.term == m.term && outcome == Replied(true, m.term)
            && r'.commitIndex >= if m.body.leaderCommit < |log| then m.body.leaderCommit else |log| - 1
  {
  }

  lemma AckedAll(r: RaftState, peers: set<NodeId>, q: NodeId, savedTerm: nat, prev: nat, count: nat, term: nat)
    requires r.role == Leader && term <= savedTerm
    ensures var r' := OnAppendReply(r, peers, q, savedTerm, prev, count, term, true);
            && r'.role == Leader && r'.term == r.term && r'.log == r.log && r'.matchIndex == r.matchIndex[q := prev + count]
            && r'.nextIndex == r.nextIndex[q := prev + count + 1]
  {
  }

  /** The acknowledgement of q, on top of those of w, commits index n if that makes a majority. */
  lemma AckCommits(r: RaftState, peers: set<NodeId>, w: set<NodeId>, q: NodeId, savedTerm: nat, prev: int, count: nat, term: nat, n: nat)
    requires w <= peers && q in peers && q !in w && 2 + |w| > (|peers| + 1) / 2
    requires r.role == Leader && term <= savedTerm && n < |r.log| && r.log[n].term == r.term
    requires (forall p | p in w :: Lookup(r.matchIndex, p) >= n) && prev + count >= n
    ensures OnAppendReply(r, peers, q, savedTerm, prev, count, term, true).commitIndex >= n
  {
    var acked := r.(nextIndex := r.nextIndex[q := prev + count + 1], matchIndex := r.matchIndex[q := prev + count]);
    assert w + {q} <= Holders(acked, peers, n);
    SubsetSize(w + {q}, Holders(acked, peers, n));
    assert Committable(acked, peers, n);
  }

  /**
   The leader n brings q, which holds its log up to index `matched`, up to date, and commits its last entry if that is
   of its term and, with the peers in w, makes a majority.
   */
  lemma Replicate(c: Config, g: Checks, s: State, n: NodeId, q: NodeId, term: nat, matched: nat, log: Log, w: set<NodeId>)
      returns (t: State)
    requires Live(c, g, s) && n in c.nodes && q in c.Peers(n) && Leads(s, n, term, log)
    requires Lookup(s.procs[n].raft.nextIndex, q) == matched + 1
    requires s.procs[q].raft.term <= term && Shares(s.procs[q].raft.log, log, matched)
    requires w <= c.Peers(n) - {q} && forall p | p in w :: Lookup(s.procs[n].raft.matchIndex, p) >= |log| - 1
    ensures Live(c, g, t) && Only(s, t, {n, q}) && Up(t, q, term, log) && Leads(t, n, term, log)
    ensures var r, r' := s.procs[n].raft, t.procs[n].raft;
            && r'.matchIndex == r.matchIndex[q := |log| - 1] && r'.nextIndex == r.nextIndex[q := |log|]
            && (LastTerm(log) == term && 2 + |w| > |c.nodes| / 2 ==> r'.commitIndex >= |log| - 1)
  {
    hide Live, OnAppendReply, Handled;
    LiveNodes(c, g, s);
    var r := s.procs[n].raft;
    RequestParts(s, n, q);
    hide RequestFor, Agree;
    t := Exchange(c, g, s, n, q);
    TakesAll(s.procs[q].raft, RequestFor(s, n, q), matched, log);
    AckedAll(r, c.Peers(n), q, term, matched, |log| - 1 - matched, term);
    assert c.nodes == c.Peers(n) + {n};
    if LastTerm(log) == term && 2 + |w| > |c.nodes| / 2 {
      AckCommits(r, c.Peers(n), w, q, term, matched, |log| - 1 - matched, term, |log| - 1);
    }
  }

  /** In a cluster of three, a leads term 1 with the vote of x, and takes in two entries, which it tells no one. */
  lemma FirstTerm(c: Config, g: Checks, a: NodeId, x: NodeId, y: NodeId, d: LogEntry, e: LogEntry) returns (t: State)
    requires Three(c, a, x, y) && d.term == e.term == 1
    ensures Live(c, g, t) && Leads(t, a, 1, [DUMMY, d, e]) && Up(t, x, 1, [DUMMY]) && Up(t, y, 0, [DUMMY])
    ensures Lookup(t.procs[a].raft.nextIndex, x) == 1
  {
    hide Reachable, New;
    var s0 := Start(c, g);
    var s1 := ElectOfThree(c, g, s0, a, x);
    assert x in c.Peers(a) && [DUMMY] + [d] == [DUMMY, d] && [DUMMY, d] + [e] == [DUMMY, d, e];
    var s2 := Take(c, g, s1, a, 1, [DUMMY], d);
    t := Take(c, g, s2, a, 1, [DUMMY, d], e);
  }
}
