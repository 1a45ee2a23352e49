/**
 What every run of a cluster keeps, under the hypothesis that replicateToPeer uses the term of its own leadership
 (Cluster.Guarded). The states compared may lie anywhere in the run, in either order, with restarts in between.
 */
module ClusterSafety {
  import opened RaftTypes
  import opened RaftNode
  import opened RaftHistory
  import opened RaftMoves
  import opened Cluster
  import opened ClusterInvariant

  // ---------------------------------------------------------------- a history for every state

  ghost predicate Explains(c: Config, run: Run, hs: seq<History>) {
    && |hs| == |run.states|
    && (forall i: nat | i < |hs| :: Inv(c, run.states[i], hs[i]))
    && (forall i: nat, j: nat | i <= j < |hs| :: Extends(hs[i], hs[j]))
    && |hs| > 0 && hs[0] == InitialHistory(c)
  }

  lemma {:induction false} Histories(c: Config, run: Run) returns (hs: seq<History>)
    requires IsRun(c, run) && Guarded(run)
    ensures Explains(c, run, hs)
    decreases |run.events|
  {
    hide Inv, Extends, Enabled, Next, TermGuard, Init, InitialHistory;
    var n := |run.events|;
    if n == 0 {
      InitOk(c);
      hs := [InitialHistory(c)];
      ExtendsSelf(hs[0]);
    } else {
      var before := Run(run.states[..n], run.events[..n - 1]);
      forall i: nat ensures StepOk(c, before, i) { assert StepOk(c, run, i); }
      var gs := Histories(c, before);
      assert StepOk(c, run, n - 1);
      var k := StepKeeps(c, run.states[n - 1], gs[n - 1], run.events[n - 1]);
      hs := gs + [k];
      forall i: nat | i < |hs| ensures Inv(c, run.states[i], hs[i]) {
        if i < n { assert run.states[i] == before.states[i]; }
      }
      forall i: nat, j: nat | i <= j < |hs| ensures Extends(hs[i], hs[j]) {
        if i < n && j == n {
          ExtendsTransitive(hs[i], hs[n - 1], k);
        } else if i == n {
          ExtendsSelf(k);
        }
      }
    }
  }

  /** Node a of state i, in terms of the history of any later state j. */
  ghost predicate Placed(c: Config, h: History, r: RaftState, a: NodeId) {
    && LogOk(h, r.log)
    && Committed(h, r.log, r.commitIndex, r.term)
    && 0 <= r.lastApplied <= r.commitIndex < |r.log|
    && (r.role == Leader ==>
          && r.term in h.leader && h.leader[r.term] == a
          && r.term in h.leaderLog && Agree(r.log, h.leaderLog[r.term], |r.log|))
  }

  lemma PlacedIn(c: Config, s: State, h: History, k: History, a: NodeId)
    requires Inv(c, s, h) && Extends(h, k) && a in s.procs
    ensures Placed(c, k, s.procs[a].raft, a)
  {
    hide Inv, Good, Committed, LogOk, PeerLinked;
    var r := s.procs[a].raft;
    InvAt(c, s, h, a);
    GoodLogs(h, a, r.term);
    LogOkStable(h, k, r.log);
    CommittedStable(h, k, r.log, r.commitIndex, r.term);
    CommittedBound(h, r.log, r.commitIndex, r.term);
    if r.role == Leader {
      assert Agree(h.leaderLog[r.term], k.leaderLog[r.term], |h.leaderLog[r.term]|);
    }
  }

  /** A node of a state of a run. */
  ghost predicate InRun(run: Run, i: nat, a: NodeId) {
    i < |run.states| && a in run.states[i].procs
  }

  ghost function NodeAt(run: Run, i: nat, a: NodeId): RaftState
    requires InRun(run, i, a)
  {
    run.states[i].procs[a].raft
  }

  /** One history in which two nodes, each at its own time, can be placed. */
  lemma Meet(c: Config, run: Run, i: nat, a: NodeId, j: nat, b: NodeId) returns (h: History)
    requires IsRun(c, run) && Guarded(run) && InRun(run, i, a) && InRun(run, j, b)
    ensures Good(h) && Extends(InitialHistory(c), h)
    ensures Placed(c, h, NodeAt(run, i, a), a) && Placed(c, h, NodeAt(run, j, b), b)
  {
    hide Inv, Extends, Placed, IsRun, Guarded, InitialHistory;
    var hs := Histories(c, run);
    var l := if i <= j then j else i;
    h := hs[l];
    PlacedIn(c, run.states[i], hs[i], h, a);
    PlacedIn(c, run.states[j], hs[j], h, b);
    var n :| n in run.states[l].procs;
    InvAt(c, run.states[l], h, n);
  }

  // ---------------------------------------------------------------- the safety properties of Raft

  /** Election Safety: a term never has two leaders. */
  lemma ElectionSafety(c: Config, run: Run, i: nat, a: NodeId, j: nat, b: NodeId)
    requires IsRun(c, run) && Guarded(run) && InRun(run, i, a) && InRun(run, j, b)
    requires NodeAt(run, i, a).role == Leader && NodeAt(run, j, b).role == Leader
    requires NodeAt(run, i, a).term == NodeAt(run, j, b).term
    ensures a == b
  {
    hide Good, Extends, IsRun, Guarded, InitialHistory;
    var h := Meet(c, run, i, a, j, b);
  }

  /** Log Matching: two logs with the same term at an index are equal through that index. */
  lemma LogMatching(c: Config, run: Run, i: nat, a: NodeId, j: nat, b: NodeId, k: nat)
    requires IsRun(c, run) && Guarded(run) && InRun(run, i, a) && InRun(run, j, b)
    requires k < |NodeAt(run, i, a).log| && k < |NodeAt(run, j, b).log|
    requires NodeAt(run, i, a).log[k].term == NodeAt(run, j, b).log[k].term
    ensures Agree(NodeAt(run, i, a).log, NodeAt(run, j, b).log, k + 1)
  {
    hide Good, Extends, IsRun, Guarded, InitialHistory, LogOk;
    var h := Meet(c, run, i, a, j, b);
    LogsMatch(h, NodeAt(run, i, a).log, NodeAt(run, j, b).log, k);
  }

  /** State Machine Safety: two nodes that both committed index k hold the same entries through k. */
  lemma StateMachineSafety(c: Config, run: Run, i: nat, a: NodeId, j: nat, b: NodeId, k: nat)
    requires IsRun(c, run) && Guarded(run) && InRun(run, i, a) && InRun(run, j, b)
    requires k <= NodeAt(run, i, a).commitIndex && k <= NodeAt(run, j, b).commitIndex
    ensures Agree(NodeAt(run, i, a).log, NodeAt(run, j, b).log, k + 1)
  {
    hide Good, Extends, IsRun, Guarded, InitialHistory, LogOk, Committed;
    var h := Meet(c, run, i, a, j, b);
    var p, q := NodeAt(run, i, a), NodeAt(run, j, b);
    CommittedLater(h, p.log, p.commitIndex, p.term, k, p.term);
    CommittedLater(h, q.log, q.commitIndex, q.term, k, q.term);
    CommittedAgree(h, p.log, k, p.term, q.log, k, q.term);
  }

  /**
   Leader Completeness: what a node in term T ever took to be committed is in the log of every leader of a later term,
   from the moment it leads, even if that was before the entry was committed.
   */
  lemma LeaderCompleteness(c: Config, run: Run, i: nat, a: NodeId, j: nat, b: NodeId, k: nat)
    requires IsRun(c, run) && Guarded(run) && InRun(run, i, a) && InRun(run, j, b)
    requires k <= NodeAt(run, i, a).commitIndex
    requires NodeAt(run, j, b).role == Leader && NodeAt(run, j, b).term > NodeAt(run, i, a).term
    ensures Agree(NodeAt(run, i, a).log, NodeAt(run, j, b).log, k + 1)
  {
    hide Extends, IsRun, Guarded, InitialHistory, LogOk, Inv, Good, Committed, PeerLinked;
    var hs := Histories(c, run);
    var l := if i <= j then j else i;
    var h := hs[l];
    PlacedIn(c, run.states[i], hs[i], h, a);
    var p := NodeAt(run, i, a);
    InvAt(c, run.states[i], hs[i], a);
    InvAt(c, run.states[j], hs[j], b);
    CommittedLater(h, p.log, p.commitIndex, p.term, k, p.term);
    LeaderHeld(hs[j], h, NodeAt(run, j, b).term, p.log, k, p.term);
  }

  /** The log a leader of term u has in h holds what is committed, in an earlier term, in any later history k. */
  lemma LeaderHeld(h: History, k: History, u: nat, p: Log, c: nat, t: nat)
    requires Good(h) && Extends(h, k) && u in h.leaderLog && t < u
    requires Committed(k, p, c, t)
    ensures Agree(p, h.leaderLog[u], c + 1)
  {
    var s: nat, m: nat :| CommittedAs(k, p, c, t, s, m);
    assert LeaderKeeps(h, u, s, m);
    hide Good;
    ChosenNotBlocked(k, s, m);
    if s !in h.leaderLog || m > |h.leaderLog[s]| {
      NewEntryBlocked(h, u, s, m);
      BlockedStable(h, k, s, m);
      assert false;
    }
    if Blocked(h, s, m) {
      BlockedStable(h, k, s, m);
    }
    assert Agree(h.leaderLog[s], k.leaderLog[s], |h.leaderLog[s]|);
  }

  // ---------------------------------------------------------------- what is committed stays

  lemma SameNodes(c: Config, s: State, e: Event)
    requires Enabled(c, s, e)
    ensures Next(c, s, e).procs.Keys == s.procs.Keys
  {
  }

  /** What a step does to n's log: nothing, an append to a leader's log, or the writing of entries n accepts. */
  ghost predicate LogStep(s: State, e: Event, n: NodeId, after: Log)
    requires n in s.procs
  {
    var r := s.procs[n].raft;
    || after == r.log
    || (r.role == Leader && e.Propose? && e.node == n && after == r.log + [LogEntry(r.term, e.command)])
    || (exists m, w: nat :: WritesFrom(s, m, n, w, after))
  }

  ghost predicate WritesFrom(s: State, m: Message, n: NodeId, w: nat, after: Log) {
    && m in s.net && m.AppendRequest? && n in s.procs && m.to == n && w <= |m.body.entries|
    && Accepts(s.procs[n].raft, m.term, m.body.prev, m.body.prevTerm)
    && after == MergeUpTo(s.procs[n].raft.log, m.body.prev + 1, m.body.entries, w)
  }

  lemma LogSteps(c: Config, s: State, e: Event, n: NodeId)
    requires Enabled(c, s, e) && n in s.procs
    ensures n in Next(c, s, e).procs && LogStep(s, e, n, Next(c, s, e).procs[n].raft.log)
    ensures Next(c, s, e).procs[n].raft.term >= s.procs[n].raft.term
  {
    hide MergeUpTo, Matching, CommitFrom, Applied;
    var after := Next(c, s, e).procs[n].raft.log;
    match e
    case DeliverAppend(m) =>
      if m.to == n && Accepts(s.procs[n].raft, m.term, m.body.prev, m.body.prevTerm) {
        assert WritesFrom(s, m, n, |m.body.entries|, after);
      }
    case CrashInAppend(m, written, _) =>
      if m.to == n {
        assert WritesFrom(s, m, n, written, after);
      }
    case _ =>
  }

  /** A step never removes or changes what was committed, whatever it does to the rest of the log. */
  lemma CommittedSurvives(c: Config, s: State, h: History, e: Event, k: History, n: NodeId, d: nat)
    requires Inv(c, s, h) && Enabled(c, s, e) && Extends(h, k) && n in s.procs
    requires Committed(h, s.procs[n].raft.log, d, s.procs[n].raft.term)
    ensures n in Next(c, s, e).procs
    ensures var r' := Next(c, s, e).procs[n].raft;
            Agree(r'.log, s.procs[n].raft.log, d + 1) && Committed(k, r'.log, d, r'.term)
  {
    hide Inv, Enabled, Next, Extends, Good, Committed, ProcessOk, MergeUpTo, Accepts, BodyOk;
    LogSteps(c, s, e, n);
    var r := s.procs[n].raft;
    var r' := Next(c, s, e).procs[n].raft;
    InvAt(c, s, h, n);
    CommittedBound(h, r.log, d, r.term);
    CommittedLater(h, r.log, d, r.term, d, r'.term);
    if m, w: nat :| WritesFrom(s, m, n, w, r'.log) {
      InvMessage(c, s, h, m);
      TermAccepted(r, m.term, m.body.prev, m.body.prevTerm);
      CommittedLater(h, r.log, d, r.term, d, m.term);
      Written(h, r.(commitIndex := d), n, m.term, m.body, w);
    }
    CommittedCopy(h, r.log, d, r'.term, r'.log);
    CommittedStable(h, k, r'.log, d, r'.term);
  }

  lemma TermAccepted(r: RaftState, term: nat, prev: int, prevTerm: nat)
    requires Accepts(r, term, prev, prevTerm)
    ensures term >= r.term && forall d: nat :: Accepts(r.(commitIndex := d), term, prev, prevTerm)
  {
  }

  /** What n ever took to be committed is in its log for good, across truncations, crashes and restarts. */
  lemma {:induction false} CommittedForever(c: Config, run: Run, i: nat, j: nat, n: NodeId, k: nat)
    requires IsRun(c, run) && Guarded(run) && i <= j < |run.states| && InRun(run, i, n)
    requires k <= NodeAt(run, i, n).commitIndex
    ensures InRun(run, j, n)
    ensures Agree(NodeAt(run, j, n).log, NodeAt(run, i, n).log, k + 1)
  {
    hide Inv, Extends, IsRun, Guarded, Placed, InitialHistory;
    var hs := Histories(c, run);
    PlacedIn(c, run.states[i], hs[i], hs[i], n) by { ExtendsSelf(hs[i]); }
    assert Placed(c, hs[i], NodeAt(run, i, n), n);
    CommittedSince(c, run, hs, i, j, n);
  }

  lemma {:induction false} CommittedSince(c: Config, run: Run, hs: seq<History>, i: nat, j: nat, n: NodeId)
    requires IsRun(c, run) && Explains(c, run, hs) && i <= j < |run.states| && InRun(run, i, n)
    requires Placed(c, hs[i], NodeAt(run, i, n), n)
    ensures InRun(run, j, n)
    ensures var d := NodeAt(run, i, n).commitIndex;
            d >= 0 && Agree(NodeAt(run, j, n).log, NodeAt(run, i, n).log, d + 1) && Committed(hs[j], NodeAt(run, j, n).log, d, NodeAt(run, j, n).term)
    decreases j - i
  {
    hide Inv, Enabled, Next, Extends, Committed, LogOk;
    if i < j {
      CommittedSince(c, run, hs, i, j - 1, n);
      assert StepOk(c, run, j - 1);
      CommittedSurvives(c, run.states[j - 1], hs[j - 1], run.events[j - 1], hs[j], n, NodeAt(run, i, n).commitIndex);
    }
  }

  /** The event restarts node n. */
  predicate Restarts(e: Event, n: NodeId) {
    match e
    case CrashRestart(m, _) => m == n
    case CrashOnTerm(m, _) => m.to == n
    case CrashInAppend(m, _, _) => m.to == n
    case _ => false
  }

  /** Between restarts a node's commit index and applied index never fall, and they never leave the log. */
  lemma IndicesGrow(c: Config, run: Run, i: nat, n: NodeId)
    requires IsRun(c, run) && Guarded(run) && i + 1 < |run.states| && InRun(run, i, n)
    ensures InRun(run, i + 1, n)
    ensures 0 <= NodeAt(run, i, n).lastApplied <= NodeAt(run, i, n).commitIndex < |NodeAt(run, i, n).log|
    ensures !Restarts(run.events[i], n) ==>
              && NodeAt(run, i, n).commitIndex <= NodeAt(run, i + 1, n).commitIndex
              && NodeAt(run, i, n).lastApplied <= NodeAt(run, i + 1, n).lastApplied
  {
    hide Inv, Extends, Guarded, Enabled, Next, Committed, LogOk, InitialHistory;
    assert StepOk(c, run, i);
    var hs := Histories(c, run);
    ExtendsSelf(hs[i]);
    PlacedIn(c, run.states[i], hs[i], hs[i], n);
    var r := NodeAt(run, i, n);
    CommittedSurvives(c, run.states[i], hs[i], run.events[i], hs[i], n, r.commitIndex);
    if !Restarts(run.events[i], n) {
      StepIndices(c, run.states[i], run.events[i], n);
    }
  }

  lemma StepIndices(c: Config, s: State, e: Event, n: NodeId)
    requires Enabled(c, s, e) && n in s.procs && n in Next(c, s, e).procs && !Restarts(e, n)
    requires |Next(c, s, e).procs[n].raft.log| > s.procs[n].raft.commitIndex
    ensures Next(c, s, e).procs[n].raft.commitIndex >= s.procs[n].raft.commitIndex
    ensures Next(c, s, e).procs[n].raft.lastApplied >= s.procs[n].raft.lastApplied
  {
  }

  // ---------------------------------------------------------------- the follower's commit rule

  /**
   Every request a leader ever sends commits no further than the entries it carries, so the follower's rule, which goes
   by its own last index, comes to the same as going by the index of the last new entry. What it then holds through
   that index is what any leader of that term holds there, at any time.
   */
  lemma FollowerCommitRule(c: Config, run: Run, i: nat, m: Message, j: nat, b: NodeId)
    requires IsRun(c, run) && Guarded(run) && i < |run.states| && m in run.states[i].net && m.AppendRequest?
    requires InRun(run, i, m.to) && Accepts(NodeAt(run, i, m.to), m.term, m.body.prev, m.body.prevTerm)
    requires InRun(run, j, b) && NodeAt(run, j, b).role == Leader && NodeAt(run, j, b).term == m.term
    ensures m.body.leaderCommit <= m.body.prev + |m.body.entries|
    ensures var r := NodeAt(run, i, m.to);
            var r' := OnAppendRequest(r, m.term, m.body.prev, m.body.prevTerm, m.body.entries, m.body.leaderCommit).0;
            var last := m.body.prev + |m.body.entries|;
            && r'.commitIndex == (if m.body.leaderCommit > r.commitIndex then Min(m.body.leaderCommit, last) else r.commitIndex)
            && forall k | 0 <= k <= last && k < |NodeAt(run, j, b).log| :: k < |r'.log| && r'.log[k] == NodeAt(run, j, b).log[k]
  {
    hide Extends, IsRun, Guarded, InitialHistory, LogOk, Inv, Good, Committed, PeerLinked, MergeUpTo;
    var hs := Histories(c, run);
    var l := if i <= j then j else i;
    var h := hs[i];
    var r := NodeAt(run, i, m.to);
    InvAt(c, run.states[i], h, m.to);
    InvMessage(c, run.states[i], h, m);
    PlacedIn(c, run.states[j], hs[j], hs[l], b);
    CommittedLater(h, r.log, r.commitIndex, r.term, r.commitIndex, m.term);
    Written(h, r, m.to, m.term, m.body, |m.body.entries|);
    LeaderLogGrows(h, hs[l], m.term);
  }

  lemma LeaderLogGrows(h: History, k: History, t: nat)
    requires Extends(h, k) && t in h.leaderLog
    ensures t in k.leaderLog && Agree(h.leaderLog[t], k.leaderLog[t], |h.leaderLog[t]|)
  {
  }

  // ---------------------------------------------------------------- votes and acknowledgements

  /** In state i, a has its vote of term t on record as x's. */
  ghost predicate Voted(run: Run, i: nat, a: NodeId, t: nat, x: NodeId) {
    InRun(run, i, a) && NodeAt(run, i, a).term == t && NodeAt(run, i, a).votedFor == Some(x)
  }

  /** In state i, the network holds a reply by which a grants x its vote of term t. */
  ghost predicate Granted(run: Run, i: nat, a: NodeId, t: nat, x: NodeId) {
    i < |run.states| && exists m | m in run.states[i].net :: GrantOf(m, a, t, x)
  }

  ghost predicate GrantOf(m: Message, a: NodeId, t: nat, x: NodeId) {
    m.VoteReply? && m.granted && m.from == a && m.savedTerm == t && m.to == x
  }

  /** No node ever votes for two candidates in one term, itself included, whether on record or in a reply, restarts or not. */
  lemma OneVotePerTerm(c: Config, run: Run, i: nat, j: nat, a: NodeId, t: nat, x: NodeId, y: NodeId)
    requires IsRun(c, run) && Guarded(run)
    requires Voted(run, i, a, t, x) || Granted(run, i, a, t, x)
    requires Voted(run, j, a, t, y) || Granted(run, j, a, t, y)
    ensures x == y
  {
    hide IsRun, Guarded, Inv, Good, Voted, Granted;
    var hs := Histories(c, run);
    VoteInHistory(c, run, hs, i, a, t, x);
    VoteInHistory(c, run, hs, j, a, t, y);
    var l := if i <= j then j else i;
    assert Extends(hs[i], hs[l]) && Extends(hs[j], hs[l]);
  }

  lemma VoteInHistory(c: Config, run: Run, hs: seq<History>, i: nat, a: NodeId, t: nat, x: NodeId)
    requires Explains(c, run, hs) && (Voted(run, i, a, t, x) || Granted(run, i, a, t, x))
    ensures i < |hs| && (a, t) in hs[i].vote && hs[i].vote[(a, t)] == x
  {
    hide Inv, Good, Extends;
    if Voted(run, i, a, t, x) {
      InvAt(c, run.states[i], hs[i], a);
    } else {
      var m :| m in run.states[i].net && GrantOf(m, a, t, x);
      InvMessage(c, run.states[i], hs[i], m);
    }
  }

  /** A candidate's counter is one plus the number of peers counted, each of which did vote for it in this term. */
  lemma VotesAreReal(c: Config, run: Run, i: nat, n: NodeId)
    requires IsRun(c, run) && Guarded(run) && InRun(run, i, n) && NodeAt(run, i, n).role == Candidate
    ensures var p := run.states[i].procs[n];
            && p.raft.totalVotes == 1 + |p.grants| && p.grants <= c.Peers(n)
            && forall g | g in p.grants :: exists j: nat | j <= i :: Voted(run, j, g, p.raft.term, n)
  {
    hide IsRun, Guarded, InitialHistory, Inv, Good, Extends, Committed, LeaderLinked, Voted;
    var hs := Histories(c, run);
    InvAt(c, run.states[i], hs[i], n);
    forall g | g in run.states[i].procs[n].grants
      ensures exists j: nat | j <= i :: Voted(run, j, g, NodeAt(run, i, n).term, n)
    {
      CountedVoted(c, run, i, n, g);
    }
  }

  /** Whoever is counted by a candidate had its vote on record at some earlier time. */
  lemma {:induction false} CountedVoted(c: Config, run: Run, i: nat, n: NodeId, g: NodeId)
    requires IsRun(c, run) && InRun(run, i, n) && NodeAt(run, i, n).role == Candidate && g in run.states[i].procs[n].grants
    ensures exists j: nat | j <= i :: Voted(run, j, g, NodeAt(run, i, n).term, n)
  {
    hide Enabled, Next, Voted;
    assert i > 0;
    assert StepOk(c, run, i - 1);
    var s, e := run.states[i - 1], run.events[i - 1];
    CountedStep(c, s, e, n, g);
    if e.DeliverVoteReply? && e.m in s.net && GrantOf(e.m, g, NodeAt(run, i, n).term, n) {
      assert Granted(run, i - 1, g, NodeAt(run, i, n).term, n);
      GrantedVoted(c, run, i - 1, g, NodeAt(run, i, n).term, n);
    } else {
      CountedVoted(c, run, i - 1, n, g);
    }
  }

  lemma CountedStep(c: Config, s: State, e: Event, n: NodeId, g: NodeId)
    requires Enabled(c, s, e) && n in Next(c, s, e).procs
    requires Next(c, s, e).procs[n].raft.role == Candidate && g in Next(c, s, e).procs[n].grants
    ensures n in s.procs
    ensures var p, p' := s.procs[n], Next(c, s, e).procs[n];
            || (e.DeliverVoteReply? && e.m in s.net && GrantOf(e.m, g, p'.raft.term, n))
            || (p.raft.role == Candidate && p.raft.term == p'.raft.term && g in p.grants)
  {
    hide MergeUpTo, CommitFrom, Applied;
  }

  /** Whoever grants its vote has it on record at the time. */
  lemma {:induction false} GrantedVoted(c: Config, run: Run, i: nat, a: NodeId, t: nat, x: NodeId)
    requires IsRun(c, run) && Granted(run, i, a, t, x)
    ensures exists j: nat | j <= i :: Voted(run, j, a, t, x)
  {
    hide Enabled, Next;
    assert i > 0;
    assert StepOk(c, run, i - 1);
    var m :| m in run.states[i].net && GrantOf(m, a, t, x);
    if m in run.states[i - 1].net {
      assert Granted(run, i - 1, a, t, x);
      GrantedVoted(c, run, i - 1, a, t, x);
    } else {
      GrantStep(c, run.states[i - 1], run.events[i - 1], m);
      assert Voted(run, i, a, t, x);
    }
  }

  lemma GrantStep(c: Config, s: State, e: Event, m: Message)
    requires Enabled(c, s, e) && m in Next(c, s, e).net && m !in s.net && m.VoteReply? && m.granted
    ensures m.from in Next(c, s, e).procs
    ensures var r := Next(c, s, e).procs[m.from].raft; r.term == m.savedTerm && r.votedFor == Some(m.to)
  {
    hide MergeUpTo, CommitFrom, Applied;
  }

  /** Every log starts with the dummy entry. */
  lemma DummyFirst(c: Config, run: Run, i: nat, n: NodeId)
    requires IsRun(c, run) && Guarded(run) && InRun(run, i, n)
    ensures NodeAt(run, i, n).log != [] && NodeAt(run, i, n).log[0] == DUMMY
  {
    hide Guarded, StepOk, Inv, Good, Extends, LogOk, Committed, InitialHistory;
    var h := Meet(c, run, i, n, i, n);
    var r := NodeAt(run, i, n);
    var start := InitialHistory(c);
    DummyChosen(c);
    CommittedStable(start, h, [DUMMY], 0, 0);
    CommittedLater(h, r.log, r.commitIndex, r.term, 0, r.term);
    CommittedAgree(h, [DUMMY], 0, 0, r.log, 0, r.term);
  }

  /**
   Ack soundness: a peer that has not gone on to a later term agrees with the leader through matchIndex, whatever the
   order in which replies came; and nextIndex never leaves the leader's log by more than one.
   */
  lemma AckSoundness(c: Config, run: Run, i: nat, n: NodeId, q: NodeId)
    requires IsRun(c, run) && Guarded(run) && InRun(run, i, n) && q in c.Peers(n) && NodeAt(run, i, n).role == Leader
    ensures var r := NodeAt(run, i, n);
            && 1 <= Lookup(r.nextIndex, q) <= |r.log| && 0 <= Lookup(r.matchIndex, q)
            && InRun(run, i, q)
            && (NodeAt(run, i, q).term <= r.term ==> Agree(NodeAt(run, i, q).log, r.log, Lookup(r.matchIndex, q) + 1))
  {
    hide IsRun, Guarded, InitialHistory, Inv, Good, Extends, Committed, CandidateLinked;
    var hs := Histories(c, run);
    var s, h := run.states[i], hs[i];
    InvAt(c, s, h, n);
    InvAt(c, s, h, q);
    assert PeerLinked(h, s.procs[n].raft, q);
    GoodAt(h, q, s.procs[n].raft.term);
    DummyFirst(c, run, i, n);
    DummyFirst(c, run, i, q);
  }

  /**
   What a node once confirmed to the leader of a term is in its log for as long as it stays in that term, whatever
   requests of that leader, old or new, it handles in the meantime.
   */
  lemma ConfirmedStays(c: Config, run: Run, i: nat, m: Message, j: nat, l: nat, b: NodeId, k: nat)
    requires IsRun(c, run) && Guarded(run) && i <= j < |run.states| && m in run.states[i].net
    requires m.AppendReply? && m.success && k <= m.prev + m.count
    requires InRun(run, j, m.from) && NodeAt(run, j, m.from).term == m.savedTerm
    requires InRun(run, l, b) && NodeAt(run, l, b).role == Leader && NodeAt(run, l, b).term == m.savedTerm
    requires k < |NodeAt(run, l, b).log|
    ensures Agree(NodeAt(run, j, m.from).log, NodeAt(run, l, b).log, k + 1)
  {
    hide IsRun, Guarded, InitialHistory, Inv, Good, Committed, LogOk, Extends;
    var hs := Histories(c, run);
    var h := hs[if j <= l then l else j];
    InvMessage(c, run.states[i], hs[i], m);
    InvAt(c, run.states[j], hs[j], m.from);
    GoodAt(hs[j], m.from, m.savedTerm);
    AckedGrows(hs[i], hs[j], m.from, m.savedTerm);
    LeaderLogGrows(hs[j], h, m.savedTerm);
    PlacedIn(c, run.states[l], hs[l], h, b);
  }

  lemma AckedGrows(h: History, k: History, n: NodeId, t: nat)
    requires Extends(h, k)
    ensures Acked(h, n, t) <= Acked(k, n, t)
  {
  }
}
