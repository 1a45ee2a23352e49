/** Every move of the protocol keeps the invariant of its history. */
module RaftMoves {
  import opened RaftTypes
  import opened RaftHistory

  // ---------------------------------------------------------------- a later term

  lemma AdvanceGood(h: History, n: NodeId, t: nat) returns (k: History)
    requires Good(h) && n in h.nodes && t >= h.term[n]
    ensures k == Advance(h, n, t)
    ensures Good(k) && Extends(h, k)
  {
    k := Advance(h, n, t);
    LogsStable(h, k);
    ElectionsStable(h, k);
    AdvanceNodes(h, k, n, t);
    LeadersStable(h, k);
    VotesStable(h, k);
  }

  lemma AdvanceNodes(h: History, k: History, n: NodeId, t: nat)
    requires Good(h) && n in h.nodes && t >= h.term[n] && k == Advance(h, n, t) && Extends(h, k)
    ensures forall v, s: nat :: AckOk(k, v, s)
    ensures forall v, s: nat, m: nat :: NodeKeeps(k, v, s, m)
  {
    forall v, s: nat ensures AckOk(k, v, s) {
      assert AckOk(h, v, s);
    }
    forall v, s: nat, m: nat ensures NodeKeeps(k, v, s, m) {
      assert AckOk(h, v, s) && NodeKeeps(h, v, s, m);
      if v in h.term && s < h.term[v] && 0 < m <= Acked(h, v, s) {
        KeptStable(h, k, h.log[v], s, m);
      }
    }
  }

  /** The logs stay well-formed in a later history that changes neither them nor the leaders' logs. */
  lemma LogsStable(h: History, k: History)
    requires Good(h) && Extends(h, k)
    requires k.log == h.log && k.leaderLog == h.leaderLog
    ensures LogsOk(k)
  {
    forall n | n in k.log ensures LogOk(k, k.log[n]) {
      LogOkStable(h, k, h.log[n]);
    }
    forall t | t in k.leaderLog ensures LogOk(k, k.leaderLog[t]) {
      LogOkStable(h, k, h.leaderLog[t]);
    }
  }

  lemma CandidatesStable(h: History, k: History)
    requires (forall c, t :: CandidateOk(h, c, t)) && Extends(h, k)
    requires k.candidateLog == h.candidateLog
    ensures forall c, t :: CandidateOk(k, c, t)
  {
    forall c, t: nat ensures CandidateOk(k, c, t) {
      assert CandidateOk(h, c, t);
      if (c, t) in h.candidateLog {
        LogOkStable(h, k, h.candidateLog[(c, t)]);
      }
    }
  }

  lemma LeaderOkStable(h: History, k: History, t: nat)
    requires LeaderOk(h, t) && Extends(h, k) && t in h.leaderLog
    ensures LeaderOk(k, t)
  {
    if t > 0 {
      var q :| ElectedBy(h, t, q);
      assert ElectedBy(k, t, q);
    }
  }

  lemma LeadershipsStable(h: History, k: History)
    requires (forall t: nat :: LeaderOk(h, t)) && Extends(h, k) && k.leaderLog.Keys == h.leaderLog.Keys
    ensures forall t: nat :: LeaderOk(k, t)
  {
    forall t: nat ensures LeaderOk(k, t) {
      assert LeaderOk(h, t);
      if t in h.leaderLog {
        LeaderOkStable(h, k, t);
      }
    }
  }

  lemma AcksStable(h: History, k: History)
    requires Good(h) && Extends(h, k)
    requires k.log == h.log && k.term == h.term && k.leaderLog == h.leaderLog && k.acked == h.acked
    ensures forall n, t: nat :: AckOk(k, n, t)
  {
    forall n, t: nat ensures AckOk(k, n, t) {
      assert AckOk(h, n, t);
    }
  }

  lemma ElectionsStable(h: History, k: History)
    requires Good(h) && Extends(h, k)
    requires k.candidateLog == h.candidateLog && k.vote == h.vote && k.leaderLog.Keys == h.leaderLog.Keys
    ensures ElectionsOk(k)
  {
    CandidatesStable(h, k);
    forall n, t: nat ensures VoteOk(k, n, t) {
      assert VoteOk(h, n, t);
    }
    LeadershipsStable(h, k);
  }

  lemma LeadersStable(h: History, k: History)
    requires Good(h) && Extends(h, k) && k.leaderLog == h.leaderLog
    ensures forall u, t, m :: LeaderKeeps(k, u, t, m)
  {
    forall u: nat, t: nat, m: nat ensures LeaderKeeps(k, u, t, m) {
      assert LeaderKeeps(h, u, t, m);
      if u in k.leaderLog && t < u && t in k.leaderLog && m <= |k.leaderLog[t]| {
        KeptStable(h, k, h.leaderLog[u], t, m);
      }
    }
  }

  /** What a voter's candidate holds does not depend on what happens after the vote. */
  lemma VoteStable(h: History, k: History, n: NodeId, u: nat, t: nat, m: nat)
    requires Good(h) && Extends(h, k) && (n, u) in h.vote
    ensures VoteKeeps(k, n, u, t, m)
  {
    assert VoteOk(h, n, u) && VoteKeeps(h, n, u, t, m);
    if t < u && 0 < m <= Acked(k, n, t) {
      assert AckOk(h, n, t);
      KeptStable(h, k, h.candidateLog[(h.vote[(n, u)], u)], t, m);
    }
  }

  lemma VotesStable(h: History, k: History)
    requires Good(h) && Extends(h, k) && k.vote == h.vote
    ensures forall n, u, t, m :: VoteKeeps(k, n, u, t, m)
  {
    forall n, u: nat, t: nat, m: nat ensures VoteKeeps(k, n, u, t, m) {
      if (n, u) in k.vote {
        VoteStable(h, k, n, u, t, m);
      }
    }
  }

  lemma NodesStable(h: History, k: History)
    requires Good(h) && Extends(h, k)
    requires k.log == h.log && k.term == h.term
    ensures forall n, t, m :: NodeKeeps(k, n, t, m)
  {
    forall n, t: nat, m: nat ensures NodeKeeps(k, n, t, m) {
      assert NodeKeeps(h, n, t, m) && AckOk(h, n, t);
      if n in k.term && n in k.log && t < k.term[n] && 0 < m <= Acked(k, n, t) {
        KeptStable(h, k, h.log[n], t, m);
      }
    }
  }

  // ---------------------------------------------------------------- elections

  /** A log at least as up to date as l holds all that l had to keep. */
  lemma UpToDateKeeps(h: History, c: Log, l: Log, t: nat, m: nat)
    requires Good(h) && LogOk(h, c) && LogOk(h, l)
    requires UpToDate(LastTerm(c), |c| - 1, l)
    requires Kept(h, l, t, m)
    ensures Kept(h, c, t, m)
  {
    if t in h.leaderLog && 0 < m <= |h.leaderLog[t]| && h.leaderLog[t][m - 1].term == t && !Blocked(h, t, m) {
      var s := LastTerm(c);
      assert l[m - 1].term == t;
      TermsGrow(h, l, m - 1, |l| - 1);
      assert EntryOk(h, c, |c| - 1);
      if s == LastTerm(l) {
        assert EntryOk(h, l, |l| - 1);
      } else {
        var last := h.leaderLog[s];
        assert LeaderKeeps(h, s, t, m);
        assert Agree(last, h.leaderLog[t], m);
        TermsGrow(h, last, if |c| < m then |c| - 1 else m - 1, m - 1);
      }
    }
  }

  /** n has just entered its term: it has not stood or voted in it, and nothing in its log is that recent. */
  ghost predicate MayStand(h: History, n: NodeId) {
    && n in h.nodes && n in h.term && n in h.log && h.term[n] > 0
    && TermsUpTo(h.log[n], h.term[n] - 1)
    && (n, h.term[n]) !in h.candidateLog && (n, h.term[n]) !in h.vote
  }

  lemma StandGood(h: History, n: NodeId) returns (k: History)
    requires Good(h) && MayStand(h, n)
    ensures k == Stand(h, n)
    ensures Good(k) && Extends(h, k)
  {
    hide AckOk, CandidateOk, VoteOk, LeaderOk, LeaderKeeps, LogsOk;
    k := Stand(h, n);
    LogsStable(h, k);
    StandElections(h, k, n);
    AcksStable(h, k);
    NodesStable(h, k);
    LeadersStable(h, k);
    forall v, u: nat, s: nat, m: nat ensures VoteKeeps(k, v, u, s, m) {
      if (v, u) in h.vote {
        VoteStable(h, k, v, u, s, m);
      } else if v == n && u == h.term[n] {
        assert NodeKeeps(k, n, s, m);
      }
    }
  }

  lemma StandElections(h: History, k: History, n: NodeId)
    requires Good(h) && MayStand(h, n) && k == Stand(h, n) && Extends(h, k)
    ensures ElectionsOk(k)
  {
    forall c, s: nat ensures CandidateOk(k, c, s) {
      assert CandidateOk(h, c, s);
      if (c, s) in k.candidateLog {
        LogOkStable(h, k, k.candidateLog[(c, s)]);
      }
    }
    forall v, s: nat ensures VoteOk(k, v, s) {
      assert VoteOk(h, v, s);
    }
    LeadershipsStable(h, k);
  }

  /** n may vote for c: it has not voted for another, and c's log is at least as up to date as its own. */
  ghost predicate MayGrant(h: History, n: NodeId, c: NodeId) {
    && n in h.nodes && n in h.term && n in h.log
    && ((n, h.term[n]) in h.vote ==> h.vote[(n, h.term[n])] == c)
    && (c, h.term[n]) in h.candidateLog
    && var l := h.candidateLog[(c, h.term[n])]; |l| > 0 && UpToDate(LastTerm(l), |l| - 1, h.log[n])
  }

  lemma GrantGood(h: History, n: NodeId, c: NodeId) returns (k: History)
    requires Good(h) && MayGrant(h, n, c)
    ensures k == Grant(h, n, c)
    ensures Good(k) && Extends(h, k)
  {
    hide AckOk, CandidateOk, LeaderOk, NodeKeeps, LeaderKeeps, VoteKeeps, LogsOk;
    k := Grant(h, n, c);
    LogsStable(h, k);
    CandidatesStable(h, k);
    forall v, s: nat ensures VoteOk(k, v, s) {
      assert VoteOk(h, v, s);
    }
    LeadershipsStable(h, k);
    AcksStable(h, k);
    NodesStable(h, k);
    LeadersStable(h, k);
    GrantVoteKeeps(h, k, n, c);
  }

  lemma GrantVoteKeeps(h: History, k: History, n: NodeId, c: NodeId)
    requires Good(h) && MayGrant(h, n, c)
    requires k == Grant(h, n, c) && Extends(h, k)
    ensures forall v, u: nat, s: nat, m: nat :: VoteKeeps(k, v, u, s, m)
  {
    forall v, u: nat, s: nat, m: nat ensures VoteKeeps(k, v, u, s, m) {
      if (v, u) in h.vote {
        VoteStable(h, k, v, u, s, m);
      } else if v == n && u == h.term[n] && s < u && 0 < m <= Acked(h, v, s) {
        assert NodeKeeps(h, n, s, m) && CandidateOk(h, c, u) && AckOk(h, n, s);
        var l := h.candidateLog[(c, u)];
        UpToDateKeeps(h, l, h.log[n], s, m);
        KeptStable(h, k, l, s, m);
      }
    }
  }

  /** At most one candidate can gather a majority in a term. */
  lemma OneWinner(h: History, c: NodeId, t: nat, q: set<NodeId>)
    requires Good(h) && t > 0 && t in h.leaderLog
    requires IsQuorum(h.nodes, q)
    requires forall v | v in q :: (v, t) in h.vote && h.vote[(v, t)] == c
    ensures t in h.leader && h.leader[t] == c
  {
    assert LeaderOk(h, t);
    var p :| ElectedBy(h, t, p);
    var v := QuorumsMeet(h.nodes, p, q);
  }

  /** c gathered the votes of q in its term, which has no leader yet. */
  ghost predicate Wins(h: History, c: NodeId, q: set<NodeId>) {
    && c in h.nodes && c in h.term && c in h.log && h.term[c] > 0
    && h.term[c] !in h.leaderLog
    && IsQuorum(h.nodes, q)
    && (forall v | v in q :: (v, h.term[c]) in h.vote && h.vote[(v, h.term[c])] == c)
    && (c, h.term[c]) in h.candidateLog && h.candidateLog[(c, h.term[c])] == h.log[c]
  }

  lemma ElectGood(h: History, c: NodeId, q: set<NodeId>) returns (k: History)
    requires Good(h) && Wins(h, c, q)
    ensures k == Elect(h, c)
    ensures Good(k) && Extends(h, k)
  {
    k := Elect(h, c);
    ElectExtends(h, k, c, q);
    forall n | n in k.log ensures LogOk(k, k.log[n]) { LogOkStable(h, k, h.log[n]); }
    forall u | u in k.leaderLog ensures LogOk(k, k.leaderLog[u]) { LogOkStable(h, k, k.leaderLog[u]); }
    CandidatesStable(h, k);
    forall v, s: nat ensures VoteOk(k, v, s) { assert VoteOk(h, v, s); }
    NodesStable(h, k);
    VotesStable(h, k);
    ElectLeaders(h, k, c, q);
  }

  lemma ElectExtends(h: History, k: History, c: NodeId, q: set<NodeId>)
    requires Good(h) && Wins(h, c, q) && k == Elect(h, c)
    ensures Extends(h, k)
    ensures forall n, t: nat :: AckOk(k, n, t)
    ensures forall t: nat :: LeaderOk(k, t)
  {
    hide Keeping, LogsOk, CandidateOk, VoteOk;
    var t := h.term[c];
    assert AckOk(h, c, t);
    forall v, s: nat ensures AckOk(k, v, s) { assert AckOk(h, v, s); }
    forall u: nat ensures LeaderOk(k, u) {
      assert LeaderOk(h, u);
      if u in h.leaderLog {
        LeaderOkStable(h, k, u);
      } else if u == t {
        assert ElectedBy(k, t, q);
      }
    }
  }

  lemma ElectLeaders(h: History, k: History, c: NodeId, q: set<NodeId>)
    requires Good(h) && Wins(h, c, q) && k == Elect(h, c) && Extends(h, k)
    ensures forall u: nat, s: nat, m: nat :: LeaderKeeps(k, u, s, m)
  {
    var t := h.term[c];
    assert CandidateOk(h, c, t);
    forall u: nat, s: nat, m: nat ensures LeaderKeeps(k, u, s, m) {
      if u in k.leaderLog && s < u && s in k.leaderLog && 0 < m <= |k.leaderLog[s]| && k.leaderLog[s][m - 1].term == s {
        assert s != t;
        if u == t {
          ElectedKeeps(h, c, q, s, m);
          KeptStable(h, k, h.log[c], s, m);
        } else {
          assert LeaderKeeps(h, u, s, m);
          KeptStable(h, k, h.leaderLog[u], s, m);
        }
      }
    }
  }

  /** The heart of the election argument: the winner holds every entry an earlier leader could still get chosen. */
  lemma ElectedKeeps(h: History, c: NodeId, q: set<NodeId>, s: nat, m: nat)
    requires Good(h) && c in h.nodes && s < h.term[c]
    requires IsQuorum(h.nodes, q)
    requires forall v | v in q :: (v, h.term[c]) in h.vote && h.vote[(v, h.term[c])] == c
    requires (c, h.term[c]) in h.candidateLog && h.candidateLog[(c, h.term[c])] == h.log[c]
    ensures Kept(h, h.log[c], s, m)
  {
    var t := h.term[c];
    if forall v | v in q :: Acked(h, v, s) < m {
      forall v | v in q ensures v in h.term && h.term[v] > s { assert VoteOk(h, v, t); }
      assert BlockedBy(h, s, m, q);
    } else {
      var v :| v in q && m <= Acked(h, v, s);
      assert VoteKeeps(h, v, t, s, m);
    }
  }

  // ---------------------------------------------------------------- replication

  /** c leads its term, its log is that term's log, and e is an entry of that term. */
  ghost predicate MayPropose(h: History, c: NodeId, e: LogEntry) {
    && c in h.nodes && c in h.term && c in h.log
    && var t := h.term[c];
       t > 0 && e.term == t && t in h.leader && h.leader[t] == c && t in h.leaderLog && h.log[c] == h.leaderLog[t]
  }

  lemma ProposeGood(h: History, c: NodeId, e: LogEntry) returns (k: History)
    requires Good(h) && MayPropose(h, c, e)
    ensures k == Propose(h, c, e)
    ensures Good(k) && Extends(h, k)
  {
    k := Propose(h, c, e);
    ProposeExtends(h, k, c, e);
    ProposeLogs(h, k, c, e);
    ElectionsStable(h, k);
    VotesStable(h, k);
    ProposeNodes(h, k, c, e);
    ProposeLeaders(h, k, c, e);
  }

  lemma ProposeExtends(h: History, k: History, c: NodeId, e: LogEntry)
    requires Good(h) && MayPropose(h, c, e) && k == Propose(h, c, e)
    ensures Extends(h, k)
    ensures forall n, t: nat :: AckOk(k, n, t)
  {
    hide Keeping, LogsOk, CandidateOk, VoteOk, LeaderOk;
    assert AckOk(h, c, h.term[c]);
    forall v, s: nat ensures AckOk(k, v, s) { assert AckOk(h, v, s); }
  }

  lemma ProposeNodes(h: History, k: History, c: NodeId, e: LogEntry)
    requires Good(h) && MayPropose(h, c, e) && k == Propose(h, c, e) && Extends(h, k)
    ensures forall n, s: nat, m: nat :: NodeKeeps(k, n, s, m)
  {
    forall n, s: nat, m: nat ensures NodeKeeps(k, n, s, m) {
      assert NodeKeeps(h, n, s, m) && AckOk(h, n, s);
      if n in k.term && s < k.term[n] && 0 < m <= Acked(k, n, s) {
        KeptStable(h, k, h.log[n], s, m);
        assert Agree(h.log[n], k.log[n], |h.log[n]|);
      }
    }
  }

  lemma ProposeLogs(h: History, k: History, c: NodeId, e: LogEntry)
    requires Good(h) && MayPropose(h, c, e) && k == Propose(h, c, e) && Extends(h, k)
    ensures LogsOk(k)
  {
    var l := h.log[c] + [e];
    LogOkStable(h, k, h.log[c]);
    forall i: nat ensures EntryOk(k, l, i) { assert EntryOk(k, h.log[c], i); }
    forall n | n in k.log ensures LogOk(k, k.log[n]) {
      if n != c { LogOkStable(h, k, h.log[n]); }
    }
    forall u | u in k.leaderLog ensures LogOk(k, k.leaderLog[u]) {
      if u != h.term[c] { LogOkStable(h, k, h.leaderLog[u]); }
    }
  }

  lemma ProposeLeaders(h: History, k: History, c: NodeId, e: LogEntry)
    requires Good(h) && MayPropose(h, c, e) && k == Propose(h, c, e) && Extends(h, k)
    ensures forall u: nat, s: nat, m: nat :: LeaderKeeps(k, u, s, m)
  {
    forall u: nat, s: nat, m: nat ensures LeaderKeeps(k, u, s, m) {
      assert LeaderKeeps(h, u, s, m);
      if u in k.leaderLog && s < u && s in k.leaderLog && 0 < m <= |k.leaderLog[s]| {
        assert Agree(h.leaderLog[u], k.leaderLog[u], |h.leaderLog[u]|);
        if m <= |h.leaderLog[s]| {
          KeptStable(h, k, h.leaderLog[u], s, m);
        } else {
          NewEntryBlocked(h, u, s, m);
          BlockedStable(h, k, s, m);
        }
      }
    }
  }

  /** Once a later leader is elected, nothing a leader appends can be chosen any more. */
  lemma NewEntryBlocked(h: History, u: nat, t: nat, m: nat)
    requires Good(h) && t < u && u in h.leaderLog && m > 0
    requires t in h.leaderLog ==> m > |h.leaderLog[t]|
    ensures Blocked(h, t, m)
  {
    assert LeaderOk(h, u);
    var q :| ElectedBy(h, u, q);
    forall v | v in q ensures v in h.term && h.term[v] > t && Acked(h, v, t) < m {
      assert VoteOk(h, v, u) && AckOk(h, v, t);
    }
    assert BlockedBy(h, t, m, q);
  }

  /** j entries of the leader of n's term reach at least as far as n's log agrees with it. */
  ghost predicate MayAdopt(h: History, n: NodeId, j: nat) {
    && n in h.nodes && n in h.term && n in h.log
    && h.term[n] in h.leaderLog && 0 < j <= |h.leaderLog[h.term[n]]|
    && forall m: nat :: Agree(h.log[n], h.leaderLog[h.term[n]], m) ==> m <= j
  }

  lemma AdoptGood(h: History, n: NodeId, j: nat) returns (k: History)
    requires Good(h) && MayAdopt(h, n, j)
    ensures k == Adopt(h, n, j)
    ensures Good(k) && Extends(h, k)
  {
    hide CandidateOk, VoteOk, LeaderOk, LeaderKeeps, VoteKeeps, NodeKeeps, LogsOk;
    k := Adopt(h, n, j);
    AdoptLogs(h, k, n, j);
    ElectionsStable(h, k);
    VotesStable(h, k);
    LeadersStable(h, k);
    AdoptNodes(h, k, n, j);
  }

  lemma AdoptLogs(h: History, k: History, n: NodeId, j: nat)
    requires Good(h) && MayAdopt(h, n, j) && k == Adopt(h, n, j) && Extends(h, k)
    ensures LogsOk(k)
    ensures forall v, s: nat :: AckOk(k, v, s)
  {
    hide Keeping, ElectionsOk;
    LogOkPrefix(h, h.leaderLog[h.term[n]], j);
    forall v | v in k.log ensures LogOk(k, k.log[v]) { LogOkStable(h, k, k.log[v]); }
    forall u | u in k.leaderLog ensures LogOk(k, k.leaderLog[u]) { LogOkStable(h, k, h.leaderLog[u]); }
    forall v, s: nat ensures AckOk(k, v, s) { assert AckOk(h, v, s); }
  }

  lemma AdoptNodes(h: History, k: History, n: NodeId, j: nat)
    requires Good(h) && MayAdopt(h, n, j) && k == Adopt(h, n, j) && Extends(h, k)
    ensures forall v, s: nat, m: nat :: NodeKeeps(k, v, s, m)
  {
    hide LogsOk, ElectionsOk;
    forall v, s: nat, m: nat ensures NodeKeeps(k, v, s, m) {
      assert NodeKeeps(h, v, s, m) && AckOk(h, v, s);
      if v in k.term && s < k.term[v] && 0 < m <= Acked(k, v, s) {
        if v == n { AdoptKeeps(h, n, j, s, m); }
        KeptStable(h, k, k.log[v], s, m);
      }
    }
  }

  lemma AdoptKeeps(h: History, n: NodeId, j: nat, s: nat, m: nat)
    requires Good(h) && MayAdopt(h, n, j)
    requires s < h.term[n] && m <= Acked(h, n, s)
    ensures Kept(h, h.leaderLog[h.term[n]][..j], s, m)
  {
    var t := h.term[n];
    assert NodeKeeps(h, n, s, m) && LeaderKeeps(h, t, s, m);
    if s in h.leaderLog && 0 < m <= |h.leaderLog[s]| && h.leaderLog[s][m - 1].term == s && !Blocked(h, s, m) {
      assert Agree(h.log[n], h.leaderLog[t], m);
    }
  }

  lemma ConfirmGood(h: History, n: NodeId, j: nat) returns (k: History)
    requires Good(h) && n in h.nodes && h.term[n] in h.leaderLog
    requires Agree(h.log[n], h.leaderLog[h.term[n]], j)
    ensures k == Confirm(h, n, j)
    ensures Good(k) && Extends(h, k)
  {
    k := Confirm(h, n, j);
    ConfirmExtends(h, k, n, j);
    LogsStable(h, k);
    ElectionsStable(h, k);
    NodesStable(h, k);
    VotesStable(h, k);
    LeadersStable(h, k);
  }

  lemma ConfirmExtends(h: History, k: History, n: NodeId, j: nat)
    requires Good(h) && n in h.nodes && h.term[n] in h.leaderLog
    requires Agree(h.log[n], h.leaderLog[h.term[n]], j)
    requires k == Confirm(h, n, j)
    ensures Extends(h, k)
    ensures forall v, s: nat :: AckOk(k, v, s)
  {
    hide Keeping, LogsOk, CandidateOk, VoteOk, LeaderOk;
    assert AckOk(h, n, h.term[n]);
    forall v, s: nat ensures AckOk(k, v, s) { assert AckOk(h, v, s); }
  }

  // ---------------------------------------------------------------- chosen entries

  ghost predicate ChosenBy(h: History, t: nat, m: nat, q: set<NodeId>) {
    && IsQuorum(h.nodes, q)
    && forall n | n in q :: Acked(h, n, t) >= m
  }

  /** A majority confirmed the first m entries of the leader of term t, the last of them its own. */
  ghost predicate Chosen(h: History, t: nat, m: nat) {
    && t in h.leaderLog && 0 < m <= |h.leaderLog[t]| && h.leaderLog[t][m - 1].term == t
    && exists q :: ChosenBy(h, t, m, q)
  }

  lemma ChosenStable(h: History, k: History, t: nat, m: nat)
    requires Extends(h, k) && Chosen(h, t, m)
    ensures Chosen(k, t, m)
  {
    var q :| ChosenBy(h, t, m, q);
    assert ChosenBy(k, t, m, q);
    assert Agree(h.leaderLog[t], k.leaderLog[t], |h.leaderLog[t]|);
  }

  lemma ChosenNotBlocked(h: History, t: nat, m: nat)
    requires Chosen(h, t, m)
    ensures !Blocked(h, t, m)
  {
    if Blocked(h, t, m) {
      var p :| BlockedBy(h, t, m, p);
      var q :| ChosenBy(h, t, m, q);
      var v := QuorumsMeet(h.nodes, p, q);
    }
  }

  /** Leader Completeness: what a majority confirmed is in the log of every later leader. */
  lemma ChosenKept(h: History, t: nat, m: nat, u: nat)
    requires Good(h) && Chosen(h, t, m) && u in h.leaderLog && t <= u
    ensures Agree(h.leaderLog[u], h.leaderLog[t], m)
  {
    if t < u {
      assert LeaderKeeps(h, u, t, m);
      ChosenNotBlocked(h, t, m);
    }
  }

  /** The entries of l through index c are chosen, in a term no later than t. */
  ghost predicate CommittedAs(h: History, l: Log, c: nat, t: nat, s: nat, m: nat) {
    && s <= t && c < m && Chosen(h, s, m)
    && Agree(l, h.leaderLog[s], c + 1)
  }

  ghost predicate Committed(h: History, l: Log, c: int, t: nat) {
    c >= 0 && exists s, m :: CommittedAs(h, l, c, t, s, m)
  }

  lemma CommittedStable(h: History, k: History, l: Log, c: int, t: nat)
    requires Extends(h, k) && Committed(h, l, c, t)
    ensures Committed(k, l, c, t)
  {
    var s, m :| CommittedAs(h, l, c, t, s, m);
    ChosenStable(h, k, s, m);
    assert Agree(h.leaderLog[s], k.leaderLog[s], |h.leaderLog[s]|);
    assert CommittedAs(k, l, c, t, s, m);
  }

  /** Two committed prefixes never disagree. */
  lemma CommittedAgree(h: History, a: Log, c: int, t: nat, b: Log, d: int, u: nat)
    requires Good(h) && Committed(h, a, c, t) && Committed(h, b, d, u)
    requires c <= d
    ensures Agree(a, b, c + 1)
  {
    var s, m :| CommittedAs(h, a, c, t, s, m);
    var r, o :| CommittedAs(h, b, d, u, r, o);
    if s <= r {
      ChosenKept(h, s, m, r);
    } else {
      ChosenKept(h, r, o, s);
    }
  }

  /** A committed prefix is in the log of the leader of any term that is not earlier. */
  lemma CommittedInLeader(h: History, l: Log, c: int, t: nat, u: nat)
    requires Good(h) && Committed(h, l, c, t) && u in h.leaderLog && t <= u
    ensures Agree(l, h.leaderLog[u], c + 1)
  {
    var s, m :| CommittedAs(h, l, c, t, s, m);
    ChosenKept(h, s, m, u);
  }
}
