/**
 The history behind a run of the protocol, and the invariant that makes Raft safe.

 A history records, for every term, the log its leader has built so far, who voted for whom, the log each
 candidate stood with, and how much of each leader's log every node has confirmed holding. None of this is
 stored by the program: the modules that use a history show that the program's own state never contradicts it.
 */
module RaftHistory {
  import opened RaftTypes

  datatype History = History(
    nodes: set<NodeId>,
    term: map<NodeId, nat>,
    log: map<NodeId, Log>,
    leaderLog: map<nat, Log>,
    leader: map<nat, NodeId>,
    acked: map<(NodeId, nat), nat>,         // (n, t) -> number of entries of leaderLog[t] that n confirmed while at term t
    vote: map<(NodeId, nat), NodeId>,       // (n, t) -> the candidate that got n's vote in term t
    candidateLog: map<(NodeId, nat), Log>)  // (c, t) -> the log c stood with in term t

  ghost function Acked(h: History, n: NodeId, t: nat): nat {
    if (n, t) in h.acked then h.acked[(n, t)] else 0
  }

  // ---------------------------------------------------------------- the invariant

  ghost predicate Shape(h: History) {
    && h.nodes != {}
    && h.term.Keys == h.nodes
    && h.log.Keys == h.nodes
    && 0 in h.leaderLog && h.leaderLog[0] == [DUMMY]
    && 0 !in h.leader && h.leader.Keys <= h.leaderLog.Keys
  }

  /** Entry i of l was put there by the leader of its term, together with everything before it. */
  ghost predicate EntryOk(h: History, l: Log, i: nat) {
    i < |l| ==> l[i].term in h.leaderLog && Agree(l, h.leaderLog[l[i].term], i + 1)
  }

  ghost predicate LogOk(h: History, l: Log) {
    && |l| > 0
    && (forall i: nat :: EntryOk(h, l, i))
  }

  ghost predicate TermsUpTo(l: Log, t: nat) {
    forall i | 0 <= i < |l| :: l[i].term <= t
  }

  ghost predicate LogsOk(h: History) {
    && (forall n | n in h.log :: LogOk(h, h.log[n]))
    && (forall n | n in h.log && n in h.term :: TermsUpTo(h.log[n], h.term[n]))
    && (forall t | t in h.leaderLog :: LogOk(h, h.leaderLog[t]))
    && (forall t | t in h.leaderLog :: TermsUpTo(h.leaderLog[t], t))
  }

  ghost predicate CandidateOk(h: History, c: NodeId, t: nat) {
    (c, t) in h.candidateLog ==>
      && c in h.term && 0 < t <= h.term[c]
      && LogOk(h, h.candidateLog[(c, t)])
      && TermsUpTo(h.candidateLog[(c, t)], t - 1)
  }

  ghost predicate VoteOk(h: History, n: NodeId, t: nat) {
    (n, t) in h.vote ==>
      && n in h.term && t <= h.term[n]
      && (h.vote[(n, t)], t) in h.candidateLog
  }

  ghost predicate ElectedBy(h: History, t: nat, q: set<NodeId>) {
    && t in h.leader
    && IsQuorum(h.nodes, q)
    && forall n | n in q :: (n, t) in h.vote && h.vote[(n, t)] == h.leader[t]
  }

  ghost predicate LeaderOk(h: History, t: nat) {
    t in h.leaderLog && t > 0 ==>
      && (exists q :: ElectedBy(h, t, q))
      && t in h.leader && h.leader[t] in h.term && h.term[h.leader[t]] >= t
  }

  ghost predicate AckOk(h: History, n: NodeId, t: nat) {
    Acked(h, n, t) > 0 ==>
      && n in h.nodes && n in h.term && n in h.log && t <= h.term[n]
      && t in h.leaderLog && Acked(h, n, t) <= |h.leaderLog[t]|
      && (t == h.term[n] ==> Agree(h.log[n], h.leaderLog[t], Acked(h, n, t)))
  }

  ghost predicate BlockedBy(h: History, t: nat, m: nat, q: set<NodeId>) {
    && IsQuorum(h.nodes, q)
    && forall n | n in q :: n in h.term && h.term[n] > t && Acked(h, n, t) < m
  }

  /** A majority has left term t without confirming m entries of its leader: those m entries can no longer be chosen there. */
  ghost predicate Blocked(h: History, t: nat, m: nat) {
    exists q :: BlockedBy(h, t, m, q)
  }

  /** l holds the first m entries of the leader of term t, if those entries can still be chosen. */
  ghost predicate Kept(h: History, l: Log, t: nat, m: nat) {
    t in h.leaderLog && 0 < m <= |h.leaderLog[t]| && h.leaderLog[t][m - 1].term == t ==>
      Agree(l, h.leaderLog[t], m) || Blocked(h, t, m)
  }

  ghost predicate NodeKeeps(h: History, n: NodeId, t: nat, m: nat) {
    n in h.term && n in h.log && t < h.term[n] && m <= Acked(h, n, t) ==> Kept(h, h.log[n], t, m)
  }

  ghost predicate LeaderKeeps(h: History, u: nat, t: nat, m: nat) {
    u in h.leaderLog && t < u ==> Kept(h, h.leaderLog[u], t, m)
  }

  ghost predicate VoteKeeps(h: History, n: NodeId, u: nat, t: nat, m: nat) {
    (n, u) in h.vote && (h.vote[(n, u)], u) in h.candidateLog && t < u && m <= Acked(h, n, t) ==>
      Kept(h, h.candidateLog[(h.vote[(n, u)], u)], t, m)
  }

  ghost predicate ElectionsOk(h: History) {
    && (forall c, t: nat :: CandidateOk(h, c, t))
    && (forall n, t: nat :: VoteOk(h, n, t))
    && (forall t: nat :: LeaderOk(h, t))
  }

  ghost predicate Keeping(h: History) {
    && (forall n, t: nat, m: nat :: NodeKeeps(h, n, t, m))
    && (forall u: nat, t: nat, m: nat :: LeaderKeeps(h, u, t, m))
    && (forall n, u: nat, t: nat, m: nat :: VoteKeeps(h, n, u, t, m))
  }

  ghost predicate Good(h: History) {
    && Shape(h)
    && LogsOk(h)
    && ElectionsOk(h)
    && (forall n, t: nat :: AckOk(h, n, t))
    && Keeping(h)
  }

  // ---------------------------------------------------------------- what never changes

  /** k comes after h: what h records is still there, and the terms a node has left are closed. */
  ghost predicate Extends(h: History, k: History) {
    && k.nodes == h.nodes && h.term.Keys <= k.term.Keys
    && (forall n | n in h.term :: h.term[n] <= k.term[n])
    && h.leaderLog.Keys <= k.leaderLog.Keys
    && (forall t | t in h.leaderLog :: Agree(h.leaderLog[t], k.leaderLog[t], |h.leaderLog[t]|))
    && (forall t | t in h.leader :: t in k.leader && k.leader[t] == h.leader[t])
    && (forall p | p in h.vote :: p in k.vote && k.vote[p] == h.vote[p])
    && (forall p | p in h.candidateLog :: p in k.candidateLog && k.candidateLog[p] == h.candidateLog[p])
    && (forall n, t: nat :: Acked(h, n, t) <= Acked(k, n, t))
    && (forall n, t: nat | n in h.term && t < h.term[n] :: Acked(k, n, t) == Acked(h, n, t))
  }

  lemma ExtendsTransitive(h: History, k: History, j: History)
    requires Extends(h, k) && Extends(k, j)
    ensures Extends(h, j)
  {
    forall t | t in h.leaderLog
      ensures Agree(h.leaderLog[t], j.leaderLog[t], |h.leaderLog[t]|)
    {
      assert Agree(k.leaderLog[t], j.leaderLog[t], |k.leaderLog[t]|);
    }
  }

  lemma BlockedStable(h: History, k: History, t: nat, m: nat)
    requires Extends(h, k) && Blocked(h, t, m)
    ensures Blocked(k, t, m)
  {
    var q :| BlockedBy(h, t, m, q);
    assert BlockedBy(k, t, m, q);
  }

  lemma KeptStable(h: History, k: History, l: Log, t: nat, m: nat)
    requires Extends(h, k) && Kept(h, l, t, m)
    requires t in h.leaderLog && m <= |h.leaderLog[t]|
    ensures Kept(k, l, t, m)
  {
    assert Agree(h.leaderLog[t], k.leaderLog[t], |h.leaderLog[t]|);
    if Blocked(h, t, m) {
      BlockedStable(h, k, t, m);
    }
  }

  lemma LogOkStable(h: History, k: History, l: Log)
    requires Extends(h, k) && LogOk(h, l)
    ensures LogOk(k, l)
  {
    forall i: nat ensures EntryOk(k, l, i) {
      assert EntryOk(h, l, i);
      if i < |l| {
        var t := l[i].term;
        assert Agree(h.leaderLog[t], k.leaderLog[t], |h.leaderLog[t]|);
      }
    }
  }

  lemma LogOkPrefix(h: History, l: Log, k: nat)
    requires LogOk(h, l) && 0 < k <= |l|
    ensures LogOk(h, l[..k])
  {
    forall i: nat ensures EntryOk(h, l[..k], i) {
      assert EntryOk(h, l, i);
    }
  }

  /** Log Matching: equal terms at one index mean equal entries up to it. */
  lemma LogsMatch(h: History, a: Log, b: Log, i: nat)
    requires LogOk(h, a) && LogOk(h, b)
    requires i < |a| && i < |b| && a[i].term == b[i].term
    ensures Agree(a, b, i + 1)
  {
    assert EntryOk(h, a, i) && EntryOk(h, b, i);
  }

  lemma TermsGrow(h: History, l: Log, i: nat, j: nat)
    requires LogsOk(h) && LogOk(h, l) && i <= j < |l|
    ensures l[i].term <= l[j].term
  {
    assert EntryOk(h, l, j);
    assert TermsUpTo(h.leaderLog[l[j].term], l[j].term);
  }

  // ---------------------------------------------------------------- the moves

  /** n enters a later term. */
  ghost function Advance(h: History, n: NodeId, t: nat): History {
    h.(term := h.term[n := t])
  }

  /** n stands for election in its term, and votes for itself. */
  ghost function Stand(h: History, n: NodeId): History
    requires n in h.term && n in h.log
  {
    h.(candidateLog := h.candidateLog[(n, h.term[n]) := h.log[n]],
       vote := h.vote[(n, h.term[n]) := n])
  }

  /** n gives c its vote in its own term. */
  ghost function Grant(h: History, n: NodeId, c: NodeId): History
    requires n in h.term
  {
    h.(vote := h.vote[(n, h.term[n]) := c])
  }

  /** c becomes the leader of its term. */
  ghost function Elect(h: History, c: NodeId): History
    requires c in h.term && c in h.log
  {
    var t := h.term[c];
    h.(leaderLog := h.leaderLog[t := h.log[c]],
       leader := h.leader[t := c],
       acked := h.acked[(c, t) := |h.log[c]|])
  }

  /** The leader c appends an entry. */
  ghost function Propose(h: History, c: NodeId, e: LogEntry): History
    requires c in h.term && c in h.log
  {
    var t := h.term[c];
    var l := h.log[c] + [e];
    h.(leaderLog := h.leaderLog[t := l],
       log := h.log[c := l],
       acked := h.acked[(c, t) := |l|])
  }

  /** n replaces its log by the first k entries of the leader of its term. */
  ghost function Adopt(h: History, n: NodeId, k: nat): History
    requires n in h.term && h.term[n] in h.leaderLog && k <= |h.leaderLog[h.term[n]]|
  {
    h.(log := h.log[n := h.leaderLog[h.term[n]][..k]])
  }

  /** n confirms to the leader of its term that it holds the leader's first k entries. */
  ghost function Confirm(h: History, n: NodeId, k: nat): History
    requires n in h.term
  {
    var t := h.term[n];
    h.(acked := h.acked[(n, t) := if Acked(h, n, t) < k then k else Acked(h, n, t)])
  }
}
