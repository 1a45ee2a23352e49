/** How a leader finds the point where a follower's log parts from its own, when the two exchange messages undisturbed. */
module BackOff {
  import opened RaftTypes
  import opened RaftNode
  import opened MergeProperties
  import opened Cluster
  import opened ClusterSafety

  /** The leader sends to q what it has from nextIndex on, the follower answers, and the leader takes in the answer. */
  function Exchange(l: RaftState, peers: set<NodeId>, q: NodeId, f: RaftState): (RaftState, RaftState, bool) {
    var b := AppendFor(l, q);
    if b == None then (l, f, false)
    else
      var (f', r) := OnAppendRequest(f, l.term, b.value.prev, b.value.prevTerm, b.value.entries, b.value.leaderCommit);
      if r == Failed then (l, f', false)
      else (OnAppendReply(l, peers, q, l.term, b.value.prev, |b.value.entries|, r.term, r.success), f', r.success)
  }

  /** A leader and a follower that has not gone past its term, both with the dummy, and in log matching. */
  ghost predicate Paired(l: RaftState, q: NodeId, f: RaftState) {
    && l.role == Leader && f.term <= l.term
    && 1 <= Lookup(l.nextIndex, q) <= |l.log| && |f.log| > 0
    && l.log[0].term == f.log[0].term
    && TermsDecide(f.log, l.log)
  }

  /** One exchange: success leaves the follower's log extending the leader's; a rejection moves nextIndex down by one. */
  lemma ExchangeProgress(l: RaftState, peers: set<NodeId>, q: NodeId, f: RaftState)
    requires Paired(l, q, f)
    ensures var (l', f', ok) := Exchange(l, peers, q, f);
            && l'.log == l.log && l'.term == l.term && l'.role == Leader
            && f'.term == l.term && f'.role == Follower
            && (ok ==> Agree(f'.log, l.log, |l.log|) && Lookup(l'.matchIndex, q) == |l.log| - 1)
            && (!ok ==> f'.log == f.log && Lookup(l'.nextIndex, q) == Lookup(l.nextIndex, q) - 1)
            && (Lookup(l.nextIndex, q) == 1 ==> ok)
  {
    hide CommitFrom, Merge;
    var b := AppendFor(l, q).value;
    if 0 <= b.prev < |f.log| && f.log[b.prev].term == b.prevTerm {
      MergeFollowsLeader(f.log, l.log, b.prev, b.entries);
    }
  }

  /** The leader and the follower after k exchanges. */
  function Exchanges(l: RaftState, peers: set<NodeId>, q: NodeId, f: RaftState, k: nat): (RaftState, RaftState)
    decreases k
  {
    if k == 0 then (l, f)
    else
      var (l', f', _) := Exchange(l, peers, q, f);
      Exchanges(l', peers, q, f', k - 1)
  }

  /** Exchange number k, counted from 0, succeeds. */
  predicate Succeeds(l: RaftState, peers: set<NodeId>, q: NodeId, f: RaftState, k: nat) {
    var (l', f') := Exchanges(l, peers, q, f, k);
    Exchange(l', peers, q, f').2
  }

  /** Some exchange succeeds after no more than nextIndex, all before it are rejected, and it brings over the whole log. */
  lemma {:induction false} Converges(l: RaftState, peers: set<NodeId>, q: NodeId, f: RaftState) returns (n: nat)
    requires Paired(l, q, f)
    ensures n < Lookup(l.nextIndex, q)
    ensures Succeeds(l, peers, q, f, n) && forall k: nat | k < n :: !Succeeds(l, peers, q, f, k)
    ensures var (l', f') := Exchanges(l, peers, q, f, n + 1);
            l'.log == l.log && Agree(f'.log, l.log, |l.log|) && Lookup(l'.matchIndex, q) == |l.log| - 1
    decreases Lookup(l.nextIndex, q)
  {
    ExchangeProgress(l, peers, q, f);
    StillPaired(l, peers, q, f);
    hide Exchange, Agree, Paired, Lookup;
    var (l', f', ok) := Exchange(l, peers, q, f);
    if ok {
      n := 0;
      OneMore(l, peers, q, f, 0);
    } else {
      var m := Converges(l', peers, q, f');
      n := m + 1;
      OneMore(l, peers, q, f, n);
      forall k: nat | k < n ensures !Succeeds(l, peers, q, f, k) {
        if k > 0 { OneMore(l, peers, q, f, k - 1); }
      }
      OneMore(l, peers, q, f, m);
    }
  }

  lemma StillPaired(l: RaftState, peers: set<NodeId>, q: NodeId, f: RaftState)
    requires Paired(l, q, f)
    ensures var (l', f', ok) := Exchange(l, peers, q, f); !ok ==> Paired(l', q, f')
  {
    ExchangeProgress(l, peers, q, f);
    hide Exchange;
  }

  lemma OneMore(l: RaftState, peers: set<NodeId>, q: NodeId, f: RaftState, k: nat)
    ensures var (l', f', _) := Exchange(l, peers, q, f);
            && Exchanges(l, peers, q, f, k + 1) == Exchanges(l', peers, q, f', k)
            && Succeeds(l, peers, q, f, k + 1) == Succeeds(l', peers, q, f', k)
  {
    hide Exchange;
  }

  /** In every run, each leader is so paired with each peer that has not gone past its term. */
  lemma RunPairs(c: Config, run: Run, i: nat, n: NodeId, q: NodeId)
    requires IsRun(c, run) && Guarded(run) && InRun(run, i, n) && q in c.Peers(n)
    requires NodeAt(run, i, n).role == Leader
    ensures InRun(run, i, q)
    ensures NodeAt(run, i, q).term <= NodeAt(run, i, n).term ==> Paired(NodeAt(run, i, n), q, NodeAt(run, i, q))
  {
    hide IsRun, Guarded;
    AckSoundness(c, run, i, n, q);
    DummyFirst(c, run, i, n);
    DummyFirst(c, run, i, q);
    var l, f := NodeAt(run, i, n).log, NodeAt(run, i, q).log;
    forall k | 0 <= k < |f| && k < |l| && f[k].term == l[k].term ensures Agree(f, l, k + 1) {
      LogMatching(c, run, i, q, i, n, k);
    }
  }
}
