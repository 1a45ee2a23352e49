/**
 What each critical section of raft/raft.go computes, as functions on the fields of one Raft object.
 The class RaftServer.Raft is proved to compute them; Cluster runs them on every node.
 */
module RaftNode {
  import opened RaftTypes

  datatype Role = Follower | Candidate | Leader

  /** The fields of a Raft object. `totalVotes` is the vote counter captured by the goroutines of its latest election. */
  datatype RaftState = RaftState(
    role: Role,
    term: nat,
    votedFor: Option<NodeId>,
    log: Log,
    commitIndex: int,
    lastApplied: int,
    nextIndex: map<NodeId, int>,
    matchIndex: map<NodeId, int>,
    totalVotes: nat)
  {
    function LastIndex(): int { |log| - 1 }
  }

  /** The value of a Go map at a key: zero when the key is absent. */
  function Lookup(m: map<NodeId, int>, p: NodeId): int {
    if p in m then m[p] else 0
  }

  function Fill(ps: set<NodeId>, i: int): map<NodeId, int> {
    map p | p in ps :: i
  }

  lemma FilledAt(m: map<NodeId, int>, ps: set<NodeId>, i: int)
    ensures forall p | p in ps :: p in m + Fill(ps, i) && (m + Fill(ps, i))[p] == i
  {
  }

  lemma FillMore(m: map<NodeId, int>, ps: set<NodeId>, p: NodeId, i: int)
    ensures (m + Fill(ps, i))[p := i] == m + Fill(ps + {p}, i)
  {
  }

  lemma NothingFilled()
    ensures forall m: map<NodeId, int>, i :: m + Fill({}, i) == m
  {
  }

  datatype ApplyMessage = ApplyMessage(index: int, command: Bytes)

  /** A reply to AppendEntries, or the error that keeps the caller from getting one. */
  datatype AppendOutcome = Replied(success: bool, term: nat) | Failed

  // ---------------------------------------------------------------- elections

  function StartElection(r: RaftState, id: NodeId): RaftState {
    r.(role := Candidate, term := r.term + 1, votedFor := Some(id), totalVotes := 1)
  }

  function BecomeFollower(r: RaftState, term: nat): RaftState {
    if term > r.term then r.(role := Follower, term := term, votedFor := None)
    else r.(role := Follower)
  }

  function OnVoteRequest(r: RaftState, term: nat, candidate: NodeId, lastIndex: int, lastTerm: nat): (RaftState, bool) {
    var f := if term > r.term then BecomeFollower(r, term) else r;
    if f.term == term && (f.votedFor == None || f.votedFor == Some(candidate))
       && UpToDate(lastTerm, lastIndex, r.log)
    then (f.(votedFor := Some(candidate)), true)
    else (f, false)
  }

  /** A request that comes again gets the same answer and changes nothing. */
  lemma VoteAgain(r: RaftState, term: nat, candidate: NodeId, lastIndex: int, lastTerm: nat)
    ensures var (r', granted) := OnVoteRequest(r, term, candidate, lastIndex, lastTerm);
            OnVoteRequest(r', term, candidate, lastIndex, lastTerm) == (r', granted)
  {
  }

  function BecomeLeader(r: RaftState, peers: set<NodeId>): RaftState {
    r.(role := Leader,
       nextIndex := r.nextIndex + Fill(peers, r.LastIndex() + 1),
       matchIndex := r.matchIndex + Fill(peers, 0))
  }

  function OnVoteReply(r: RaftState, peers: set<NodeId>, savedTerm: nat, term: nat, granted: bool): RaftState {
    if r.role != Candidate || r.term != savedTerm then r
    else if term > savedTerm then BecomeFollower(r, term)
    else if term == savedTerm && granted then
      var v := r.(totalVotes := r.totalVotes + 1);
      if v.totalVotes > (|peers| + 1) / 2 then BecomeLeader(v, peers) else v
    else r
  }

  // ---------------------------------------------------------------- replication, follower side

  /** How many of the entries are already in the log from index `next` on, going by their terms. */
  function Matching(log: Log, next: nat, entries: Log): (n: nat)
    ensures n <= |entries| && (n > 0 ==> next + n <= |log|)
    ensures forall i | 0 <= i < n :: next + i < |log| && log[next + i].term == entries[i].term
    ensures n < |entries| && next + n < |log| ==> log[next + n].term != entries[n].term
    decreases |entries|
  {
    if entries == [] || next >= |log| || log[next].term != entries[0].term then 0
    else 1 + Matching(log, next + 1, entries[1..])
  }

  /** The log after entries sent for index `next` on were taken in, of which only the first `upTo` were written. */
  function MergeUpTo(log: Log, next: nat, entries: Log, upTo: nat): Log
    requires next <= |log| && upTo <= |entries|
  {
    var n := Matching(log, next, entries);
    if n == |entries| || upTo < n then log else log[..next + n] + entries[n..upTo]
  }

  function Merge(log: Log, next: nat, entries: Log): Log
    requires next <= |log|
  {
    MergeUpTo(log, next, entries, |entries|)
  }

  /** Entries of l that take over where a log agrees with l. */
  lemma Splice(log: Log, l: Log, next: nat, entries: Log, n: nat, upTo: nat)
    requires n <= upTo <= |entries| && next + |entries| <= |l| && Agree(log, l, next + n)
    requires forall i | 0 <= i < |entries| :: entries[i] == l[next + i]
    ensures log[..next + n] + entries[n..upTo] == l[..next + upTo]
  {
  }

  /** Entries are taken in one by one, each building on what the last left. */
  lemma MergeNext(log: Log, next: nat, entries: Log, j: nat)
    requires next <= |log| && Matching(log, next, entries) <= j < |entries|
    ensures MergeUpTo(log, next, entries, j + 1) == MergeUpTo(log, next, entries, j) + [entries[j]]
    ensures |MergeUpTo(log, next, entries, j)| == next + j < |Merge(log, next, entries)|
    ensures MergeUpTo(log, next, entries, j) == Merge(log, next, entries)[..next + j]
    ensures next + Matching(log, next, entries) == |log| ==>
              MergeUpTo(log, next, entries, Matching(log, next, entries)) == log
  {
    hide Matching;
    var n := Matching(log, next, entries);
    MatchingFits(log, next, entries);
    assert entries[n..j + 1] == entries[n..j] + [entries[j]];
    assert entries[n..|entries|][..j - n] == entries[n..j];
    assert log[..next + n] + entries[n..j] == (log[..next + n] + entries[n..|entries|])[..next + j];
  }

  lemma MatchingFits(log: Log, next: nat, entries: Log)
    requires next <= |log|
    ensures next + Matching(log, next, entries) <= |log|
  {
  }

  lemma MergeIsAll(log: Log, next: nat, entries: Log)
    requires next <= |log|
    ensures Merge(log, next, entries) == MergeUpTo(log, next, entries, |entries|)
    ensures Matching(log, next, entries) == |entries| ==> Merge(log, next, entries) == log
  {
  }

  /** Entries of l, taken into a log that agrees with l as far as they match, leave that log or a prefix of l. */
  lemma SplicedLog(log: Log, l: Log, next: nat, entries: Log, written: nat)
    requires next <= |log| && next + |entries| <= |l| && written <= |entries|
    requires forall i | 0 <= i < |entries| :: entries[i] == l[next + i]
    requires Agree(log, l, next + Matching(log, next, entries))
    ensures var n := Matching(log, next, entries);
            MergeUpTo(log, next, entries, written) == if n == |entries| || written < n then log else l[..next + written]
  {
    hide Matching, Agree;
    var n := Matching(log, next, entries);
    MatchingFits(log, next, entries);
    if n <= written {
      Splice(log, l, next, entries, n, written);
    }
  }

  lemma MatchEnds(log: Log, next: nat, entries: Log)
    requires Matching(log, next, entries) < |entries|
    ensures next + Matching(log, next, entries) >= |log|
            || log[next + Matching(log, next, entries)].term != entries[Matching(log, next, entries)].term
  {
  }

  /** A conflict is where the matching entries end. */
  lemma ConflictEndsMatch(log: Log, next: nat, entries: Log, i: nat)
    requires i <= Matching(log, next, entries) && i < |entries|
    requires next + i >= |log| || log[next + i].term != entries[i].term
    ensures i == Matching(log, next, entries)
  {
  }

  /** The log has the terms of the first n of these entries from index `next` on, and not that of the one after them. */
  ghost predicate AgreesFor(log: Log, next: nat, entries: Log, n: nat) {
    && n <= |entries| && next + n <= |log|
    && (forall i | 0 <= i < n :: log[next + i].term == entries[i].term)
    && (n < |entries| && next + n < |log| ==> log[next + n].term != entries[n].term)
  }

  /** What Figure 2 asks of a follower: nothing changes if it has all entries; else those from the first it has not replace the rest. */
  ghost predicate Merged(log: Log, next: nat, entries: Log, after: Log) {
    exists n: nat :: AgreesFor(log, next, entries, n) && after == if n == |entries| then log else log[..next + n] + entries[n..]
  }

  lemma MergedIsMerge(log: Log, next: nat, entries: Log, after: Log)
    requires next <= |log|
    ensures Merged(log, next, entries, after) <==> after == Merge(log, next, entries)
  {
    hide Matching;
    MatchingFits(log, next, entries);
    var k := Matching(log, next, entries);
    assert AgreesFor(log, next, entries, k);
    forall n: nat | AgreesFor(log, next, entries, n) ensures n == k {
      AgreesOnce(log, next, entries, n, k);
    }
  }

  lemma AgreesOnce(log: Log, next: nat, entries: Log, m: nat, n: nat)
    requires AgreesFor(log, next, entries, m) && AgreesFor(log, next, entries, n)
    ensures m == n
  {
  }

  /** The first half of HandleAppendEntries: the term check. */
  function EnterTerm(r: RaftState, term: nat): RaftState {
    if term > r.term then BecomeFollower(r, term) else r.(role := Follower)
  }

  predicate Accepts(r: RaftState, term: nat, prev: int, prevTerm: nat) {
    term >= r.term && 0 <= prev <= r.LastIndex() && r.log[prev].term == prevTerm
  }

  function Min(a: int, b: int): int { if a <= b then a else b }

  function OnAppendRequest(r: RaftState, term: nat, prev: int, prevTerm: nat, entries: Log, leaderCommit: int):
    (RaftState, AppendOutcome)
  {
    if term < r.term then (r, Replied(false, r.term))
    else
      var f := EnterTerm(r, term);
      if prev > r.LastIndex() then (f, Replied(false, r.term))
      else if prev < 0 then (f, Failed)
      else if r.log[prev].term != prevTerm then (f, Replied(false, r.term))
      else
        var log := Merge(r.log, prev + 1, entries);
        var commit := if leaderCommit > r.commitIndex then Min(leaderCommit, |log| - 1) else r.commitIndex;
        (f.(log := log, commitIndex := commit), Replied(true, f.term))
  }

  /**
   The rules for a follower: a request of an earlier term is refused, any other makes a follower in its term, which accepts
   exactly when it has the entry before those sent.
   */
  lemma AppendRule(r: RaftState, term: nat, prev: int, prevTerm: nat, entries: Log, leaderCommit: int)
    ensures var (r', outcome) := OnAppendRequest(r, term, prev, prevTerm, entries, leaderCommit);
            && (term < r.term ==> r' == r && outcome == Replied(false, r.term))
            && (term >= r.term ==>
                  r'.role == Follower && r'.term == term && r'.votedFor == if term > r.term then None else r.votedFor)
            && (Accepts(r, term, prev, prevTerm) ==>
                  && outcome == Replied(true, term) && Merged(r.log, prev + 1, entries, r'.log)
                  && r'.commitIndex == if leaderCommit <= r.commitIndex then r.commitIndex
                                       else if leaderCommit < |r'.log| then leaderCommit else |r'.log| - 1)
            && (!Accepts(r, term, prev, prevTerm) ==>
                  && outcome == (if term >= r.term && prev < 0 then Failed else Replied(false, r.term))
                  && r'.log == r.log && r'.commitIndex == r.commitIndex)
            && r'.lastApplied == r.lastApplied && r'.nextIndex == r.nextIndex && r'.matchIndex == r.matchIndex
  {
    hide MergeUpTo, Merged;
    var r' := OnAppendRequest(r, term, prev, prevTerm, entries, leaderCommit).0;
    if Accepts(r, term, prev, prevTerm) {
      MergedIsMerge(r.log, prev + 1, entries, r'.log);
    }
  }

  /** What HandleAppendEntries does after the term check; a rejection is answered with the term from before it. */
  function TakeIn(f: RaftState, respTerm: nat, prev: int, prevTerm: nat, entries: Log, leaderCommit: int):
    (RaftState, AppendOutcome)
  {
    if prev > f.LastIndex() then (f, Replied(false, respTerm))
    else if prev < 0 then (f, Failed)
    else if f.log[prev].term != prevTerm then (f, Replied(false, respTerm))
    else
      var log := Merge(f.log, prev + 1, entries);
      var commit := if leaderCommit > f.commitIndex then Min(leaderCommit, |log| - 1) else f.commitIndex;
      (f.(log := log, commitIndex := commit), Replied(true, f.term))
  }

  lemma EnterThenTakeIn(r: RaftState, term: nat, prev: int, prevTerm: nat, entries: Log, leaderCommit: int)
    requires term >= r.term
    ensures OnAppendRequest(r, term, prev, prevTerm, entries, leaderCommit)
            == TakeIn(EnterTerm(r, term), r.term, prev, prevTerm, entries, leaderCommit)
  {
    hide MergeUpTo;
  }

  // ---------------------------------------------------------------- replication, leader side

  datatype AppendBody = AppendBody(prev: int, prevTerm: nat, entries: Log, leaderCommit: int)

  /** What replicateToPeer puts in a request: everything from nextIndex on. There is none when nextIndex - 1 is no index of the log. */
  function AppendFor(r: RaftState, peer: NodeId): Option<AppendBody> {
    var next := Lookup(r.nextIndex, peer);
    if 1 <= next <= |r.log| then Some(AppendBody(next - 1, r.log[next - 1].term, r.log[next..], r.commitIndex))
    else None
  }

  function Holders(r: RaftState, peers: set<NodeId>, n: int): set<NodeId> {
    set p | p in peers && Lookup(r.matchIndex, p) >= n
  }

  /** Index n is held by a majority and its entry is of the leader's own term. */
  predicate Committable(r: RaftState, peers: set<NodeId>, n: int) {
    0 <= n < |r.log| && 1 + |Holders(r, peers, n)| > (|peers| + 1) / 2 && r.log[n].term == r.term
  }

  /** A majority of the cluster, the leader included, has confirmed index n. */
  ghost predicate MajorityHolds(r: RaftState, self: NodeId, peers: set<NodeId>, n: int) {
    exists q :: IsQuorum(peers + {self}, q) && self in q && AllHold(r, q - {self}, n)
  }

  ghost predicate AllHold(r: RaftState, ps: set<NodeId>, n: int) {
    forall p | p in ps :: Lookup(r.matchIndex, p) >= n
  }

  /** The counting in advanceLeaderCommit finds exactly the indices of the leader's term that a majority has confirmed. */
  lemma CommittableIffMajority(r: RaftState, self: NodeId, peers: set<NodeId>, n: int)
    requires self !in peers
    ensures Committable(r, peers, n) <==> 0 <= n < |r.log| && r.log[n].term == r.term && MajorityHolds(r, self, peers, n)
  {
    var holders := Holders(r, peers, n);
    assert |peers + {self}| == |peers| + 1 && |holders + {self}| == |holders| + 1;
    if Committable(r, peers, n) {
      assert IsQuorum(peers + {self}, holders + {self}) && AllHold(r, holders + {self} - {self}, n);
    }
    if MajorityHolds(r, self, peers, n) {
      var q :| IsQuorum(peers + {self}, q) && self in q && AllHold(r, q - {self}, n);
      assert q <= holders + {self};
      SubsetSize(q, holders + {self});
    }
  }

  /** From r on, the commit index goes to the largest index above it that can be committed, if there is one. */
  ghost predicate CommitsTo(r: RaftState, peers: set<NodeId>, after: int) {
    && (after == r.commitIndex || (after > r.commitIndex && Committable(r, peers, after)))
    && forall k :: after < k < |r.log| ==> !Committable(r, peers, k)
  }

  /** The commit index after looking at indices n, n - 1, ... above the present commit index. */
  function CommitFrom(r: RaftState, peers: set<NodeId>, n: int): (c: int)
    ensures c == r.commitIndex || (r.commitIndex < c <= n && Committable(r, peers, c))
    ensures forall k :: c < k <= n ==> !Committable(r, peers, k)
    decreases n - r.commitIndex
  {
    if n <= r.commitIndex then r.commitIndex
    else if Committable(r, peers, n) then n
    else CommitFrom(r, peers, n - 1)
  }

  function AdvanceCommit(r: RaftState, peers: set<NodeId>): RaftState {
    r.(commitIndex := CommitFrom(r, peers, r.LastIndex()))
  }

  function OnAppendReply(r: RaftState, peers: set<NodeId>, peer: NodeId, savedTerm: nat,
                         prev: int, count: nat, term: nat, success: bool): RaftState
  {
    if r.role != Leader then r
    else if term > savedTerm then BecomeFollower(r, term)
    else if !success then
      if Lookup(r.nextIndex, peer) > 1 then r.(nextIndex := r.nextIndex[peer := Lookup(r.nextIndex, peer) - 1]) else r
    else
      AdvanceCommit(r.(nextIndex := r.nextIndex[peer := prev + count + 1],
                       matchIndex := r.matchIndex[peer := prev + count]), peers)
  }

  function Submit(r: RaftState, command: Bytes): RaftState {
    if r.role == Leader then r.(log := r.log + [LogEntry(r.term, command)]) else r
  }

  // ---------------------------------------------------------------- applying and restarting

  predicate CanApply(r: RaftState) {
    r.lastApplied < r.commitIndex && 0 <= r.lastApplied + 1 < |r.log|
  }

  function ApplyNext(r: RaftState): (RaftState, ApplyMessage)
    requires CanApply(r)
  {
    (r.(lastApplied := r.lastApplied + 1), ApplyMessage(r.lastApplied + 1, r.log[r.lastApplied + 1].command))
  }

  function SetLastApplied(r: RaftState, offset: nat): RaftState {
    r.(lastApplied := offset, commitIndex := if r.commitIndex < offset then offset else r.commitIndex)
  }

  /** A freshly started node: the term, the vote and the log come from disk, all else starts over. */
  function Fresh(term: nat, votedFor: Option<NodeId>, log: Log): RaftState {
    RaftState(Follower, term, votedFor, log, 0, 0, map[], map[], 0)
  }

  /** A node restarted with `offset` records in its WAL. */
  function Restarted(term: nat, votedFor: Option<NodeId>, log: Log, offset: nat): RaftState {
    SetLastApplied(Fresh(term, votedFor, log), offset)
  }

  // ---------------------------------------------------------------- crashes

  /** What a node comes back with after a crash. */
  datatype Remembered = Remembered(term: nat, votedFor: Option<NodeId>, log: Log)

  function Remember(r: RaftState): Remembered {
    Remembered(r.term, r.votedFor, r.log)
  }

  /** What a crash while a vote request is handled may leave: the higher term is stored first, then the vote. */
  ghost function VoteCrashes(r: RaftState, term: nat, candidate: NodeId, lastIndex: int, lastTerm: nat): iset<Remembered> {
    iset{Remember(r), Remember(if term > r.term then BecomeFollower(r, term) else r),
         Remember(OnVoteRequest(r, term, candidate, lastIndex, lastTerm).0)}
  }

  /** What a crash while entries are taken in may leave: some number of them were written, or none. */
  ghost function MergeCrashes(m: Remembered, next: nat, entries: Log): iset<Remembered>
    requires next <= |m.log|
  {
    iset{m} + iset w: nat | w <= |entries| :: m.(log := MergeUpTo(m.log, next, entries, w))
  }

  ghost function TakeInCrashes(f: RaftState, prev: int, prevTerm: nat, entries: Log): iset<Remembered> {
    if 0 <= prev <= f.LastIndex() && f.log[prev].term == prevTerm then MergeCrashes(Remember(f), prev + 1, entries) else iset{}
  }

  /** What a crash while an append request is handled may leave: the higher term is stored first, then the entries. */
  ghost function AppendCrashes(r: RaftState, term: nat, prev: int, prevTerm: nat, entries: Log): iset<Remembered> {
    if term < r.term then iset{Remember(r)}
    else
      var f := EnterTerm(r, term);
      iset{Remember(r), Remember(f)} + TakeInCrashes(f, prev, prevTerm, entries)
  }
}
