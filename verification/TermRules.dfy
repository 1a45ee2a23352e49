/**
 What the terms that nodes tell one another do, in every run, guarded or not: a later term is adopted, it comes from an
 election that was started in it, and a node that stepped down in a term never leads in it again.
 */
module TermRules {
  import opened RaftTypes
  import opened RaftNode
  import opened Cluster
  import opened ClusterSafety

  // ---------------------------------------------------------------- how a node comes to a later term

  /**
   In this step n takes note of the term t of a message: of any request, of a reply to the vote request of its present
   candidacy, or, as leader, of a reply that has a later term than the request it answers.
   */
  ghost predicate Hears(s: State, e: Event, n: NodeId, t: nat)
    requires n in s.procs
  {
    var r := s.procs[n].raft;
    match e
    case DeliverVoteRequest(m) => m.VoteRequest? && m.to == n && m.term == t
    case DeliverAppend(m) => m.AppendRequest? && m.to == n && m.term == t
    case DeliverVoteReply(m) => m.VoteReply? && m.to == n && m.term == t && r.role == Candidate && r.term == m.savedTerm
    case DeliverAppendReply(m) => m.AppendReply? && m.to == n && m.term == t > m.savedTerm && r.role == Leader
    case _ => false
  }

  /** A later term heard of is adopted: the node is a follower in it, with its vote left or given to the one who asks for it. */
  lemma LaterTermAdopted(c: Config, s: State, e: Event, n: NodeId, t: nat)
    requires Enabled(c, s, e) && n in s.procs && Hears(s, e, n, t) && t > s.procs[n].raft.term
    ensures n in Next(c, s, e).procs
    ensures var r := Next(c, s, e).procs[n].raft;
            && r.role == Follower && r.term == t
            && (r.votedFor == None || (e.DeliverVoteRequest? && r.votedFor == Some(e.m.from)))
  {
    hide MergeUpTo, CommitFrom, UpToDate;
  }

  /** A reply of a later term than the request ends a leadership also when the leader is in that term itself, or past it. */
  lemma LateReplyDeposes(c: Config, s: State, m: Message)
    requires Enabled(c, s, DeliverAppendReply(m)) && s.procs[m.to].raft.role == Leader && m.term > m.savedTerm
    ensures m.to in Next(c, s, DeliverAppendReply(m)).procs
    ensures var r, r' := s.procs[m.to].raft, Next(c, s, DeliverAppendReply(m)).procs[m.to].raft;
            && r'.role == Follower && r'.term == (if m.term > r.term then m.term else r.term)
            && r'.log == r.log && r'.commitIndex == r.commitIndex && r'.lastApplied == r.lastApplied
  {
  }

  /** A node's term changes only when it starts an election, in the next term, or hears of a later one. */
  lemma TermChanges(c: Config, s: State, e: Event, n: NodeId)
    requires Enabled(c, s, e) && n in s.procs
    ensures n in Next(c, s, e).procs
    ensures var t, t' := s.procs[n].raft.term, Next(c, s, e).procs[n].raft.term;
            || t' == t
            || (t' == t + 1 && e == ElectionTimeout(n))
            || (t' > t && (Hears(s, e, n, t') || CrashedIn(e, n, t')))
  {
    hide MergeUpTo, CommitFrom, UpToDate, Applied;
  }

  /** n crashes while it handles a request of term t. */
  ghost predicate CrashedIn(e: Event, n: NodeId, t: nat) {
    match e
    case CrashOnTerm(m, _) => (m.VoteRequest? || m.AppendRequest?) && m.to == n && m.term == t
    case CrashInAppend(m, _, _) => m.AppendRequest? && m.to == n && m.term == t
    case _ => false
  }

  // ---------------------------------------------------------------- stepping down is for good

  lemma FollowerStep(c: Config, s: State, e: Event, n: NodeId, t: nat)
    requires Enabled(c, s, e) && n in s.procs
    requires var r := s.procs[n].raft; r.term > t || (r.term == t && r.role == Follower)
    ensures n in Next(c, s, e).procs
    ensures var r := Next(c, s, e).procs[n].raft; r.term > t || (r.term == t && r.role == Follower)
  {
    hide MergeUpTo, CommitFrom, UpToDate, Applied;
  }

  /** A follower of a term is never candidate or leader in it, nor in an earlier one, at any later time. */
  lemma {:induction false} FollowerForGood(c: Config, run: Run, i: nat, j: nat, n: NodeId)
    requires IsRun(c, run) && i <= j < |run.states| && InRun(run, i, n) && NodeAt(run, i, n).role == Follower
    ensures InRun(run, j, n)
    ensures var r := NodeAt(run, j, n);
            r.term > NodeAt(run, i, n).term || (r.term == NodeAt(run, i, n).term && r.role == Follower)
    decreases j - i
  {
    hide Enabled, Next, Init;
    if i < j {
      FollowerForGood(c, run, i, j - 1, n);
      assert StepOk(c, run, j - 1);
      FollowerStep(c, run.states[j - 1], run.events[j - 1], n, NodeAt(run, i, n).term);
    }
  }

  /** After a node heard of a later term, it leads only in terms later still, for the rest of the run. */
  lemma LeadsOnlyLater(c: Config, run: Run, i: nat, j: nat, n: NodeId, t: nat)
    requires IsRun(c, run) && i < j < |run.states| && InRun(run, i, n)
    requires Hears(run.states[i], run.events[i], n, t) && t > NodeAt(run, i, n).term
    requires InRun(run, j, n) && NodeAt(run, j, n).role != Follower
    ensures NodeAt(run, j, n).term > t
  {
    hide Enabled, Next, Init, Hears;
    assert StepOk(c, run, i);
    LaterTermAdopted(c, run.states[i], run.events[i], n, t);
    FollowerForGood(c, run, i + 1, j, n);
  }

  /** A leader that handled a reply of a later term than its request never leads again in its own term, or in that one. */
  lemma DeposedForGood(c: Config, run: Run, i: nat, j: nat, m: Message)
    requires IsRun(c, run) && i < j < |run.states| && run.events[i] == DeliverAppendReply(m)
    requires InRun(run, i, m.to) && NodeAt(run, i, m.to).role == Leader && m.AppendReply? && m.term > m.savedTerm
    requires InRun(run, j, m.to) && NodeAt(run, j, m.to).role != Follower
    ensures NodeAt(run, j, m.to).term > NodeAt(run, i, m.to).term && NodeAt(run, j, m.to).term > m.term
  {
    hide Next, Init;
    assert StepOk(c, run, i);
    LateReplyDeposes(c, run.states[i], m);
    FollowerForGood(c, run, i + 1, j, m.to);
  }

  // ---------------------------------------------------------------- where terms come from

  /** The terms in which some node stood for election before state i, and the one all start in. */
  ghost function TermsStood(run: Run, i: nat): set<nat>
    requires i < |run.states| && i <= |run.events|
  {
    if i == 0 then {0}
    else TermsStood(run, i - 1) + NewTerms(run.states[i - 1], run.events[i - 1])
  }

  ghost function NewTerms(s: State, e: Event): set<nat> {
    if e.ElectionTimeout? && e.node in s.procs then {s.procs[e.node].raft.term + 1} else {}
  }

  /** Every term that a node is in, has sent or has saved is one of these. */
  ghost predicate TermsFrom(s: State, ts: set<nat>) {
    && (forall n | n in s.procs :: s.procs[n].raft.term in ts && s.procs[n].savedTerms <= ts)
    && forall m | m in s.net :: MessageTerms(m) <= ts
  }

  ghost function MessageTerms(m: Message): set<nat> {
    match m
    case VoteRequest(_, _, _, term, _, _) => {term}
    case VoteReply(_, _, _, savedTerm, term, _) => {savedTerm, term}
    case AppendRequest(_, _, _, term, _) => {term}
    case AppendReply(_, _, _, savedTerm, _, _, term, _) => {savedTerm, term}
  }

  lemma NodeTerms(c: Config, s: State, e: Event, ts: set<nat>, n: NodeId)
    requires Enabled(c, s, e) && TermsFrom(s, ts) && n in s.procs
    ensures n in Next(c, s, e).procs
    ensures Next(c, s, e).procs[n].raft.term in ts + NewTerms(s, e) && Next(c, s, e).procs[n].savedTerms <= ts + NewTerms(s, e)
  {
    hide MergeUpTo, CommitFrom, UpToDate, Applied;
    TermChanges(c, s, e, n);
    var t' := Next(c, s, e).procs[n].raft.term;
    if Hears(s, e, n, t') || CrashedIn(e, n, t') {
      assert e.m in s.net && t' in MessageTerms(e.m);
    }
  }

  lemma SentTerms(c: Config, s: State, e: Event, ts: set<nat>, m: Message)
    requires Enabled(c, s, e) && TermsFrom(s, ts) && m in Next(c, s, e).net
    ensures MessageTerms(m) <= ts + NewTerms(s, e)
  {
    hide MergeUpTo, CommitFrom, UpToDate, Applied;
  }

  lemma TermsStep(c: Config, s: State, e: Event, ts: set<nat>)
    requires Enabled(c, s, e) && TermsFrom(s, ts)
    ensures TermsFrom(Next(c, s, e), ts + NewTerms(s, e))
  {
    hide Enabled, Next, NewTerms;
    SameNodes(c, s, e);
    forall n | n in Next(c, s, e).procs
      ensures Next(c, s, e).procs[n].raft.term in ts + NewTerms(s, e) && Next(c, s, e).procs[n].savedTerms <= ts + NewTerms(s, e)
    {
      NodeTerms(c, s, e, ts, n);
    }
    forall m | m in Next(c, s, e).net ensures MessageTerms(m) <= ts + NewTerms(s, e) {
      SentTerms(c, s, e, ts, m);
    }
  }

  /** No term comes from nowhere: whatever term a node is in, or a message says it is in, some node stood for election in it. */
  lemma {:induction false} TermsAreStoodFor(c: Config, run: Run, i: nat)
    requires IsRun(c, run) && i < |run.states|
    ensures TermsFrom(run.states[i], TermsStood(run, i))
  {
    hide Enabled, Next, NewTerms, TermsFrom;
    if i == 0 {
      assert TermsFrom(Init(c), {0}) by { FirstTerms(c); }
    } else {
      TermsAreStoodFor(c, run, i - 1);
      assert StepOk(c, run, i - 1);
      TermsStep(c, run.states[i - 1], run.events[i - 1], TermsStood(run, i - 1));
    }
  }

  lemma FirstTerms(c: Config)
    ensures TermsFrom(Init(c), {0})
  {
  }
}
