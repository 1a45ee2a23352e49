/**
 raft/raft.go: the Raft object, over its durable log and its state file. Every method takes the step of the same name
 in RaftNode, which is what the nodes of Cluster do, and leaves on disk the term, the vote and the log it ends with.
 */
module RaftServer {
  import opened RaftTypes
  import opened RaftNode
  import opened RaftDisk
  import opened RaftStorage
  import opened StateFile

  /** What the files of a node hold at one moment: raft.state and its temporary file, and the store and index of the log. */
  type RaftFiles = (StateDisk, Disk)

  /** Restarted from these files, a node comes back with this term, vote and log. */
  ghost predicate Leaves(codec: Codec, f: RaftFiles, m: Remembered) {
    var s := Loaded(f.0);
    && s.Some? && s.value.currentTerm == m.term && VoteOf(s.value.votedFor) == m.votedFor
    && Recovered(codec, f.1) == Image(codec, m.log)
  }

  ghost predicate LeavesOne(codec: Codec, f: RaftFiles, ms: iset<Remembered>) {
    exists m :: m in ms && Leaves(codec, f, m)
  }

  /** A crash at any moment between `before` and `after` leaves one of these. */
  ghost predicate CrashesLeave(codec: Codec, before: iset<RaftFiles>, after: iset<RaftFiles>, ms: iset<Remembered>) {
    forall f :: f in after && f !in before ==> LeavesOne(codec, f, ms)
  }

  lemma CrashesThen(codec: Codec, a: iset<RaftFiles>, b: iset<RaftFiles>, c: iset<RaftFiles>, ms: iset<Remembered>, ns: iset<Remembered>)
    requires CrashesLeave(codec, a, b, ms) && CrashesLeave(codec, b, c, ns) && ms <= ns
    ensures CrashesLeave(codec, a, c, ns)
  {
    hide Leaves;
    forall f | f in c && f !in a ensures LeavesOne(codec, f, ns) {
      if f in b {
        assert LeavesOne(codec, f, ms);
      }
    }
  }

  lemma CrashesOf(codec: Codec, a: iset<RaftFiles>, b: iset<RaftFiles>, ms: iset<Remembered>, ns: iset<Remembered>)
    requires CrashesLeave(codec, a, b, ms) && ms <= ns
    ensures CrashesLeave(codec, a, b, ns)
  {
    hide Leaves;
    CrashesThen(codec, a, b, b, ms, ns);
  }

  lemma CrashesNone(codec: Codec, a: iset<RaftFiles>)
    ensures CrashesLeave(codec, a, a, iset{})
  {
  }

  /** Two steps on the way from a log to the merge of entries into it leave nothing but what the merge may leave. */
  lemma CrashesIn(codec: Codec, a: iset<RaftFiles>, b: iset<RaftFiles>, c: iset<RaftFiles>, v: RaftState, l: Log, k: Log,
                  next: nat, entries: Log, i: nat, j: nat)
    requires next <= |v.log| && i <= j <= |entries|
    requires l == v.log || l == MergeUpTo(v.log, next, entries, i)
    requires k == MergeUpTo(v.log, next, entries, j)
    requires CrashesLeave(codec, a, b, MergeCrashes(Remember(v), next, entries))
    requires CrashesLeave(codec, b, c, iset{Remember(v.(log := l)), Remember(v.(log := k))})
    ensures CrashesLeave(codec, a, c, MergeCrashes(Remember(v), next, entries))
  {
    hide CrashesLeave, MergeUpTo;
    var ms := MergeCrashes(Remember(v), next, entries);
    CrashesOf(codec, b, c, iset{Remember(v.(log := l)), Remember(v.(log := k))}, ms);
    CrashesThen(codec, a, b, c, ms, ms);
  }

  lemma RejectedOld(r: RaftState, term: nat, prev: int, prevTerm: nat, entries: Log, leaderCommit: int)
    requires term < r.term
    ensures OnAppendRequest(r, term, prev, prevTerm, entries, leaderCommit) == (r, Replied(false, r.term))
  {
  }

  lemma CutIsMerge(log: Log, next: nat, entries: Log, i: nat)
    requires next <= |log| && i == Matching(log, next, entries) < |entries| && next + i <= |log|
    ensures log[..next + i] == MergeUpTo(log, next, entries, i)
    ensures MergeUpTo(log, next, entries, |entries|) == Merge(log, next, entries)
  {
    hide Matching;
  }

  lemma NextStorable(codec: Codec, log: Log, next: nat, entries: Log, j: nat)
    requires next <= |log| && Matching(log, next, entries) <= j < |entries| && Storable(codec, Merge(log, next, entries))
    ensures MergeUpTo(log, next, entries, j + 1) == MergeUpTo(log, next, entries, j) + [entries[j]]
    ensures Storable(codec, MergeUpTo(log, next, entries, j) + [entries[j]])
  {
    hide Storable, Matching, MergeUpTo, Merge;
    MergeNext(log, next, entries, j);
    if j + 1 < |entries| {
      MergeNext(log, next, entries, j + 1);
      StorablePrefix(codec, Merge(log, next, entries), next + j + 1);
    } else {
      MergeIsAll(log, next, entries);
    }
  }

  ghost function Together(ss: iset<StateDisk>, ds: iset<Disk>): iset<RaftFiles> {
    iset s, d | s in ss && d in ds :: (s, d)
  }

  /** `crashes` collects what the files would hold, together, if the process stopped at any moment so far. */
  class Raft {
    const id: NodeId
    const peers: set<NodeId>
    const log: RaftLog
    const disk: StateDir
    var state: Role
    var term: nat
    var votedFor: string
    var commitIndex: int
    var lastApplied: int
    var nextIndex: map<NodeId, int>
    var matchIndex: map<NodeId, int>
    var totalVotesReceived: nat
    ghost var crashes: iset<RaftFiles>

    ghost predicate Valid()
      reads this, disk, log, log.files
    {
      && log.Valid() && ValidId(id)
      && Loaded(disk.Disk()) == Some(PersistentState(term, votedFor))
    }

    ghost function View(): RaftState
      reads this, log
    {
      RaftState(state, term, VoteOf(votedFor), log.entries, commitIndex, lastApplied, nextIndex, matchIndex, totalVotesReceived)
    }

    /** The log, both indices and what is known of the peers are as before. */
    twostate predicate Unmoved()
      reads this, log
    {
      && log.entries == old(log.entries) && commitIndex == old(commitIndex) && lastApplied == old(lastApplied)
      && nextIndex == old(nextIndex) && matchIndex == old(matchIndex)
    }

    /** NewRaft: everything volatile starts over; the term and the vote are the stored ones. */
    constructor (id: NodeId, peers: set<NodeId>, log: RaftLog, disk: StateDir)
      requires log.Valid() && ValidId(id) && Loaded(disk.Disk()).Some?
      ensures this.id == id && this.peers == peers && this.log == log && this.disk == disk
      ensures Valid()
      ensures var s := Loaded(disk.Disk()).value; View() == Fresh(s.currentTerm, VoteOf(s.votedFor), log.entries)
      ensures state == Follower && commitIndex == lastApplied == 0 && nextIndex == matchIndex == map[]
      ensures disk.main == Absent ==> term == 0 && votedFor == "-1"
      ensures disk.main.Complete? ==>
                && term == disk.main.state.currentTerm
                && votedFor == if disk.main.state.votedFor == "" then "-1" else disk.main.state.votedFor
    {
      this.id, this.peers, this.log, this.disk := id, peers, log, disk;
      state, commitIndex, lastApplied, nextIndex, matchIndex, totalVotesReceived := Follower, 0, 0, map[], map[], 0;
      crashes := iset{};
      new;
      var s := disk.Load();
      term, votedFor := s.value.currentTerm, s.value.votedFor;
    }

    /** persistStateLocked, for a term and vote that replace the stored ones. */
    method PersistState(ghost was: Remembered)
      requires log.Valid() && votedFor != "" && Leaves(log.codec, (disk.Disk(), log.files.Content()), was) && was.log == log.entries
      modifies disk, this`crashes
      ensures disk.main == Complete(PersistentState(term, votedFor))
      ensures Loaded(disk.Disk()) == Some(PersistentState(term, votedFor))
      ensures CrashesLeave(log.codec, old(crashes), crashes, iset{was, Remember(View())})
    {
      hide Recovered, Image, RoundTrips, Storable;
      ghost var saved, content := disk.crashes, log.files.Content();
      disk.crashes := iset{};
      disk.Persist(PersistentState(term, votedFor));
      forall f | f in Together(disk.crashes, iset{content})
        ensures LeavesOne(log.codec, f, iset{was, Remember(View())})
      {
        assert Leaves(log.codec, f, was) || Leaves(log.codec, f, Remember(View()));
      }
      crashes := crashes + Together(disk.crashes, iset{content});
      disk.crashes := saved + disk.crashes;
    }

    /** What is on disk between two operations. */
    lemma AtRest()
      requires Valid()
      ensures Leaves(log.codec, (disk.Disk(), log.files.Content()), Remember(View()))
    {
      RecoveryIdempotent(log.codec, log.entries);
    }

    lemma LogOk()
      requires Valid()
      ensures log.Valid()
    {
    }

    method AppendToLog(e: LogEntry)
      requires Valid() && Storable(log.codec, log.entries + [e])
      modifies log, log.files, this`crashes
      ensures Valid() && View() == old(View()).(log := old(log.entries) + [e])
      ensures CrashesLeave(log.codec, old(crashes), crashes, iset{Remember(old(View())), Remember(View())})
    {
      hide Recovered, Image, RoundTrips, Storable;
      ghost var saved := log.files.crashes;
      log.files.crashes := iset{};
      var _ := log.Append(e);
      forall f | f in Together(iset{disk.Disk()}, log.files.crashes)
        ensures LeavesOne(log.codec, f, iset{Remember(old(View())), Remember(View())})
      {
        assert Leaves(log.codec, f, Remember(old(View()))) || Leaves(log.codec, f, Remember(View()));
      }
      crashes := crashes + Together(iset{disk.Disk()}, log.files.crashes);
      log.files.crashes := saved + log.files.crashes;
    }

    method CutLog(i: nat)
      requires Valid() && i <= |log.entries|
      modifies log, log.files, this`crashes
      ensures Valid() && View() == old(View()).(log := old(log.entries)[..i])
      ensures CrashesLeave(log.codec, old(crashes), crashes, iset{Remember(old(View())), Remember(View())})
    {
      hide Recovered, Image, RoundTrips, Storable;
      ghost var saved := log.files.crashes;
      log.files.crashes := iset{};
      var _ := log.TruncateFrom(i);
      forall f | f in Together(iset{disk.Disk()}, log.files.crashes)
        ensures LeavesOne(log.codec, f, iset{Remember(old(View())), Remember(View())})
      {
        assert Leaves(log.codec, f, Remember(old(View()))) || Leaves(log.codec, f, Remember(View()));
      }
      crashes := crashes + Together(iset{disk.Disk()}, log.files.crashes);
      log.files.crashes := saved + log.files.crashes;
    }

    // -------------------------------------------------------------- elections

    /** startElection, up to the requests it sends. */
    method StartElection() returns (savedTerm: nat, lastLogIndex: int, lastLogTerm: nat)
      requires Valid()
      modifies this, disk
      ensures Valid() && View() == RaftNode.StartElection(old(View()), id)
      ensures state == Candidate && term == old(term) + 1 && votedFor == id && totalVotesReceived == 1 && Unmoved()
      ensures savedTerm == term && lastLogIndex == View().LastIndex() && lastLogTerm == LastTerm(log.entries)
      ensures CrashesLeave(log.codec, old(crashes), crashes, iset{Remember(old(View())), Remember(View())})
    {
      hide Leaves, CrashesLeave, Recovered, Image, RoundTrips, Storable;
      AtRest();
      state := Candidate;
      term := term + 1;
      votedFor := id;
      savedTerm := term;
      PersistState(Remember(old(View())));
      totalVotesReceived := 1;
      lastLogIndex := log.LastIndex();
      lastLogTerm := log.LastTerm();
    }

    method BecameFollower(t: nat)
      requires Valid()
      modifies this, disk
      ensures Valid() && View() == BecomeFollower(old(View()), t)
      ensures state == Follower && Unmoved()
      ensures if t > old(term) then term == t && votedFor == NOBODY else term == old(term) && votedFor == old(votedFor)
      ensures CrashesLeave(log.codec, old(crashes), crashes, iset{Remember(old(View())), Remember(View())})
    {
      hide Leaves, Recovered, Image, RoundTrips, Storable;
      AtRest();
      if t > term {
        term := t;
        votedFor := NOBODY;
        PersistState(Remember(old(View())));
      }
      state := Follower;
    }

    /**
     A vote is granted to a candidate whose log is up to date, by a node that is new to the term or has its vote of the
     term left, or already gave it to this candidate.
     */
    method HandleRequestVote(reqTerm: nat, candidate: NodeId, lastIndex: int, lastTerm: nat) returns (respTerm: nat, granted: bool)
      requires Valid() && ValidId(candidate)
      modifies this, disk
      ensures Valid() && (View(), granted) == OnVoteRequest(old(View()), reqTerm, candidate, lastIndex, lastTerm)
      ensures respTerm == term == if reqTerm > old(term) then reqTerm else old(term)
      ensures granted <==> && (reqTerm > old(term) || (reqTerm == old(term) && (old(votedFor) == NOBODY || old(votedFor) == candidate)))
                           && (lastTerm > LastTerm(log.entries) || (lastTerm == LastTerm(log.entries) && lastIndex >= |log.entries| - 1))
      ensures votedFor == if granted then candidate else if reqTerm > old(term) then NOBODY else old(votedFor)
      ensures state == if reqTerm > old(term) then Follower else old(state)
      ensures Unmoved() && totalVotesReceived == old(totalVotesReceived)
      ensures CrashesLeave(log.codec, old(crashes), crashes,
                           VoteCrashes(old(View()), reqTerm, candidate, lastIndex, lastTerm))
    {
      hide Leaves, CrashesLeave, Recovered, Image, RoundTrips, Storable;
      ghost var ms := VoteCrashes(View(), reqTerm, candidate, lastIndex, lastTerm);
      CrashesNone(log.codec, crashes);
      CrashesOf(log.codec, crashes, crashes, iset{}, iset{Remember(View()), Remember(View())});
      var lastLogIndex := log.LastIndex();
      var lastLogTerm := log.LastTerm();
      if reqTerm > term {
        BecameFollower(reqTerm);
      }
      ghost var mid, entered := crashes, View();
      AtRest();
      CrashesOf(log.codec, old(crashes), mid, iset{Remember(old(View())), Remember(entered)}, ms);
      var isCandidateUpToDate := lastTerm > lastLogTerm || (lastTerm == lastLogTerm && lastIndex >= lastLogIndex);
      if term == reqTerm && (votedFor == NOBODY || votedFor == candidate) && isCandidateUpToDate {
        votedFor := candidate;
        PersistState(Remember(entered));
        CrashesOf(log.codec, mid, crashes, iset{Remember(entered), Remember(View())}, ms);
        CrashesThen(log.codec, old(crashes), mid, crashes, ms, ms);
        granted := true;
      } else {
        granted := false;
      }
      respTerm := term;
    }

    /**
     The part of startElection's goroutine that handles a reply. Only a candidate still in the term of its request looks
     at it: a later term ends the candidacy, a vote is counted, and makes a leader with a majority of the cluster.
     */
    method HandleVoteReply(savedTerm: nat, respTerm: nat, voteGranted: bool)
      requires Valid()
      modifies this, disk
      ensures Valid() && View() == OnVoteReply(old(View()), peers, savedTerm, respTerm, voteGranted)
      ensures log.entries == old(log.entries) && commitIndex == old(commitIndex) && lastApplied == old(lastApplied)
      ensures var asked := old(state) == Candidate && old(term) == savedTerm;
              && (asked && respTerm > savedTerm ==> state == Follower && term == respTerm && votedFor == NOBODY && Unmoved())
              && (asked && respTerm == savedTerm && voteGranted ==>
                    && term == savedTerm && votedFor == old(votedFor) && totalVotesReceived == old(totalVotesReceived) + 1
                    && if 2 * totalVotesReceived > |peers| + 1 then
                         state == Leader && forall p | p in peers :: p in nextIndex && nextIndex[p] == |log.entries| && p in matchIndex && matchIndex[p] == 0
                       else state == Candidate && Unmoved())
              && (!asked || respTerm < savedTerm || (respTerm == savedTerm && !voteGranted) ==> View() == old(View()))
      ensures CrashesLeave(log.codec, old(crashes), crashes, iset{Remember(old(View())), Remember(View())})
    {
      if state != Candidate || term != savedTerm {
        return;
      }
      if respTerm > savedTerm {
        BecameFollower(respTerm);
        return;
      }
      if respTerm == savedTerm {
        if voteGranted {
          totalVotesReceived := totalVotesReceived + 1;
          var clusterSize := |peers| + 1;
          if totalVotesReceived > clusterSize / 2 && state == Candidate {
            BecameLeader();
          }
        }
      }
    }

    method BecameLeader()
      requires Valid()
      modifies this`state, this`nextIndex, this`matchIndex
      ensures View() == BecomeLeader(old(View()), peers)
      ensures state == Leader && forall p | p in peers :: p in nextIndex && nextIndex[p] == |log.entries| && p in matchIndex && matchIndex[p] == 0
    {
      hide Fill;
      NothingFilled();
      state := Leader;
      var last := log.LastIndex();
      ghost var next, matched := nextIndex, matchIndex;
      var rest := peers;
      assert peers - rest == {};
      while rest != {}
        invariant rest <= peers && state == Leader
        invariant nextIndex == next + Fill(peers - rest, last + 1)
        invariant matchIndex == matched + Fill(peers - rest, 0)
      {
        var p :| p in rest;
        assert peers - (rest - {p}) == (peers - rest) + {p};
        FillMore(next, peers - rest, p, last + 1);
        FillMore(matched, peers - rest, p, 0);
        nextIndex := nextIndex[p := last + 1];
        matchIndex := matchIndex[p := 0];
        rest := rest - {p};
      }
      assert peers - rest == peers;
      FilledAt(next, peers, last + 1);
      FilledAt(matched, peers, 0);
    }

    // -------------------------------------------------------------- replication, follower side

    /**
     A request of an earlier term is refused. Any other makes a follower in its term, which accepts it exactly when its
     log has the entry before those sent, and then holds them, and commits as far as it is told and has entries.
     */
    method HandleAppendEntries(reqTerm: nat, prev: int, prevTerm: nat, entries: Log, leaderCommit: int) returns (r: AppendOutcome)
      requires Valid()
      requires Storable(log.codec, OnAppendRequest(View(), reqTerm, prev, prevTerm, entries, leaderCommit).0.log)
      modifies this, disk, log, log.files
      ensures Valid() && (View(), r) == OnAppendRequest(old(View()), reqTerm, prev, prevTerm, entries, leaderCommit)
      ensures reqTerm < old(term) ==> View() == old(View()) && r == Replied(false, old(term))
      ensures reqTerm >= old(term) ==>
                && state == Follower && term == reqTerm
                && votedFor == if reqTerm > old(term) then NOBODY else old(votedFor)
      ensures var accepted := reqTerm >= old(term) && 0 <= prev < |old(log.entries)| && old(log.entries)[prev].term == prevTerm;
              && (accepted ==>
                    && r == Replied(true, reqTerm) && Merged(old(log.entries), prev + 1, entries, log.entries)
                    && commitIndex == if leaderCommit <= old(commitIndex) then old(commitIndex)
                                      else if leaderCommit < |log.entries| then leaderCommit else |log.entries| - 1)
              && (!accepted ==>
                    && r == (if reqTerm >= old(term) && prev < 0 then Failed else Replied(false, old(term)))
                    && log.entries == old(log.entries) && commitIndex == old(commitIndex))
      ensures lastApplied == old(lastApplied) && nextIndex == old(nextIndex) && matchIndex == old(matchIndex)
      ensures CrashesLeave(log.codec, old(crashes), crashes, AppendCrashes(old(View()), reqTerm, prev, prevTerm, entries))
    {
      hide Valid, Leaves, CrashesLeave, Storable, OnAppendRequest, TakeIn, MergeCrashes, Merged;
      AppendRule(View(), reqTerm, prev, prevTerm, entries, leaderCommit);
      ghost var was, ms := View(), AppendCrashes(View(), reqTerm, prev, prevTerm, entries);
      var respTerm := term;
      if reqTerm < term {
        RejectedOld(was, reqTerm, prev, prevTerm, entries, leaderCommit);
        CrashesNone(log.codec, crashes);
        CrashesOf(log.codec, crashes, crashes, iset{}, ms);
        return Replied(false, respTerm);
      }
      EnterThenTakeIn(was, reqTerm, prev, prevTerm, entries, leaderCommit);
      EnterForAppend(reqTerm);
      CrashesOf(log.codec, old(crashes), crashes, iset{Remember(was), Remember(View())}, ms);
      ghost var mid := crashes;
      r := TakeInEntries(respTerm, prev, prevTerm, entries, leaderCommit);
      CrashesOf(log.codec, mid, crashes, TakeInCrashes(EnterTerm(was, reqTerm), prev, prevTerm, entries), ms);
      CrashesThen(log.codec, old(crashes), mid, crashes, ms, ms);
    }

    /** What HandleAppendEntries does after the term check. */
    method TakeInEntries(respTerm: nat, prev: int, prevTerm: nat, entries: Log, leaderCommit: int) returns (r: AppendOutcome)
      requires Valid() && Storable(log.codec, TakeIn(View(), respTerm, prev, prevTerm, entries, leaderCommit).0.log)
      modifies this, log, log.files
      ensures Valid() && (View(), r) == TakeIn(old(View()), respTerm, prev, prevTerm, entries, leaderCommit)
      ensures CrashesLeave(log.codec, old(crashes), crashes, TakeInCrashes(old(View()), prev, prevTerm, entries))
    {
      hide Valid, Leaves, CrashesLeave, Storable, Merge, MergeCrashes, Remember, RaftLog.Valid;
      LogOk();
      CrashesNone(log.codec, crashes);
      CrashesOf(log.codec, crashes, crashes, iset{}, TakeInCrashes(View(), prev, prevTerm, entries));
      var lastLogIndex := log.LastIndex();
      if prev > lastLogIndex {
        return Replied(false, respTerm);
      }
      var prevEntry := log.Fetch(prev);
      if prevEntry == None {
        return Failed;
      }
      if prevTerm != prevEntry.value.term {
        return Replied(false, respTerm);
      }
      MergeEntries(prev + 1, entries);
      RaiseCommit(leaderCommit);
      return Replied(true, term);
    }

    /** The follower's commit rule. */
    method RaiseCommit(leaderCommit: int)
      requires Valid()
      modifies this`commitIndex
      ensures Valid()
      ensures View() == var r := old(View());
                        if leaderCommit > r.commitIndex then r.(commitIndex := Min(leaderCommit, r.LastIndex())) else r
    {
      if leaderCommit > commitIndex {
        var lastIndex := log.LastIndex();
        commitIndex := Min(leaderCommit, lastIndex);
      }
    }

    /** The term check of HandleAppendEntries. */
    method EnterForAppend(reqTerm: nat)
      requires Valid() && reqTerm >= term
      modifies this, disk
      ensures Valid() && View() == EnterTerm(old(View()), reqTerm)
      ensures CrashesLeave(log.codec, old(crashes), crashes, iset{Remember(old(View())), Remember(View())})
    {
      if reqTerm > term {
        BecameFollower(reqTerm);
      } else if state != Follower {
        state := Follower;
      }
    }

    /** The loop of HandleAppendEntries over the entries received. */
    method MergeEntries(next: nat, entries: Log)
      requires Valid() && next <= |log.entries| && Storable(log.codec, Merge(log.entries, next, entries))
      modifies log, log.files, this`crashes
      ensures Valid() && View() == old(View()).(log := Merge(old(log.entries), next, entries))
      ensures CrashesLeave(log.codec, old(crashes), crashes, MergeCrashes(Remember(old(View())), next, entries))
    {
      hide Leaves, CrashesLeave, Storable, RoundTrips, Image, Matching, MergeUpTo, Loaded;
      ghost var v := View();
      ghost var was := log.entries;
      ghost var n := Matching(was, next, entries);
      ghost var ms := MergeCrashes(Remember(v), next, entries);
      var i := 0;
      MergeIsAll(was, next, entries);
      CrashesNone(log.codec, crashes);
      CrashesOf(log.codec, crashes, crashes, iset{}, ms);
      while i < |entries|
        invariant i <= |entries| && Valid()
        invariant View() == v.(log := if i <= n then was else MergeUpTo(was, next, entries, i))
        invariant i > n ==> next + n == |was| && |log.entries| == next + i
        invariant CrashesLeave(log.codec, old(crashes), crashes, ms)
      {
        var index := next + i;
        var last := log.LastIndex();
        if index <= last {
          var existing := log.Fetch(index);
          if existing.value.term != entries[i].term {
            ConflictEndsMatch(was, next, entries, i);
            ReplaceFrom(next, entries, i, old(crashes));
            return;
          }
          if i == n { MatchEnds(was, next, entries); }
          i := i + 1;
          continue;
        }
        if i <= n { ConflictEndsMatch(was, next, entries, i); }
        MergeNext(was, next, entries, i);
        AppendNext(next, entries, i, v, old(crashes));
        i := i + 1;
      }
    }

    /** The conflicting case of the loop: everything from entry i on is replaced. */
    method ReplaceFrom(next: nat, entries: Log, i: nat, ghost before: iset<RaftFiles>)
      requires Valid() && next <= |log.entries| && i == Matching(log.entries, next, entries) < |entries|
      requires next + i < |log.entries| && Storable(log.codec, Merge(log.entries, next, entries))
      requires CrashesLeave(log.codec, before, crashes, MergeCrashes(Remember(View()), next, entries))
      modifies log, log.files, this`crashes
      ensures Valid() && View() == old(View()).(log := Merge(old(log.entries), next, entries))
      ensures CrashesLeave(log.codec, before, crashes, MergeCrashes(Remember(old(View())), next, entries))
    {
      hide Valid, Leaves, CrashesLeave, Storable, Matching;
      ghost var v, mid := View(), crashes;
      CutLog(next + i);
      CutIsMerge(v.log, next, entries, i);
      CrashesIn(log.codec, before, mid, crashes, v, v.log, log.entries, next, entries, 0, i);
      for j := i to |entries|
        invariant Valid() && View() == v.(log := MergeUpTo(v.log, next, entries, j))
        invariant CrashesLeave(log.codec, before, crashes, MergeCrashes(Remember(v), next, entries))
      {
        AppendNext(next, entries, j, v, before);
      }
    }

    /** Appends entry j to what was taken in so far. */
    method AppendNext(next: nat, entries: Log, j: nat, ghost v: RaftState, ghost before: iset<RaftFiles>)
      requires Valid() && next <= |v.log| && Matching(v.log, next, entries) <= j < |entries|
      requires View() == v.(log := MergeUpTo(v.log, next, entries, j))
      requires Storable(log.codec, Merge(v.log, next, entries))
      requires CrashesLeave(log.codec, before, crashes, MergeCrashes(Remember(v), next, entries))
      modifies log, log.files, this`crashes
      ensures Valid() && View() == v.(log := MergeUpTo(v.log, next, entries, j + 1))
      ensures CrashesLeave(log.codec, before, crashes, MergeCrashes(Remember(v), next, entries))
    {
      hide Valid, Leaves, CrashesLeave, Storable, Matching, MergeUpTo, Merge;
      ghost var mid := crashes;
      NextStorable(log.codec, v.log, next, entries, j);
      AppendToLog(entries[j]);
      CrashesIn(log.codec, before, mid, crashes, v, MergeUpTo(v.log, next, entries, j), log.entries, next, entries, j, j + 1);
    }

    // -------------------------------------------------------------- replication, leader side

    /** The first half of replicateToPeer. */
    method PrepareAppend(peer: NodeId) returns (r: Option<AppendBody>)
      requires Valid()
      ensures r == if state == Leader then AppendFor(View(), peer) else None
      ensures r.Some? <==> state == Leader && 1 <= Lookup(nextIndex, peer) <= |log.entries|
      ensures r.Some? ==>
                && r.value.prev == Lookup(nextIndex, peer) - 1 && r.value.prevTerm == log.entries[r.value.prev].term
                && r.value.entries == log.entries[r.value.prev + 1..] && r.value.leaderCommit == commitIndex
    {
      if state != Leader {
        return None;
      }
      var next := Lookup(nextIndex, peer);
      var prevLogIndex := next - 1;
      var prevEntry := log.Fetch(prevLogIndex);
      if prevEntry == None {
        return None;
      }
      var lastIndex := log.LastIndex();
      var prevLogTerm := prevEntry.value.term;
      var entries: Log := [];
      if next <= lastIndex {
        var range := log.GetRange(next, lastIndex + 1);
        entries := range.value;
      }
      assert entries == log.entries[next..];
      return Some(AppendBody(prevLogIndex, prevLogTerm, entries, commitIndex));
    }

    /**
     The second half of replicateToPeer. Only a leader looks at the reply: a later term than that of the request ends its
     leadership, a rejection takes nextIndex down, and an acknowledgement is noted and may commit.
     */
    method HandleAppendReply(peer: NodeId, savedTerm: nat, prev: int, count: nat, respTerm: nat, success: bool)
      requires Valid()
      modifies this, disk
      ensures Valid() && View() == OnAppendReply(old(View()), peers, peer, savedTerm, prev, count, respTerm, success)
      ensures log.entries == old(log.entries) && lastApplied == old(lastApplied)
      ensures old(state) != Leader ==> View() == old(View())
      ensures old(state) == Leader && respTerm > savedTerm ==>
                && state == Follower && Unmoved()
                && if respTerm > old(term) then term == respTerm && votedFor == NOBODY
                   else term == old(term) && votedFor == old(votedFor)
      ensures old(state) == Leader && respTerm <= savedTerm ==> state == Leader && term == old(term) && votedFor == old(votedFor)
      ensures old(state) == Leader && respTerm <= savedTerm && !success ==>
                && matchIndex == old(matchIndex) && commitIndex == old(commitIndex)
                && nextIndex == if old(Lookup(nextIndex, peer)) > 1 then old(nextIndex)[peer := old(Lookup(nextIndex, peer)) - 1]
                                else old(nextIndex)
      ensures old(state) == Leader && respTerm <= savedTerm && success ==>
                && nextIndex == old(nextIndex)[peer := prev + count + 1] && matchIndex == old(matchIndex)[peer := prev + count]
                && CommitsTo(View().(commitIndex := old(commitIndex)), peers, commitIndex)
      ensures CrashesLeave(log.codec, old(crashes), crashes, iset{Remember(old(View())), Remember(View())})
    {
      hide CommitFrom, CommitsTo, Leaves, RoundTrips, Storable, Image;
      if state != Leader {
        return;
      }
      if respTerm > savedTerm {
        BecameFollower(respTerm);
        return;
      }
      if !success {
        if Lookup(nextIndex, peer) > 1 {
          nextIndex := nextIndex[peer := Lookup(nextIndex, peer) - 1];
        }
      } else {
        var lastReplicatedIndex := prev + count;
        nextIndex := nextIndex[peer := lastReplicatedIndex + 1];
        matchIndex := matchIndex[peer := lastReplicatedIndex];
        AdvanceLeaderCommit();
      }
    }

    /** advanceLeaderCommit: the largest index a majority holds whose entry is of this term, if it is above the commit index. */
    method AdvanceLeaderCommit()
      requires Valid()
      modifies this`commitIndex
      ensures View() == AdvanceCommit(old(View()), peers)
      ensures CommitsTo(old(View()), peers, commitIndex)
    {
      var clusterSize := |peers| + 1;
      var lastIndex := log.LastIndex();
      var n := lastIndex;
      while n > commitIndex
        invariant n <= lastIndex && commitIndex == old(commitIndex)
        invariant CommitFrom(View(), peers, lastIndex) == CommitFrom(View(), peers, n)
      {
        var holders := CountHolders(n);
        var replicatedCount := 1 + holders;
        if replicatedCount <= clusterSize / 2 {
          n := n - 1;
          continue;
        }
        var entry := log.Fetch(n);
        if entry == None {
          n := n - 1;
          continue;
        }
        if entry.value.term == term {
          commitIndex := n;
          break;
        }
        n := n - 1;
      }
    }

    /** The inner loop of advanceLeaderCommit. */
    method CountHolders(n: int) returns (count: nat)
      requires Valid()
      ensures count == |Holders(View(), peers, n)|
    {
      count := 0;
      var rest := peers;
      ghost var seen: set<NodeId> := {};
      while rest != {}
        invariant rest <= peers && seen == peers - rest
        invariant count == |Holders(View(), seen, n)|
      {
        var p :| p in rest;
        ghost var before := Holders(View(), seen, n);
        rest := rest - {p};
        seen := seen + {p};
        if Lookup(matchIndex, p) >= n {
          assert Holders(View(), seen, n) == before + {p};
          count := count + 1;
        } else {
          assert Holders(View(), seen, n) == before;
        }
      }
      assert seen == peers;
    }

    /** Any leader takes in a command, as an entry of its own term at the end of its log; no other node does. */
    method Submit(command: Bytes) returns (ok: bool)
      requires Valid() && Storable(log.codec, log.entries + [LogEntry(term, command)])
      modifies log, log.files, this`crashes
      ensures Valid() && View() == RaftNode.Submit(old(View()), command) && ok == (state == Leader)
      ensures log.entries == old(log.entries) + if state == Leader then [LogEntry(term, command)] else []
      ensures CrashesLeave(log.codec, old(crashes), crashes, iset{Remember(old(View())), Remember(View())})
    {
      if state != Leader {
        return false;
      }
      var entry := LogEntry(term, command);
      AppendToLog(entry);
      return true;
    }

    // -------------------------------------------------------------- applying

    /** One round of ApplyLoop: the next committed entry, if there is one; an index without an entry is passed over. */
    method NextToApply() returns (m: Option<ApplyMessage>)
      requires Valid()
      modifies this`lastApplied
      ensures Valid() && m.Some? == CanApply(old(View()))
      ensures m.Some? <==> old(lastApplied) < commitIndex && 0 <= old(lastApplied) + 1 < |log.entries|
      ensures m.Some? ==> lastApplied == old(lastApplied) + 1 && m.value == ApplyMessage(lastApplied, log.entries[lastApplied].command)
      ensures if m.Some? then (View(), m.value) == ApplyNext(old(View()))
              else View() == if old(lastApplied) < commitIndex then old(View()).(lastApplied := old(lastApplied) + 1) else old(View())
    {
      if lastApplied < commitIndex {
        lastApplied := lastApplied + 1;
        var index := lastApplied;
        var entry := log.Fetch(index);
        if entry == None {
          return None;
        }
        return Some(ApplyMessage(index, entry.value.command));
      }
      return None;
    }

    method SetLastApplied(offset: nat)
      requires Valid()
      modifies this`lastApplied, this`commitIndex
      ensures Valid() && View() == RaftNode.SetLastApplied(old(View()), offset)
      ensures lastApplied == offset && commitIndex == if old(commitIndex) < offset then offset else old(commitIndex)
    {
      lastApplied := offset;
      if commitIndex < lastApplied {
        commitIndex := lastApplied;
      }
    }
  }
}
