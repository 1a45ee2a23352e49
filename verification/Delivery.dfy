/** From the Raft log to the WAL: what a broker's WAL holds, at any time, of what the cluster committed. */
module Delivery {
  import opened RaftTypes
  import opened RaftNode
  import opened Records
  import opened Cluster
  import opened ClusterInvariant
  import opened ClusterSafety
  import opened RaftHistory
  import opened RaftMoves

  /** The record a command stands for is one the store accepts. */
  predicate CommandFits(c: Config, command: Bytes) {
    Fits(c.decode(command))
  }

  // ---------------------------------------------------------------- the pipeline of one node

  /** The WAL holds the decoded commands of the log's entries from index 1 on; the messages in flight come next. */
  ghost predicate Piped(c: Config, p: Process) {
    && p.raft.lastApplied == |p.wal| + InFlight(p) < |p.raft.log|
    && (forall k | 0 <= k < |p.wal| :: p.wal[k] == c.decode(p.raft.log[k + 1].command))
    && (p.received.Some? ==> p.received.value == ApplyMessage(|p.wal| + 1, p.raft.log[|p.wal| + 1].command))
    && (p.sending.Some? ==> p.sending.value == ApplyMessage(p.raft.lastApplied, p.raft.log[p.raft.lastApplied].command))
  }

  /** In this step n's applyLoop hands the WAL a record that the store refuses, and drops it. */
  ghost predicate Drops(c: Config, s: State, e: Event, n: NodeId) {
    e == AppendToWal(n) && n in s.procs && s.procs[n].received.Some? && !CommandFits(c, s.procs[n].received.value.command)
  }

  predicate Applies(e: Event, n: NodeId) {
    e == SendApply(n) || e == ReceiveApply(n) || e == AppendToWal(n)
  }

  lemma PipedSameLog(c: Config, p: Process, p': Process)
    requires Piped(c, p) && Agree(p'.raft.log, p.raft.log, p.raft.lastApplied + 1)
    requires p'.raft.lastApplied == p.raft.lastApplied
    requires p'.wal == p.wal && p'.sending == p.sending && p'.received == p.received
    ensures Piped(c, p')
  {
  }

  /** Every step keeps the pipeline in order, except one that drops a record, which never does. */
  lemma StepPiped(c: Config, s: State, e: Event, n: NodeId)
    requires Enabled(c, s, e) && n in s.procs && Piped(c, s.procs[n])
    requires 0 <= s.procs[n].raft.lastApplied <= s.procs[n].raft.commitIndex
    requires n in Next(c, s, e).procs
    requires Agree(Next(c, s, e).procs[n].raft.log, s.procs[n].raft.log, s.procs[n].raft.commitIndex + 1)
    ensures Piped(c, Next(c, s, e).procs[n]) <==> !Drops(c, s, e, n)
  {
    hide Piped, Enabled, Next, CommandFits;
    if Applies(e, n) {
      ApplyPiped(c, s, e, n);
    } else if Restarts(e, n) {
      RestartPiped(c, s, e, n);
    } else {
      PipeIdle(c, s, e, n);
      AgreeLess(Next(c, s, e).procs[n].raft.log, s.procs[n].raft.log, s.procs[n].raft.commitIndex, s.procs[n].raft.lastApplied);
      PipedSameLog(c, s.procs[n], Next(c, s, e).procs[n]);
    }
  }

  lemma AgreeLess(a: Log, b: Log, k: int, j: int)
    requires -1 <= j <= k && Agree(a, b, k + 1)
    ensures Agree(a, b, j + 1)
  {
  }

  lemma ApplyPiped(c: Config, s: State, e: Event, n: NodeId)
    requires Enabled(c, s, e) && n in s.procs && Piped(c, s.procs[n]) && Applies(e, n)
    ensures n in Next(c, s, e).procs && (Piped(c, Next(c, s, e).procs[n]) <==> !Drops(c, s, e, n))
  {
  }

  lemma RestartPiped(c: Config, s: State, e: Event, n: NodeId)
    requires Enabled(c, s, e) && n in s.procs && Piped(c, s.procs[n]) && Restarts(e, n)
    requires s.procs[n].raft.lastApplied <= s.procs[n].raft.commitIndex && n in Next(c, s, e).procs
    requires Agree(Next(c, s, e).procs[n].raft.log, s.procs[n].raft.log, s.procs[n].raft.commitIndex + 1)
    ensures Piped(c, Next(c, s, e).procs[n])
  {
    hide MergeUpTo, Enabled, Next;
    var p, p' := s.procs[n], Next(c, s, e).procs[n];
    RestartShape(c, s, e, n);
    var offset := |p'.wal|;
    forall k | 0 <= k < offset ensures p'.wal[k] == c.decode(p'.raft.log[k + 1].command) {
      assert p'.wal[k] == p.wal[k] && p'.raft.log[k + 1] == p.raft.log[k + 1];
    }
  }

  lemma RestartShape(c: Config, s: State, e: Event, n: NodeId)
    requires Enabled(c, s, e) && n in s.procs && Restarts(e, n) && n in Next(c, s, e).procs
    ensures var p, p' := s.procs[n], Next(c, s, e).procs[n];
            p'.wal <= p.wal && p'.raft.lastApplied == |p'.wal| && p'.sending == None && p'.received == None
  {
    hide MergeUpTo;
  }

  /** Steps that neither apply nor restart leave the pipeline alone. */
  lemma PipeIdle(c: Config, s: State, e: Event, n: NodeId)
    requires Enabled(c, s, e) && n in s.procs && n in Next(c, s, e).procs && !Restarts(e, n) && !Applies(e, n)
    ensures var p, p' := s.procs[n], Next(c, s, e).procs[n];
            p'.raft.lastApplied == p.raft.lastApplied && p'.wal == p.wal && p'.sending == p.sending && p'.received == p.received
  {
    hide MergeUpTo, CommitFrom, Applied;
  }

  // ---------------------------------------------------------------- over a run

  /** n's applyLoop dropped nothing before state i. */
  ghost predicate NothingDropped(c: Config, run: Run, i: nat, n: NodeId) {
    forall j | 0 <= j < i && j < |run.states| && j < |run.events| :: !Drops(c, run.states[j], run.events[j], n)
  }

  ghost predicate PipedAt(c: Config, run: Run, j: nat, n: NodeId) {
    InRun(run, j, n) && Piped(c, run.states[j].procs[n])
  }

  /**
   The pipeline of a node is in order in every state through i if and only if its applyLoop dropped no record before:
   one the store refuses puts all that follow out of step, and nothing else does, restarts included.
   */
  lemma {:induction false} InOrderIffNothingDropped(c: Config, run: Run, i: nat, n: NodeId)
    requires IsRun(c, run) && Guarded(run) && InRun(run, i, n)
    ensures (forall j: nat | j <= i :: PipedAt(c, run, j, n)) <==> NothingDropped(c, run, i, n)
  {
    hide IsRun, Guarded, Explains;
    var hs := Histories(c, run);
    InOrderSince(c, run, hs, i, n);
  }

  lemma {:induction false} InOrderSince(c: Config, run: Run, hs: seq<History>, i: nat, n: NodeId)
    requires IsRun(c, run) && Explains(c, run, hs) && InRun(run, i, n)
    ensures (forall j: nat | j <= i :: PipedAt(c, run, j, n)) <==> NothingDropped(c, run, i, n)
    decreases i
  {
    hide Inv, Extends, Enabled, Next, Piped, Drops, Init;
    if i == 0 {
      assert Piped(c, Init(c).procs[n]) by { InitPiped(c, n); }
    } else {
      assert StepOk(c, run, i - 1);
      var s, e := run.states[i - 1], run.events[i - 1];
      assert n in s.procs by { SameNodes(c, s, e); }
      InOrderSince(c, run, hs, i - 1, n);
      if PipedAt(c, run, i - 1, n) {
        ExtendsSelf(hs[i - 1]);
        PlacedIn(c, s, hs[i - 1], hs[i - 1], n);
        CommittedSurvives(c, s, hs[i - 1], e, hs[i], n, s.procs[n].raft.commitIndex);
        StepPiped(c, s, e, n);
        assert PipedAt(c, run, i, n) <==> !Drops(c, s, e, n);
      }
      assert NothingDropped(c, run, i, n) <==> NothingDropped(c, run, i - 1, n) && !Drops(c, s, e, n);
    }
  }

  lemma InitPiped(c: Config, n: NodeId)
    requires n in Init(c).procs
    ensures Piped(c, Init(c).procs[n])
  {
  }

  /**
   End to end: as long as nothing was dropped, WAL offset k holds exactly the decoded command of Raft index k + 1, which
   is committed, for all records the WAL has, with none skipped or repeated; and the applied index is ahead of the WAL
   by what is in flight.
   */
  lemma EndToEnd(c: Config, run: Run, i: nat, n: NodeId)
    requires IsRun(c, run) && Guarded(run) && InRun(run, i, n) && NothingDropped(c, run, i, n)
    ensures var p := run.states[i].procs[n];
            && 0 <= p.raft.lastApplied - |p.wal| <= 2
            && |p.wal| <= p.raft.commitIndex < |p.raft.log|
            && p.wal == seq(|p.wal|, k requires 0 <= k < |p.wal| && k + 1 < |p.raft.log| => c.decode(p.raft.log[k + 1].command))
  {
    hide Inv, Extends, IsRun, Guarded, NothingDropped, LogOk, Committed;
    InOrderIffNothingDropped(c, run, i, n);
    assert PipedAt(c, run, i, n);
    var hs := Histories(c, run);
    ExtendsSelf(hs[i]);
    PlacedIn(c, run.states[i], hs[i], hs[i], n);
  }

  /** The WALs of two brokers that dropped nothing, each at its own time, are prefixes of one another. */
  lemma WalsAgree(c: Config, run: Run, i: nat, a: NodeId, j: nat, b: NodeId)
    requires IsRun(c, run) && Guarded(run) && InRun(run, i, a) && InRun(run, j, b)
    requires NothingDropped(c, run, i, a) && NothingDropped(c, run, j, b)
    ensures var v, w := run.states[i].procs[a].wal, run.states[j].procs[b].wal; v <= w || w <= v
  {
    hide IsRun, Guarded, NothingDropped;
    var v, w := run.states[i].procs[a].wal, run.states[j].procs[b].wal;
    EndToEnd(c, run, i, a);
    EndToEnd(c, run, j, b);
    forall k | 0 <= k < |v| && k < |w| ensures v[k] == w[k] {
      StateMachineSafety(c, run, i, a, j, b, k + 1);
    }
  }

  // ---------------------------------------------------------------- what producers can do about it

  /** No leader takes in a record the store would refuse. */
  ghost predicate Sized(c: Config, run: Run) {
    forall i | 0 <= i < |run.events| && i < |run.states| :: SizedStep(c, run.states[i], run.events[i])
  }

  ghost predicate SizedStep(c: Config, s: State, e: Event) {
    e.Propose? && e.node in s.procs && s.procs[e.node].raft.role == Leader ==> CommandFits(c, e.command)
  }

  ghost predicate EntriesFit(c: Config, l: Log, from: nat) {
    forall k | from <= k < |l| :: CommandFits(c, l[k].command)
  }

  ghost predicate StateFits(c: Config, s: State) {
    && (forall n | n in s.procs :: EntriesFit(c, s.procs[n].raft.log, 1))
    && (forall m | m in s.net && m.AppendRequest? :: EntriesFit(c, m.body.entries, 0))
  }

  lemma StepFits(c: Config, s: State, e: Event)
    requires StateFits(c, s) && Enabled(c, s, e) && SizedStep(c, s, e)
    ensures StateFits(c, Next(c, s, e))
  {
    hide Enabled, Next, CommandFits, MergeUpTo, Accepts;
    SameNodes(c, s, e);
    forall n | n in Next(c, s, e).procs ensures EntriesFit(c, Next(c, s, e).procs[n].raft.log, 1) {
      LogSteps(c, s, e, n);
      if m, w: nat :| WritesFrom(s, m, n, w, Next(c, s, e).procs[n].raft.log) {
        MergeFits(c, s.procs[n].raft, m.term, m.body, w);
      }
    }
    forall m | m in Next(c, s, e).net && m.AppendRequest? ensures EntriesFit(c, m.body.entries, 0) {
      NewRequests(c, s, e, m);
    }
  }

  lemma MergeFits(c: Config, r: RaftState, term: nat, b: AppendBody, w: nat)
    requires Accepts(r, term, b.prev, b.prevTerm) && w <= |b.entries|
    requires EntriesFit(c, r.log, 1) && EntriesFit(c, b.entries, 0)
    ensures EntriesFit(c, MergeUpTo(r.log, b.prev + 1, b.entries, w), 1)
  {
  }

  /** The entries of a request not sent before are some of its sender's, past the dummy. */
  lemma NewRequests(c: Config, s: State, e: Event, m: Message)
    requires Enabled(c, s, e) && m in Next(c, s, e).net && m.AppendRequest?
    ensures m in s.net || exists n, k: int :: n in s.procs && 1 <= k <= |s.procs[n].raft.log| && m.body.entries == s.procs[n].raft.log[k..]
  {
    hide MergeUpTo, CommitFrom, Applied, OnAppendRequest;
    if m !in s.net {
      assert e.SendAppend?;
      var r := s.procs[e.node].raft;
      assert m.body.entries == r.log[Lookup(r.nextIndex, e.peer)..];
    }
  }

  lemma {:induction false} RunFits(c: Config, run: Run, i: nat)
    requires IsRun(c, run) && Sized(c, run) && i < |run.states|
    ensures StateFits(c, run.states[i])
  {
    hide Enabled, Next, StateFits, SizedStep, Init;
    if i == 0 {
      assert StateFits(c, Init(c)) by { InitFits(c); }
    } else {
      RunFits(c, run, i - 1);
      assert StepOk(c, run, i - 1);
      StepFits(c, run.states[i - 1], run.events[i - 1]);
    }
  }

  lemma InitFits(c: Config)
    ensures StateFits(c, Init(c))
  {
  }

  /** If no leader ever takes in a record that does not fit, nothing is ever dropped. */
  lemma {:induction false} SizedDropsNothing(c: Config, run: Run, i: nat, n: NodeId)
    requires IsRun(c, run) && Guarded(run) && Sized(c, run) && InRun(run, i, n)
    ensures NothingDropped(c, run, i, n)
  {
    hide IsRun, Guarded, Sized, Piped, StateFits, Drops, CommandFits;
    if i > 0 {
      NodesStay(c, run, i, n);
      SizedDropsNothing(c, run, i - 1, n);
      InOrderIffNothingDropped(c, run, i - 1, n);
      assert PipedAt(c, run, i - 1, n);
      RunFits(c, run, i - 1);
      NotDropped(c, run.states[i - 1], run.events[i - 1], n);
    }
  }

  lemma NodesStay(c: Config, run: Run, i: nat, n: NodeId)
    requires IsRun(c, run) && InRun(run, i, n) && i > 0
    ensures InRun(run, i - 1, n) && |run.states| == |run.events| + 1
  {
    assert StepOk(c, run, i - 1);
    hide Enabled, Next;
    SameNodes(c, run.states[i - 1], run.events[i - 1]);
  }

  lemma NotDropped(c: Config, s: State, e: Event, n: NodeId)
    requires StateFits(c, s) && n in s.procs && Piped(c, s.procs[n])
    ensures !Drops(c, s, e, n)
  {
    hide CommandFits;
  }

  // ---------------------------------------------------------------- records that do not fit

  /** The WAL after applyLoop handled these messages. */
  function AppliedAll(decode: Bytes -> Record, wal: seq<Record>, ms: seq<ApplyMessage>): seq<Record> {
    if ms == [] then wal else Applied(decode, AppliedAll(decode, wal, ms[..|ms| - 1]), ms[|ms| - 1])
  }

  lemma {:induction false} AppliedAtMost(decode: Bytes -> Record, wal: seq<Record>, ms: seq<ApplyMessage>)
    ensures |AppliedAll(decode, wal, ms)| <= |wal| + |ms|
  {
    if ms != [] { AppliedAtMost(decode, wal, ms[..|ms| - 1]); }
  }

  /**
   Applying the entries that follow those in the WAL keeps offsets in step with indices if and only if every record
   fits. One that is too long is committed by Raft and then dropped, and all later offsets are off by one.
   */
  lemma {:induction false} InStepIffSized(decode: Bytes -> Record, wal: seq<Record>, ms: seq<ApplyMessage>)
    requires forall k | 0 <= k < |ms| :: ms[k].index == |wal| + 1 + k
    ensures (forall k | 0 <= k < |ms| :: Fits(decode(ms[k].command)))
            <==> AppliedAll(decode, wal, ms) == wal + seq(|ms|, k requires 0 <= k < |ms| => decode(ms[k].command))
  {
    if ms != [] {
      var n := |ms| - 1;
      var front := ms[..n];
      InStepIffSized(decode, wal, front);
      AppliedAtMost(decode, wal, front);
      var all := wal + seq(|ms|, k requires 0 <= k < |ms| => decode(ms[k].command));
      assert all == wal + seq(n, k requires 0 <= k < n => decode(front[k].command)) + [decode(ms[n].command)];
      if forall k | 0 <= k < |ms| :: Fits(decode(ms[k].command)) {
        forall k | 0 <= k < n ensures Fits(decode(front[k].command)) { assert front[k] == ms[k]; }
      } else if Fits(decode(ms[n].command)) {
        var bad :| 0 <= bad < |ms| && !Fits(decode(ms[bad].command));
        assert front[bad] == ms[bad];
        var before := AppliedAll(decode, wal, front);
        assert (before + [decode(ms[n].command)])[..|before|] == before;
      }
    }
  }
}
