/**
 A cluster of nodes that run raft/raft.go and apply to their WAL what it commits.

 A state holds every node's fields and every message ever sent: a message may be delivered at any later time,
 any number of times, or never. Timers fire whenever they like. A node may crash in any state, also between the
 writes of a handler: after a higher term was persisted but nothing else, or in the middle of the log writes of
 HandleAppendEntries. It comes back with what it had on disk.
 */
module Cluster {
  import opened RaftTypes
  import opened RaftNode
  import opened Records

  datatype Config = Config(nodes: set<NodeId>, decode: Bytes -> Record) {
    function Peers(n: NodeId): set<NodeId> { nodes - {n} }
  }

  datatype Message =
    | VoteRequest(from: NodeId, to: NodeId, epoch: nat, term: nat, lastIndex: int, lastTerm: nat)
    | VoteReply(from: NodeId, to: NodeId, epoch: nat, savedTerm: nat, term: nat, granted: bool)
    | AppendRequest(from: NodeId, to: NodeId, epoch: nat, term: nat, body: AppendBody)
    | AppendReply(from: NodeId, to: NodeId, epoch: nat, savedTerm: nat, prev: int, count: nat, term: nat, success: bool)

  /**
   One node. `epoch` counts its restarts: a call in flight at a restart gets no reply. `voteCalls` are the peers
   whose reply to the vote request of the present election is still awaited, `grants` those whose vote was counted.
   `savedTerms` are the terms in which this incarnation started heartbeats. `sending` is a message blocked on the
   apply channel, `received` one taken from it but not yet appended, `wal` all the records appended.
   */
  datatype Process = Process(
    raft: RaftState,
    epoch: nat,
    voteCalls: set<NodeId>,
    grants: set<NodeId>,
    savedTerms: set<nat>,
    sending: Option<ApplyMessage>,
    received: Option<ApplyMessage>,
    wal: seq<Record>)

  datatype State = State(procs: map<NodeId, Process>, net: set<Message>)

  datatype Event =
    | ElectionTimeout(node: NodeId)
    | DeliverVoteRequest(m: Message)
    | DeliverVoteReply(m: Message)
    | Heartbeat(node: NodeId)
    | SendAppend(node: NodeId, peer: NodeId, savedTerm: nat)
    | DeliverAppend(m: Message)
    | DeliverAppendReply(m: Message)
    | Propose(node: NodeId, command: Bytes)
    | SendApply(node: NodeId)
    | ReceiveApply(node: NodeId)
    | AppendToWal(node: NodeId)
    | CrashRestart(node: NodeId, offset: nat)
    | CrashOnTerm(m: Message, offset: nat)
    | CrashInAppend(m: Message, written: nat, offset: nat)

  function Init(c: Config): State {
    State(map n | n in c.nodes :: Process(Fresh(0, None, [DUMMY]), 0, {}, {}, {}, None, None, []), {})
  }

  predicate Delivered(s: State, m: Message) {
    m in s.net && m.to in s.procs
  }

  /** A reply reaches its caller only in the incarnation that made the call. */
  predicate Answered(s: State, m: Message) {
    Delivered(s, m) && s.procs[m.to].epoch == m.epoch
  }

  predicate Enabled(c: Config, s: State, e: Event) {
    match e
    case ElectionTimeout(n) => n in s.procs
    case DeliverVoteRequest(m) => Delivered(s, m) && m.VoteRequest?
    case DeliverVoteReply(m) =>
      m.VoteReply? && Answered(s, m) && (m.savedTerm == s.procs[m.to].raft.term ==> m.from in s.procs[m.to].voteCalls)
    case Heartbeat(n) => n in s.procs && s.procs[n].raft.role == Leader
    case SendAppend(n, p, t) => n in s.procs && p in c.Peers(n) && t in s.procs[n].savedTerms
    case DeliverAppend(m) => Delivered(s, m) && m.AppendRequest?
    case DeliverAppendReply(m) => m.AppendReply? && Answered(s, m)
    case Propose(n, _) => n in s.procs
    case SendApply(n) => n in s.procs && CanApply(s.procs[n].raft) && s.procs[n].sending == None
    case ReceiveApply(n) => n in s.procs && s.procs[n].sending.Some? && s.procs[n].received == None
    case AppendToWal(n) => n in s.procs && s.procs[n].received.Some?
    case CrashRestart(n, offset) => n in s.procs && offset <= |s.procs[n].wal|
    case CrashOnTerm(m, offset) =>
      && Delivered(s, m) && (m.VoteRequest? || m.AppendRequest?) && offset <= |s.procs[m.to].wal|
      && m.term > s.procs[m.to].raft.term
    case CrashInAppend(m, written, offset) =>
      && Delivered(s, m) && m.AppendRequest? && offset <= |s.procs[m.to].wal|
      && Accepts(s.procs[m.to].raft, m.term, m.body.prev, m.body.prevTerm) && written <= |m.body.entries|
  }

  /** A leader sends in the term in which it leads. */
  predicate SendGuard(s: State, e: Event) {
    match e
    case SendAppend(n, _, t) => n in s.procs && s.procs[n].raft.role == Leader ==> s.procs[n].raft.term == t
    case _ => true
  }

  /** A leader handles only replies to what it sent in the term in which it leads. */
  predicate ReplyGuard(s: State, e: Event) {
    match e
    case DeliverAppendReply(m) =>
      m.AppendReply? && m.to in s.procs && s.procs[m.to].raft.role == Leader ==> s.procs[m.to].raft.term == m.savedTerm
    case _ => true
  }

  /**
   The hypothesis on replicateToPeer. The program checks that it is still leader before it uses the term that
   sendHeartBeats saved, not that it still leads in that term.
   */
  predicate TermGuard(s: State, e: Event) {
    SendGuard(s, e) && ReplyGuard(s, e)
  }

  function Reboot(p: Process, term: nat, votedFor: Option<NodeId>, log: Log, offset: nat): Process
    requires offset <= |p.wal|
  {
    Process(Restarted(term, votedFor, log, offset), p.epoch + 1, {}, {}, {}, None, None, p.wal[..offset])
  }

  function With(s: State, n: NodeId, p: Process): State {
    s.(procs := s.procs[n := p])
  }

  function Emit(s: State, ms: set<Message>): State {
    s.(net := s.net + ms)
  }

  function VoteReplied(c: Config, p: Process, m: Message): Process
    requires m.VoteReply?
  {
    var counted := p.raft.role == Candidate && p.raft.term == m.savedTerm == m.term && m.granted;
    p.(raft := OnVoteReply(p.raft, c.Peers(m.to), m.savedTerm, m.term, m.granted),
       voteCalls := if m.savedTerm == p.raft.term then p.voteCalls - {m.from} else p.voteCalls,
       grants := if counted then p.grants + {m.from} else p.grants)
  }

  function Next(c: Config, s: State, e: Event): State
    requires Enabled(c, s, e)
  {
    match e
    case ElectionTimeout(n) =>
      var p := s.procs[n];
      var r := StartElection(p.raft, n);
      Emit(With(s, n, p.(raft := r, voteCalls := c.Peers(n), grants := {})),
           set q | q in c.Peers(n) :: VoteRequest(n, q, p.epoch, r.term, r.LastIndex(), LastTerm(r.log)))

    case DeliverVoteRequest(m) =>
      var p := s.procs[m.to];
      var (r, granted) := OnVoteRequest(p.raft, m.term, m.from, m.lastIndex, m.lastTerm);
      Emit(With(s, m.to, p.(raft := r)), {VoteReply(m.to, m.from, m.epoch, m.term, r.term, granted)})

    case DeliverVoteReply(m) =>
      With(s, m.to, VoteReplied(c, s.procs[m.to], m))

    case Heartbeat(n) =>
      var p := s.procs[n];
      With(s, n, p.(savedTerms := p.savedTerms + {p.raft.term}))

    case SendAppend(n, q, t) =>
      var p := s.procs[n];
      if p.raft.role != Leader then s
      else
        var body := AppendFor(p.raft, q);
        if body == None then s else Emit(s, {AppendRequest(n, q, p.epoch, t, body.value)})

    case DeliverAppend(m) =>
      var p := s.procs[m.to];
      var (r, outcome) := OnAppendRequest(p.raft, m.term, m.body.prev, m.body.prevTerm, m.body.entries, m.body.leaderCommit);
      var s' := With(s, m.to, p.(raft := r));
      if outcome == Failed then s' else
        Emit(s', {AppendReply(m.to, m.from, m.epoch, m.term, m.body.prev, |m.body.entries|, outcome.term, outcome.success)})

    case DeliverAppendReply(m) =>
      var p := s.procs[m.to];
      With(s, m.to, p.(raft := OnAppendReply(p.raft, c.Peers(m.to), m.from, m.savedTerm, m.prev, m.count, m.term, m.success)))

    case Propose(n, command) =>
      var p := s.procs[n];
      With(s, n, p.(raft := Submit(p.raft, command)))

    case SendApply(n) =>
      var p := s.procs[n];
      var (r, message) := ApplyNext(p.raft);
      With(s, n, p.(raft := r, sending := Some(message)))

    case ReceiveApply(n) =>
      var p := s.procs[n];
      With(s, n, p.(sending := None, received := p.sending))

    case AppendToWal(n) =>
      var p := s.procs[n];
      With(s, n, p.(received := None, wal := Applied(c.decode, p.wal, p.received.value)))

    case CrashRestart(n, offset) =>
      var p := s.procs[n];
      With(s, n, Reboot(p, p.raft.term, p.raft.votedFor, p.raft.log, offset))

    case CrashOnTerm(m, offset) =>
      var p := s.procs[m.to];
      With(s, m.to, Reboot(p, m.term, None, p.raft.log, offset))

    case CrashInAppend(m, written, offset) =>
      var p := s.procs[m.to];
      var r := EnterTerm(p.raft, m.term);
      With(s, m.to, Reboot(p, r.term, r.votedFor, MergeUpTo(r.log, m.body.prev + 1, m.body.entries, written), offset))
  }

  /** The WAL after applyLoop handled one message: the dummy is skipped, and so is a record the store rejects. */
  function Applied(decode: Bytes -> Record, wal: seq<Record>, m: ApplyMessage): seq<Record> {
    if m.index == 0 || !Fits(decode(m.command)) then wal else wal + [decode(m.command)]
  }

  // ---------------------------------------------------------------- runs

  datatype Run = Run(states: seq<State>, events: seq<Event>)

  ghost predicate StepOk(c: Config, run: Run, i: nat) {
    i + 1 < |run.states| && i < |run.events| ==>
      && Enabled(c, run.states[i], run.events[i])
      && run.states[i + 1] == Next(c, run.states[i], run.events[i])
  }

  ghost predicate IsRun(c: Config, run: Run) {
    && c.nodes != {}
    && |run.states| == |run.events| + 1
    && run.states[0] == Init(c)
    && (forall i: nat :: StepOk(c, run, i))
  }

  /** The hypothesis on replicateToPeer holds all along the run. */
  ghost predicate Guarded(run: Run) {
    |run.states| == |run.events| + 1
    && forall i | 0 <= i < |run.events| :: TermGuard(run.states[i], run.events[i])
  }
}
