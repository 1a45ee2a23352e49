/**
 State Machine Safety needs exactly the two checks that replicateToPeer lacks: that a leader sends in the term in which
 it leads, and that it handles only replies to what it sent in that term. With both, every run is safe. For each of
 them there is a run that keeps to the other, takes only steps the program takes, and ends with two nodes that
 committed different entries at one index.
 */
module WithoutTermGuard {
  import opened RaftTypes
  import opened RaftNode
  import opened Records
  import opened Cluster
  import opened ClusterSafety
  import opened Scenarios

  /** Two nodes that both committed index k but hold different entries there. */
  ghost predicate Disagree(s: State, a: NodeId, b: NodeId, k: nat) {
    && a in s.procs && b in s.procs
    && k <= s.procs[a].raft.commitIndex && k <= s.procs[b].raft.commitIndex
    && k < |s.procs[a].raft.log| && k < |s.procs[b].raft.log|
    && s.procs[a].raft.log[k] != s.procs[b].raft.log[k]
  }

  ghost predicate Safe(g: Checks) {
    forall c, s, a, b, k: nat :: Reachable(c, g, s) ==> !Disagree(s, a, b, k)
  }

  /** Runs with these checks are safe if and only if both checks are among them. */
  lemma ExactlyBothChecks(g: Checks)
    ensures Safe(g) <==> g.send && g.reply
  {
    if g.send && g.reply {
      forall c, s, a, b, k: nat | Reachable(c, g, s) ensures !Disagree(s, a, b, k) {
        CheckedSafe(c, g, s, a, b, k);
      }
    } else {
      hide Disagree;
      var c, s, a, b, k := Unsafe(g);
    }
  }

  lemma CheckedSafe(c: Config, g: Checks, s: State, a: NodeId, b: NodeId, k: nat)
    requires g.send && g.reply && Reachable(c, g, s)
    ensures !Disagree(s, a, b, k)
  {
    hide StepOk, Init;
    var run :| Ends(c, g, run, s);
    assert Guarded(run) by {
      forall i | 0 <= i < |run.events| ensures TermGuard(run.states[i], run.events[i]) {
        assert Allowed(g, run.states[i], run.events[i]);
      }
    }
    hide Guarded, Checked;
    if a in s.procs && b in s.procs && k <= s.procs[a].raft.commitIndex && k <= s.procs[b].raft.commitIndex {
      StateMachineSafety(c, run, |run.events|, a, |run.events|, b, k);
    }
  }

  lemma Unsafe(g: Checks) returns (c: Config, s: State, a: NodeId, b: NodeId, k: nat)
    requires !g.send || !g.reply
    ensures Reachable(c, g, s) && Disagree(s, a, b, k)
  {
    hide Reachable, Disagree;
    var decode: Bytes -> Record := _ => Record([], [], 0, 0);
    if !g.send {
      c := Config({"a", "b", "d", "e", "f"}, decode);
      FiveNames(c);
      a, b, k := "a", "d", 1;
      s := UnsafeWithSendUnguarded(c, Checks(false, true), "a", "b", "d", "e", "f");
      FewerChecks(c, Checks(false, true), g, s);
    } else {
      c := Config({"a", "x", "y"}, decode);
      ThreeNames(c);
      a, b, k := "a", "x", 2;
      s := UnsafeWithReplyUnguarded(c, Checks(true, false), "a", "x", "y");
      FewerChecks(c, Checks(true, false), g, s);
    }
  }

  lemma FewerChecks(c: Config, g: Checks, h: Checks, s: State)
    requires Reachable(c, g, s) && (h.send ==> g.send) && (h.reply ==> g.reply)
    ensures Reachable(c, h, s)
  {
    hide IsRun, SendGuard, ReplyGuard;
    var run :| Ends(c, g, run, s);
    forall i | 0 <= i < |run.events| ensures Allowed(h, run.states[i], run.events[i]) {
      assert Allowed(g, run.states[i], run.events[i]);
    }
    assert Ends(c, h, run, s);
  }

  // ---------------------------------------------------------------- a leader that sends in an old term

  ghost predicate Five(c: Config, a: NodeId, b: NodeId, d: NodeId, e: NodeId, f: NodeId) {
    && c.nodes == {a, b, d, e, f} && |c.nodes| == 5
    && a != b && a != d && a != e && a != f && b != d && b != e && b != f && d != e && d != f && e != f
  }

  lemma FiveNames(c: Config)
    requires c.nodes == {"a", "b", "d", "e", "f"}
    ensures Five(c, "a", "b", "d", "e", "f")
  {
    assert "a"[0] != "b"[0] && "a"[0] != "d"[0] && "a"[0] != "e"[0] && "a"[0] != "f"[0] && "b"[0] != "d"[0];
    assert "b"[0] != "e"[0] && "b"[0] != "f"[0] && "d"[0] != "e"[0] && "d"[0] != "f"[0] && "e"[0] != "f"[0];
  }

  const X := LogEntry(2, [1])
  const Y := LogEntry(3, [2])

  /** The request by which b, as leader of term 2, sends its entry to d; it is long under way. */
  ghost predicate Late(s: State, b: NodeId, d: NodeId, m: Message) {
    && m in s.net && m.AppendRequest? && m.from == b && m.to == d && m.epoch == 0 && m.term == 2
    && m.body.prev == 0 && m.body.prevTerm == 0 && m.body.entries == [X]
  }

  /** a leads term 1 with the votes of e and f. */
  lemma FirstLeader(c: Config, g: Checks, a: NodeId, b: NodeId, d: NodeId, e: NodeId, f: NodeId) returns (t: State)
    requires Five(c, a, b, d, e, f)
    ensures Live(c, g, t) && Up(t, a, 1, [DUMMY]) && 1 in t.procs[a].savedTerms
    ensures Up(t, b, 0, [DUMMY]) && Up(t, d, 0, [DUMMY]) && Up(t, e, 1, [DUMMY]) && Up(t, f, 1, [DUMMY])
  {
    hide Reachable, New;
    var s0 := Start(c, g);
    var s1 := ElectOfFive(c, g, s0, a, e, f);
    hide UpToDate, LastTerm;
    assert Up(s1, b, 0, [DUMMY]) && Up(s1, d, 0, [DUMMY]);
    t := Beat(c, g, s1, a);
  }

  /** b leads term 2 with the votes of a and e. */
  lemma Deposed(c: Config, g: Checks, s: State, a: NodeId, b: NodeId, e: NodeId) returns (t: State)
    requires Live(c, g, s) && |c.nodes| == 5 && {a, b, e} <= c.nodes && a != b && a != e && b != e
    requires Up(s, a, 1, [DUMMY]) && Up(s, b, 0, [DUMMY]) && Up(s, e, 1, [DUMMY])
    ensures Live(c, g, t) && Only(s, t, {a, b, e}) && Elected(c, t, b, 2, [DUMMY])
    ensures Up(t, a, 2, [DUMMY]) && Up(t, e, 2, [DUMMY])
  {
    hide Reachable, New, Won;
    var s1 := Timeout(c, g, s, b);
    assert s1.procs[a] == s.procs[a] && s1.procs[e] == s.procs[e];
    t := ElectOfFive(c, g, s1, b, a, e);
  }

  /** The new leader b sends its first entry to d, but the message takes its time. */
  lemma SendLate(c: Config, g: Checks, s: State, b: NodeId, d: NodeId) returns (t: State, m: Message)
    requires Live(c, g, s) && b in c.nodes && d in c.Peers(b) && Elected(c, s, b, 2, [DUMMY])
    ensures Live(c, g, t) && Only(s, t, {b}) && Late(t, b, d, m)
  {
    hide Reachable, New;
    var s1 := Take(c, g, s, b, 2, [DUMMY], X);
    var s2 := Beat(c, g, s1, b);
    assert [DUMMY] + [X] == [DUMMY, X] && [DUMMY, X][1..] == [X];
    t, m := Send(c, g, s2, b, d, 2);
  }

  /** a leads once more, in term 3. */
  lemma Again(c: Config, g: Checks, s: State, a: NodeId, d: NodeId, e: NodeId, f: NodeId) returns (t: State)
    requires Live(c, g, s) && |c.nodes| == 5 && {a, d, e, f} <= c.nodes && d != a && a != e && a != f && e != f
    requires Up(s, a, 2, [DUMMY]) && Up(s, e, 2, [DUMMY]) && Up(s, f, 1, [DUMMY])
    ensures Live(c, g, t) && Only(s, t, {a, e, f}) && Leads(t, a, 3, [DUMMY, Y])
    ensures Up(t, e, 3, [DUMMY]) && Up(t, f, 3, [DUMMY])
    ensures var next := t.procs[a].raft.nextIndex; Lookup(next, d) == Lookup(next, e) == Lookup(next, f) == 1
  {
    hide Reachable, New;
    var s1 := ElectOfFive(c, g, s, a, e, f);
    assert {d, e, f} <= c.Peers(a) && [DUMMY] + [Y] == [DUMMY, Y];
    t := Take(c, g, s1, a, 3, [DUMMY], Y);
    assert t.procs[e] == s1.procs[e] && t.procs[f] == s1.procs[f];
  }

  /** And commits an entry with e and f. */
  lemma Commits(c: Config, g: Checks, s: State, a: NodeId, d: NodeId, e: NodeId, f: NodeId) returns (t: State)
    requires Live(c, g, s) && |c.nodes| == 5 && {a, d, e, f} <= c.nodes && d != e && d != f && a != e && a != f && e != f
    requires Leads(s, a, 3, [DUMMY, Y]) && Up(s, e, 3, [DUMMY]) && Up(s, f, 3, [DUMMY])
    requires var next := s.procs[a].raft.nextIndex; Lookup(next, d) == Lookup(next, e) == Lookup(next, f) == 1
    ensures Live(c, g, t) && Only(s, t, {a, e, f}) && Leads(t, a, 3, [DUMMY, Y])
    ensures t.procs[a].raft.commitIndex >= 1 && Lookup(t.procs[a].raft.nextIndex, d) == 1
  {
    hide Reachable, New;
    var s1 := Replicate(c, g, s, a, e, 3, 0, [DUMMY, Y], {});
    var r := s1.procs[a].raft;
    assert s1.procs[f] == s.procs[f] && Lookup(r.matchIndex, e) == 1 && Lookup(r.nextIndex, f) == Lookup(r.nextIndex, d) == 1;
    t := Replicate(c, g, s1, a, f, 3, 0, [DUMMY, Y], {e});
  }

  /**
   A heartbeat that a started in term 1 only now sends to d: the new log goes out under the old term, and d, which has
   heard of no term yet, takes it in and commits. The late request of term 2 then makes d drop what it committed.
   */
  lemma UnsafeWithSendUnguarded(c: Config, g: Checks, a: NodeId, b: NodeId, d: NodeId, e: NodeId, f: NodeId) returns (t: State)
    requires Five(c, a, b, d, e, f) && !g.send
    ensures Reachable(c, g, t) && Disagree(t, a, d, 1)
  {
    hide Reachable, New, Won;
    var s1 := FirstLeader(c, g, a, b, d, e, f);
    var s2 := Deposed(c, g, s1, a, b, e);
    assert s2.procs[d] == s1.procs[d] && s2.procs[f] == s1.procs[f];
    var s3, m := SendLate(c, g, s2, b, d);
    t := Reelected(c, g, s3, a, b, d, e, f, m);
  }

  lemma Reelected(c: Config, g: Checks, s: State, a: NodeId, b: NodeId, d: NodeId, e: NodeId, f: NodeId, m: Message)
      returns (t: State)
    requires Five(c, a, b, d, e, f) && !g.send && Live(c, g, s) && Late(s, b, d, m) && 1 in s.procs[a].savedTerms
    requires Up(s, a, 2, [DUMMY]) && Up(s, d, 0, [DUMMY]) && Up(s, e, 2, [DUMMY]) && Up(s, f, 1, [DUMMY])
    ensures Reachable(c, g, t) && Disagree(t, a, d, 1)
  {
    hide Reachable, New;
    var s1 := Again(c, g, s, a, d, e, f);
    var s2 := Commits(c, g, s1, a, d, e, f);
    assert s2.procs[d] == s.procs[d];
    var s3 := StaleSend(c, g, s2, a, d);
    t := Overwrite(c, g, s3, b, d, m);
  }

  lemma StaleSend(c: Config, g: Checks, s: State, a: NodeId, d: NodeId) returns (t: State)
    requires Live(c, g, s) && !g.send && a in c.nodes && d in c.Peers(a)
    requires Leads(s, a, 3, [DUMMY, Y]) && 1 in s.procs[a].savedTerms && Up(s, d, 0, [DUMMY])
    requires s.procs[a].raft.commitIndex >= 1 && Lookup(s.procs[a].raft.nextIndex, d) == 1
    ensures Live(c, g, t) && Only(s, t, {d}) && Up(t, d, 1, [DUMMY, Y]) && t.procs[d].raft.commitIndex >= 1
  {
    hide Reachable, New;
    var s1, m := Send(c, g, s, a, d, 1);
    TakesAll(s1.procs[d].raft, m, 0, [DUMMY, Y]);
    hide Handled;
    t := Deliver(c, g, s1, m);
  }

  lemma Overwrite(c: Config, g: Checks, s: State, b: NodeId, d: NodeId, m: Message) returns (t: State)
    requires Live(c, g, s) && d in c.nodes && Late(s, b, d, m) && Up(s, d, 1, [DUMMY, Y]) && s.procs[d].raft.commitIndex >= 1
    ensures Live(c, g, t) && Only(s, t, {d}) && Up(t, d, 2, [DUMMY, X]) && t.procs[d].raft.commitIndex >= 1
  {
    hide Reachable, New;
    assert [DUMMY, X][1..] == [X];
    TakesAll(s.procs[d].raft, m, 0, [DUMMY, X]);
    hide Handled;
    t := Deliver(c, g, s, m);
  }

  // ---------------------------------------------------------------- a leader that counts an old acknowledgement

  lemma ThreeNames(c: Config)
    requires c.nodes == {"a", "x", "y"}
    ensures Three(c, "a", "x", "y")
  {
    assert "a"[0] != "x"[0] && "a"[0] != "y"[0] && "x"[0] != "y"[0];
  }

  const V := LogEntry(1, [0])
  const W := LogEntry(5, [3])
  const Z := LogEntry(6, [4])

  /** The acknowledgement that y held two entries of a, leader of term 3; it is long under way. */
  function Acknowledged(a: NodeId, y: NodeId): Message {
    AppendReply(y, a, 0, 3, 0, 2, 3, true)
  }

  /** a leads term 1 and x term 2; neither tells the others what it took in. */
  lemma TwoLeaders(c: Config, g: Checks, a: NodeId, x: NodeId, y: NodeId) returns (t: State)
    requires Three(c, a, x, y)
    ensures Live(c, g, t) && Up(t, a, 1, [DUMMY, V, V]) && Up(t, x, 2, [DUMMY, X]) && Up(t, y, 2, [DUMMY])
  {
    hide Reachable, New;
    var s1 := FirstTerm(c, g, a, x, y, V, V);
    var s2 := ElectOfThree(c, g, s1, x, y);
    assert [DUMMY] + [X] == [DUMMY, X];
    t := Take(c, g, s2, x, 2, [DUMMY], X);
  }

  /** a leads term 3 with the vote of y, and y takes in its log, but the leader hears of it much later. */
  lemma LateReply(c: Config, g: Checks, s: State, a: NodeId, x: NodeId, y: NodeId) returns (t: State)
    requires Three(c, a, x, y) && Live(c, g, s) && Up(s, a, 1, [DUMMY, V, V]) && Up(s, y, 2, [DUMMY])
    ensures Live(c, g, t) && Only(s, t, {a, y}) && Up(t, a, 3, [DUMMY, V, V]) && Up(t, y, 3, [DUMMY, V, V])
    ensures Acknowledged(a, y) in t.net
  {
    hide Reachable, New;
    var log := [DUMMY, V, V];
    var s1 := Timeout(c, g, s, a);
    var s2 := ElectOfThree(c, g, s1, a, y);
    var s3 := Rejection(c, g, s2, a, y, 3, log);
    var s4 := Rejection(c, g, s3, a, y, 3, log);
    t := Unheard(c, g, s4, a, y);
  }

  lemma Unheard(c: Config, g: Checks, s: State, a: NodeId, y: NodeId) returns (t: State)
    requires Live(c, g, s) && a in c.nodes && y in c.Peers(a) && Leads(s, a, 3, [DUMMY, V, V]) && Up(s, y, 3, [DUMMY])
    requires Lookup(s.procs[a].raft.nextIndex, y) == 1
    ensures Live(c, g, t) && Only(s, t, {a, y}) && t.procs[a].raft == s.procs[a].raft && Up(t, y, 3, [DUMMY, V, V])
    ensures Acknowledged(a, y) in t.net
  {
    hide Reachable, New;
    var s1 := Beat(c, g, s, a);
    var s2, m := Send(c, g, s1, a, y, 3);
    assert [DUMMY, V, V][1..] == [V, V];
    TakesAll(s2.procs[y].raft, m, 0, [DUMMY, V, V]);
    hide Handled;
    t := Deliver(c, g, s2, m);
  }

  /** x leads term 4 with the vote of a, and a loses its entries to the one of x. */
  lemma Overruled(c: Config, g: Checks, s: State, a: NodeId, x: NodeId, y: NodeId) returns (t: State)
    requires Three(c, a, x, y) && Live(c, g, s) && Up(s, a, 3, [DUMMY, V, V]) && Up(s, x, 2, [DUMMY, X])
    ensures Live(c, g, t) && Only(s, t, {a, x}) && Up(t, a, 4, [DUMMY, X]) && Up(t, x, 4, [DUMMY, X])
  {
    hide Reachable, New;
    var log := [DUMMY, X];
    var s1 := Timeout(c, g, s, x);
    var s2 := ElectOfThree(c, g, s1, x, a);
    var s3 := Rejection(c, g, s2, x, a, 4, log);
    t := Replicate(c, g, s3, x, a, 4, 0, log, {});
  }

  /** a leads term 5 with the vote of x. The acknowledgement from term 3 makes it commit an entry that no one else holds. */
  lemma FalseCommit(c: Config, g: Checks, s: State, a: NodeId, x: NodeId, y: NodeId) returns (t: State)
    requires Three(c, a, x, y) && Live(c, g, s) && !g.reply && Acknowledged(a, y) in s.net
    requires Up(s, a, 4, [DUMMY, X]) && Up(s, x, 4, [DUMMY, X])
    ensures Live(c, g, t) && Only(s, t, {a, x}) && Up(t, x, 5, [DUMMY, X])
    ensures Up(t, a, 5, [DUMMY, X, W]) && t.procs[a].raft.commitIndex >= 2
  {
    hide Reachable, New, OnAppendReply;
    var s1 := ElectOfThree(c, g, s, a, x);
    var s2 := Take(c, g, s1, a, 5, [DUMMY, X], W);
    assert [DUMMY, X] + [W] == [DUMMY, X, W] && c.nodes == c.Peers(a) + {a};
    AckCommits(s2.procs[a].raft, c.Peers(a), {}, y, 3, 0, 2, 3, 2);
    AckedAll(s2.procs[a].raft, c.Peers(a), y, 3, 0, 2, 3);
    t := Answer(c, g, s2, Acknowledged(a, y));
  }

  /** x leads term 6 with the vote of y, and commits another entry with it. */
  lemma OtherCommit(c: Config, g: Checks, s: State, a: NodeId, x: NodeId, y: NodeId) returns (t: State)
    requires Three(c, a, x, y) && Live(c, g, s) && Up(s, x, 5, [DUMMY, X]) && Up(s, y, 3, [DUMMY, V, V])
    ensures Live(c, g, t) && Only(s, t, {x, y})
    ensures Up(t, x, 6, [DUMMY, X, Z]) && t.procs[x].raft.commitIndex >= 2
  {
    hide Reachable, New;
    var s1 := ElectOfThree(c, g, s, x, y);
    var s2 := Take(c, g, s1, x, 6, [DUMMY, X], Z);
    assert [DUMMY, X] + [Z] == [DUMMY, X, Z];
    t := Overwrites(c, g, s2, x, y);
  }

  /** y refuses the last entry first, then gives up its own two for those of x. */
  lemma Overwrites(c: Config, g: Checks, s: State, x: NodeId, y: NodeId) returns (t: State)
    requires Live(c, g, s) && |c.nodes| == 3 && x in c.nodes && y in c.Peers(x)
    requires Leads(s, x, 6, [DUMMY, X, Z]) && Lookup(s.procs[x].raft.nextIndex, y) == 2
    requires s.procs[y].raft.term <= 6 && s.procs[y].raft.log == [DUMMY, V, V]
    ensures Live(c, g, t) && Only(s, t, {x, y})
    ensures Up(t, x, 6, [DUMMY, X, Z]) && t.procs[x].raft.commitIndex >= 2
  {
    hide Reachable, New;
    var s1 := Rejection(c, g, s, x, y, 6, [DUMMY, X, Z]);
    t := Replicate(c, g, s1, x, y, 6, 0, [DUMMY, X, Z], {});
  }

  lemma UnsafeWithReplyUnguarded(c: Config, g: Checks, a: NodeId, x: NodeId, y: NodeId) returns (t: State)
    requires Three(c, a, x, y) && !g.reply
    ensures Reachable(c, g, t) && Disagree(t, a, x, 2)
  {
    hide Reachable, New;
    var s1 := TwoLeaders(c, g, a, x, y);
    var s2 := LateReply(c, g, s1, a, x, y);
    var s3 := Overruled(c, g, s2, a, x, y);
    var s4 := FalseCommit(c, g, s3, a, x, y);
    t := OtherCommit(c, g, s4, a, x, y);
  }
}
