/** What the conflict loop of HandleAppendEntries computes, apart from how it goes about it. */
module MergeProperties {
  import opened RaftTypes
  import opened RaftNode

  /** Entry i of those received for index `next` on stands against one of another term. */
  predicate Conflict(log: Log, next: nat, entries: Log, i: nat) {
    i < |entries| && next + i < |log| && log[next + i].term != entries[i].term
  }

  /** The log is kept up to the first conflict and continued with what was received from there. */
  lemma MergeAtConflict(log: Log, next: nat, entries: Log, c: nat)
    requires next <= |log| && Conflict(log, next, entries, c)
    requires forall i: nat :: i < c ==> !Conflict(log, next, entries, i)
    ensures Merge(log, next, entries) == log[..next + c] + entries[c..]
  {
    var n := Matching(log, next, entries);
    hide Matching;
    if n < |entries| && next + n < |log| {
      assert Conflict(log, next, entries, n);
    }
    assert n == c;
    assert entries[n..|entries|] == entries[c..];
  }

  /** Without a conflict the log is only extended, by what it does not reach. */
  lemma MergeWithoutConflict(log: Log, next: nat, entries: Log)
    requires next <= |log|
    requires forall i: nat :: !Conflict(log, next, entries, i)
    ensures Merge(log, next, entries) == if next + |entries| <= |log| then log else log + entries[|log| - next..]
  {
    var n := Matching(log, next, entries);
    MatchingFits(log, next, entries);
    hide Matching;
    assert !Conflict(log, next, entries, n);
    if n < |entries| {
      assert log[..next + n] == log;
      assert entries[n..|entries|] == entries[|log| - next..];
    }
  }

  /** Handling a request again changes nothing. */
  lemma MergeIdempotent(log: Log, next: nat, entries: Log)
    requires next <= |log|
    ensures var merged := Merge(log, next, entries); next <= |merged| && Merge(merged, next, entries) == merged
  {
  }

  // ---------------------------------------------------------------- requests of one leader

  /** Log matching, between a log and the log of a leader. */
  ghost predicate TermsDecide(log: Log, l: Log) {
    forall i | 0 <= i < |log| && i < |l| && log[i].term == l[i].term :: Agree(log, l, i + 1)
  }

  /** A request that the leader whose log is l may send, and a node whose log is `log` accepts. */
  ghost predicate Acceptable(log: Log, l: Log, prev: nat, entries: Log) {
    && prev < |log| && prev + 1 + |entries| <= |l|
    && log[prev].term == l[prev].term
    && entries == l[prev + 1..prev + 1 + |entries|]
  }

  /** The log, if it agrees with l up to n, and l up to n otherwise. */
  ghost function UpTo(log: Log, l: Log, n: nat): Log
    requires n <= |l|
  {
    if Agree(log, l, n) then log else l[..n]
  }

  /** The result either is the log, when it holds all that was sent, or is what the leader had when it sent. */
  lemma MergeFollowsLeader(log: Log, l: Log, prev: nat, entries: Log)
    requires TermsDecide(log, l) && Acceptable(log, l, prev, entries)
    ensures var end := prev + 1 + |entries|;
            Merge(log, prev + 1, entries) == UpTo(log, l, end)
    ensures TermsDecide(Merge(log, prev + 1, entries), l)
  {
    hide Matching, Merge;
    AgreeAsMatched(log, l, prev, entries);
    MergeIsAll(log, prev + 1, entries);
    SplicedLog(log, l, prev + 1, entries, |entries|);
  }

  lemma AgreeAsMatched(log: Log, l: Log, prev: nat, entries: Log)
    requires TermsDecide(log, l) && Acceptable(log, l, prev, entries)
    ensures var n := Matching(log, prev + 1, entries);
            Agree(log, l, prev + 1 + n) && (n < |entries| ==> !Agree(log, l, prev + 1 + |entries|))
  {
    hide Matching;
    var n := Matching(log, prev + 1, entries);
    assert Agree(log, l, prev + 1);
    if n > 0 {
      assert log[prev + 1 + (n - 1)].term == entries[n - 1].term == l[prev + n].term;
      assert Agree(log, l, prev + n + 1);
    }
    if n < |entries| && prev + 1 + n < |log| {
      assert log[prev + 1 + n] != l[prev + 1 + n];
    }
  }

  /** No request of a leader removes what agrees with its log. */
  lemma MergeKeepsAgreement(log: Log, l: Log, prev: nat, entries: Log, k: nat)
    requires TermsDecide(log, l) && Acceptable(log, l, prev, entries) && Agree(log, l, k)
    ensures Agree(Merge(log, prev + 1, entries), l, k)
  {
  }

  // ---------------------------------------------------------------- any number of them, in any order

  /** Which entries of its log a leader sends: `count` of them, after the one at `prev`. */
  datatype Part = Part(prev: nat, count: nat) {
    function End(): nat { prev + 1 + count }
  }

  predicate Sendable(l: Log, p: Part) {
    p.prev < p.End() <= |l|
  }

  /** The log after these requests of the leader whose log is l came in one after the other, rejected ones left aside. */
  function TakeAll(log: Log, l: Log, parts: seq<Part>): Log
    requires forall i | 0 <= i < |parts| :: Sendable(l, parts[i])
  {
    if parts == [] then log
    else
      var p := parts[|parts| - 1];
      var before := TakeAll(log, l, parts[..|parts| - 1]);
      assert Sendable(l, p);
      if p.prev < |before| && before[p.prev].term == l[p.prev].term then Merge(before, p.prev + 1, l[p.prev + 1..p.End()])
      else before
  }

  function Furthest(parts: seq<Part>): nat {
    if parts == [] then 0
    else
      var p, f := parts[|parts| - 1], Furthest(parts[..|parts| - 1]);
      if p.End() > f then p.End() else f
  }

  /** Whatever requests of a leader come in, accepted or not, what agreed with its log still does. */
  lemma {:induction false} NothingLost(log: Log, l: Log, parts: seq<Part>, k: nat)
    requires TermsDecide(log, l) && Agree(log, l, k)
    requires forall i | 0 <= i < |parts| :: Sendable(l, parts[i])
    ensures TermsDecide(TakeAll(log, l, parts), l) && Agree(TakeAll(log, l, parts), l, k)
  {
    hide Merge, Matching;
    if parts != [] {
      var p := parts[|parts| - 1];
      NothingLost(log, l, parts[..|parts| - 1], k);
      var before := TakeAll(log, l, parts[..|parts| - 1]);
      if p.prev < |before| && before[p.prev].term == l[p.prev].term {
        MergeFollowsLeader(before, l, p.prev, l[p.prev + 1..p.End()]);
        MergeKeepsAgreement(before, l, p.prev, l[p.prev + 1..p.End()], k);
      }
    }
  }

  /**
   Requests that a node would all accept lead to the same log in whatever order they come and however often: only the
   furthest entry sent matters.
   */
  lemma {:induction false} AnyOrder(log: Log, l: Log, parts: seq<Part>)
    requires TermsDecide(log, l)
    requires forall i | 0 <= i < |parts| ::
               Sendable(l, parts[i]) && parts[i].prev < |log| && log[parts[i].prev].term == l[parts[i].prev].term
    ensures Furthest(parts) <= |l|
    ensures TakeAll(log, l, parts) == UpTo(log, l, Furthest(parts))
  {
    hide Merge, UpTo;
    if parts == [] {
      assert UpTo(log, l, 0) == log by { NoneFurther(log, l); }
    } else {
      var front, p := parts[..|parts| - 1], parts[|parts| - 1];
      AnyOrder(log, l, front);
      NothingLost(log, l, front, p.prev + 1);
      MergeFollowsLeader(TakeAll(log, l, front), l, p.prev, l[p.prev + 1..p.End()]);
      Further(log, l, Furthest(front), p.End());
    }
  }

  lemma NoneFurther(log: Log, l: Log)
    ensures UpTo(log, l, 0) == log
  {
  }

  lemma Further(log: Log, l: Log, m: nat, n: nat)
    requires m <= |l| && n <= |l|
    ensures UpTo(UpTo(log, l, m), l, n) == UpTo(log, l, if n > m then n else m)
  {
  }
}
