/** Log entries, logs and quorums: the vocabulary of the Raft modules. */
module RaftTypes {

  type byte = x: int | 0 <= x < 256
  type Bytes = seq<byte>
  type NodeId = string

  datatype Option<+T> = None | Some(value: T)

  /** One entry of a Raft log. */
  datatype LogEntry = LogEntry(term: nat, command: Bytes)

  type Log = seq<LogEntry>

  /** The entry every log holds at index 0. */
  const DUMMY := LogEntry(0, [])

  /** The two logs hold the same entries at indices 0 to k - 1. */
  ghost predicate Agree(a: Log, b: Log, k: nat) {
    && k <= |a| && k <= |b|
    && forall i | 0 <= i < k :: a[i] == b[i]
  }

  function LastTerm(l: Log): nat {
    if |l| == 0 then 0 else l[|l| - 1].term
  }

  /** A log whose last term and last index are `term` and `index` may win the vote of a node whose log is `l`. */
  predicate UpToDate(term: nat, index: int, l: Log) {
    term > LastTerm(l) || (term == LastTerm(l) && index >= |l| - 1)
  }

  /** More than half of the cluster. */
  ghost predicate IsQuorum(nodes: set<NodeId>, q: set<NodeId>) {
    q <= nodes && 2 * |q| > |nodes|
  }

  lemma QuorumsMeet(nodes: set<NodeId>, p: set<NodeId>, q: set<NodeId>) returns (n: NodeId)
    requires IsQuorum(nodes, p) && IsQuorum(nodes, q)
    ensures n in p && n in q
  {
    if p * q == {} {
      assert |p + q| == |p| + |q|;
      SubsetSize(p + q, nodes);
      assert false;
    }
    n :| n in p * q;
  }

  lemma {:induction false} SubsetSize<T>(a: set<T>, b: set<T>)
    requires a <= b
    ensures |a| <= |b|
  {
    if a != {} {
      var x :| x in a;
      SubsetSize(a - {x}, b - {x});
    }
  }
}
