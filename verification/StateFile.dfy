/** raft/state.go: the term and the vote a node must not forget, kept in a file that is replaced as a whole. */
module StateFile {
  import opened RaftTypes

  /** What raft.state holds, as JSON. */
  datatype PersistentState = PersistentState(currentTerm: nat, votedFor: string)

  /** A file: not there, not decodable (empty or cut short), or the encoding of a state. */
  datatype Content = Absent | Torn | Complete(state: PersistentState)

  /** raft.state and raft.state.tmp. */
  datatype StateDisk = StateDisk(main: Content, tmp: Content)

  /** The votedFor of a node that has not voted. */
  const NOBODY := "-1"

  /** loadPersistentState: the defaults of NewRaft when there is no file, an error when it does not decode. */
  function Loaded(d: StateDisk): Option<PersistentState> {
    match d.main
    case Absent => Some(PersistentState(0, NOBODY))
    case Torn => None
    case Complete(s) => Some(if s.votedFor == "" then s.(votedFor := NOBODY) else s)
  }

  function VoteOf(votedFor: string): Option<NodeId> {
    if votedFor == NOBODY then None else Some(votedFor)
  }

  /** An id that cannot be mistaken for no vote. */
  predicate ValidId(id: NodeId) {
    id != NOBODY && id != ""
  }

  /** A vote survives being stored and loaded if and only if the id voted for is a valid one. */
  lemma VoteSurvivesIffValid(term: nat, id: NodeId)
    ensures var loaded := Loaded(StateDisk(Complete(PersistentState(term, id)), Absent));
            loaded.Some? && loaded.value.currentTerm == term
            && (VoteOf(loaded.value.votedFor) == Some(id) <==> ValidId(id))
  {
  }

  /** The directory of the state file. `crashes` collects what a crash may leave on disk, at any moment of the writes so far. */
  class StateDir {
    var main: Content
    var tmp: Content
    ghost var crashes: iset<StateDisk>

    constructor (d: StateDisk)
      ensures Disk() == d && crashes == iset{d}
    {
      main, tmp, crashes := d.main, d.tmp, iset{d};
    }

    function Disk(): StateDisk
      reads this
    {
      StateDisk(main, tmp)
    }

    /** OpenFile with O_TRUNC: the temporary file is there, and empty. */
    method CreateTmp()
      modifies this
      ensures main == old(main) && tmp == Torn
      ensures crashes == old(crashes) + iset{old(Disk()), Disk()}
    {
      ghost var before := Disk();
      tmp := Torn;
      crashes := crashes + iset{before, Disk()};
    }

    /** Write: until it is done, the file holds no more than a part. */
    method WriteTmp(s: PersistentState)
      modifies this
      ensures main == old(main) && tmp == Complete(s)
      ensures crashes == old(crashes) + iset{old(Disk()), StateDisk(main, Torn), Disk()}
    {
      ghost var before := Disk();
      tmp := Complete(s);
      crashes := crashes + iset{before, StateDisk(main, Torn), Disk()};
    }

    /** Rename replaces the old file in one step. */
    method Rename()
      modifies this
      ensures main == old(tmp) && tmp == Absent
      ensures crashes == old(crashes) + iset{old(Disk()), Disk()}
    {
      ghost var before := Disk();
      main, tmp := tmp, Absent;
      crashes := crashes + iset{before, Disk()};
    }

    /** persistStateLocked: a crash at any moment leaves a file that loads as the old state or as the new one. */
    method Persist(s: PersistentState)
      modifies this
      ensures main == Complete(s)
      ensures forall d :: d in crashes && d !in old(crashes) ==> d.main == old(main) || d.main == Complete(s)
    {
      CreateTmp();
      WriteTmp(s);
      Rename();
    }

    /** loadPersistentState: term 0 and no vote at the first start, an error for a file that does not decode. */
    method Load() returns (s: Option<PersistentState>)
      ensures s == Loaded(Disk())
      ensures main == Absent ==> s == Some(PersistentState(0, "-1"))
      ensures s == None <==> main == Torn
      ensures main.Complete? ==>
                && s.value.currentTerm == main.state.currentTerm
                && s.value.votedFor == if main.state.votedFor == "" then "-1" else main.state.votedFor
    {
      match main
      case Absent => s := Some(PersistentState(0, NOBODY));
      case Torn => s := None;
      case Complete(p) =>
        s := Some(p);
        if p.votedFor == "" {
          s := Some(p.(votedFor := NOBODY));
        }
    }
  }
}
