# miniKafka: replication and storage, verified

miniKafka is a message broker in Go. Each partition is a Raft group: producers' records are submitted to the group's
leader, and every broker applies what the group commits to a segmented write-ahead log, from which consumers read by
offset. This project models that path in Dafny and proves what it is for: all brokers serve the same records under the
same offsets, whatever is lost, delayed, reordered or redelivered on the network and whenever brokers crash.

`dafny verify dfyconfig.toml` checks everything.

## How it is built

**The protocol** (`raft/raft.go`).
`RaftNode` has one function for each region of code that runs under a Raft object's lock: election start, vote, vote
reply, append, append reply, submit, apply, restart. `Cluster` runs them on any finite set of nodes. Its state holds the
fields of every node and every message ever sent; a message may be delivered late, more than once, out of order or not at
all, timers fire at any time, and a node may crash in any state and also in the middle of a handler, between its disk
writes. `RaftHistory` and `RaftMoves` are the argument for why this is safe, on an abstract history of leader logs, votes
and confirmed lengths; `ClusterInvariant` shows that every step of every node follows it; `ClusterSafety` states the
results over whole runs. `TermRules` has what needs no hypothesis, how terms spread and that a node that
stepped down in a term never leads in it again. `Scenarios` builds runs step by step, an election by any smallest
majority among them. `MergeProperties` and `BackOff` treat the two algorithms inside it, taking in a follower's entries
and finding the point where two logs part.

**The objects.** `RaftServer.Raft` is the imperative Raft object over its log and its state file. Each method is proved to
take exactly the step of the cluster model, and its crash clause says with what term, vote and log the node comes back,
together, if the process stops inside it; `CrashLink` shows that the cluster model has an event for each of these, and that
a first start on empty files gives the node the cluster starts with. The methods also say of the fields, case by case,
what they become.
`RaftStorage.RaftLog` is the durable log over two byte files with cursors (`raft/storage.go`), with the file contents and
recovery described in `RaftDisk`; `StateFile` is the term and vote, replaced by write-then-rename (`raft/state.go`).

**The write-ahead log** (`wal/log`). `WalStore` has the buffered store and index files, `WalSegment` a segment that keeps
the two in step, `Wal` the segmented log with rotation, retention, close and reopen; `WalFiles` describes the bytes. All
of it refines one append-only sequence of records of which a part is retained.

**The link** (`wal/log/partition.go`). `Delivery` proves, over runs of the cluster, that WAL offset i - 1 holds the record
of Raft index i on every node. `Partition.Partition` is the object that connects a Raft object with a WAL.

## Hypotheses

The proofs rest on these, which the code does not establish by itself.

- **Term guard.** `replicateToPeer` is given the term that `sendHeartBeats` read earlier, and before sending and on the
  reply checks only that the node is a leader, not that it leads in that term (raft/raft.go:385-402, 459). The results of
  `ClusterSafety` and `Delivery` are about runs in which it does (`Cluster.Guarded`). The steps themselves are the code's,
  without the checks, and `WithoutTermGuard.ExactlyBothChecks` shows that safety needs exactly these two: with both,
  every run is safe, and for each of them there is a run that keeps to the other and ends in conflicting commits. In one a
  leader that was deposed and elected again sends under its old term, and its follower then takes in what a leader of a
  term in between still has under way; in the other a leader elected again counts a late reply to what it sent before.
- **Fail-stop files.** A file operation succeeds or the process stops inside it. What was written before survives a crash
  of the process. Recovery of the Raft log is proved for arbitrary loss of file tails as well.
- **Fixed membership.** `peerRPCs` is the whole cluster but the node itself; node ids are neither empty nor "-1".
- **Codecs.** Gob decodes what it encoded and an encoded log entry is shorter than 2^32 bytes; the record decoder of
  `applyLoop` is some function of the command bytes; CRC32 is some function of the bytes. The store of a Raft log stays
  under 2^63 bytes.
- **Record size.** `Delivery.EndToEnd` is about nodes whose applyLoop has dropped no record (`Delivery.NothingDropped`).
  Raft commits a record with a value over 1,000,000 bytes and the WAL refuses it: `InOrderIffNothingDropped` shows that
  the pipeline of a node stays in order exactly until that happens, `SizedDropsNothing` that it does not happen if no
  leader takes in such a record, and `OversizedRecords` is a run in which it makes a restarted broker store the record
  after it twice.
- **Log files at restart.** Recovery is described on any content, and shown to keep whole entries when the content is that
  of a log with its tails lost. On other content it need not be final: `RaftDisk.StableIffLastReachesFurthest` says
  exactly when it is, and `SwappedIndexLosesAll` gives content on which a second recovery loses all that the first kept.
- **WAL at restart.** The WAL reopens after a clean close, or, in the cluster model, with any number of whole records
  lost at its end.

Where the comments in the source and the code differ, the model follows the code: the length in a store record has four
bytes, not eight (wal/log/log_store.go:66-71), and a rejected append request is answered with the term the follower had
before it stepped up (raft/raft.go:252-290).

## Model

| member | source | states |
|---|---|---|
| `ClusterSafety.StateMachineSafety` | raft/raft.go:248-342 | In every guarded run, any two nodes, each in any state of the run, that both have index k at or below their commit index hold the same entries through k. |
| `ClusterSafety.LeaderCompleteness` | raft/raft.go:494-519 | What a node in term T has at or below its commit index is in the log of every node that ever leads a later term, also when that node led before the entry was committed. |
| `ClusterSafety.ElectionSafety` | raft/raft.go:124-246 | A term has at most one leader over the whole run, crashes and restarts included. |
| `ClusterSafety.LogMatching` | raft/raft.go:274-331 | Two logs anywhere in the run that have the same term at an index are equal through that index. |
| `ClusterSafety.CommittedForever` | raft/raft.go:293-336 | What a node ever had at or below its commit index is unchanged in its log in every later state, across truncations, crashes in the middle of a handler and restarts. |
| `ClusterSafety.CommittedSurvives` | raft/raft.go:296-319 | No single step removes or changes a committed entry of any log: truncation happens only above what is committed. |
| `ClusterSafety.LogSteps` | raft/raft.go:293-331 | A step leaves a log as it is, appends a leader's own entry to it, or writes a prefix of the entries of an accepted request into it; and terms never fall. |
| `ClusterSafety.IndicesGrow` | raft/raft.go:522-547 | In every state 0 <= lastApplied <= commitIndex <= LastIndex, and neither falls except by a restart. |
| `ClusterSafety.FollowerCommitRule` | raft/raft.go:333-336 | For every request ever sent, leaderCommit is at most prev plus the number of entries, so the rule min(leaderCommit, LastIndex) comes to the same as Figure 2's index of the last new entry; and after handling it the follower equals any leader of that term through that index. |
| `ClusterSafety.OneVotePerTerm` | raft/raft.go:230-238 | A node never votes for two candidates in one term, itself included: any two votes of a term, each on record in some state of the run or granted in a reply sent, name the same node, whatever is forgotten in a crash. |
| `ClusterSafety.VotesAreReal` | raft/raft.go:187-198 | A candidate's counter is one plus the number of distinct peers counted, and each of them had its vote for this candidate in this term on record in some earlier state. |
| `ClusterSafety.GrantedVoted` | raft/raft.go:230-238 | Whoever granted a vote in a reply had that vote on record when it was sent. |
| `ClusterSafety.DummyFirst` | raft/storage.go:56-70 | Every log of every state holds the term-0 dummy at index 0. |
| `ClusterSafety.AckSoundness` | raft/raft.go:474-484 | While a node leads, nextIndex stays between 1 and LastIndex + 1, and every peer at a term no later than its own agrees with it through matchIndex, in whatever order replies came. |
| `ClusterSafety.ConfirmedStays` | raft/raft.go:293-331 | What a node confirmed to the leader of a term stays in its log while it stays in that term, whatever old or new requests of that term it handles. |
| `ClusterSafety.Histories` | raft/raft.go:124-579 | Every guarded run has a history of leader logs, votes and confirmed lengths for each of its states, each extending the ones before, that satisfies the invariant. |
| `TermRules.LaterTermAdopted` | raft/raft.go:344-356 | A later term that a node hears of, in a request, in the reply to a vote it still waits for, or as leader in the reply to an append, makes it a follower in that term, with its vote left unless it gives it to the one who asks. |
| `TermRules.LateReplyDeposes` | raft/raft.go:464-472 | A reply of a later term than its request ends the leadership also of a leader that is past that term itself; the log and the indices stay. |
| `TermRules.TermChanges` | raft/raft.go:124-139 | A node's term changes only when it starts an election, by one, or hears of a later term, a crash while it does included. |
| `TermRules.FollowerForGood` | raft/raft.go:344-356 | In every run, guarded or not, a follower of a term is neither candidate nor leader in it, nor in an earlier one, at any later time, restarts included. |
| `TermRules.LeadsOnlyLater` | raft/raft.go:220-226 | After a node heard of a later term, it stands and leads only in terms later still, for the rest of the run. |
| `TermRules.DeposedForGood` | raft/raft.go:464-472 | A leader that handled a reply of a later term than its request never stands or leads again in its own term or in that one. |
| `TermRules.TermsAreStoodFor` | raft/raft.go:124-162 | Every term that a node is in or has saved, and every term in a request or a reply, is 0 or one in which some node started an election earlier in the run. |
| `ClusterInvariant.StepKeeps` | raft/raft.go:124-579 | Every step of the cluster, crashes included, keeps the invariant, under the hypothesis on the term that replicateToPeer uses. |
| `ClusterInvariant.InitOk` | raft/raft.go:45-74 | The initial state, all nodes at term 0 with the dummy entry, satisfies the invariant. |
| `ClusterInvariant.TimeoutKeeps` | raft/raft.go:124-139 | Starting an election keeps the invariant: the term is new to the node, so its vote for itself is its only one. |
| `ClusterInvariant.VoteRequestKeeps` | raft/raft.go:205-246 | Handling a vote request keeps the invariant, by which a vote granted is the node's only one in that term. |
| `ClusterInvariant.VoteReplyKeeps` | raft/raft.go:166-199 | Handling a vote reply keeps the invariant, also when it makes the node leader. |
| `ClusterInvariant.SendKeeps` | raft/raft.go:399-452 | Sending keeps the invariant, by which every request in the network is a part of its term's leader log with a commit index that part reaches. |
| `ClusterInvariant.AppendKeeps` | raft/raft.go:248-342 | Handling an append request keeps the invariant. |
| `ClusterInvariant.Written` | raft/raft.go:293-331 | Writing any prefix of an accepted request's entries keeps what the node confirmed to that leader and what is committed, and leaves a log in log matching with all leaders. |
| `ClusterInvariant.AppendReplyKeeps` | raft/raft.go:457-486 | Handling an append reply keeps the invariant, also when it advances the commit index. |
| `ClusterInvariant.LeaderCommits` | raft/raft.go:494-519 | An index held by a majority whose entry is of the leader's own term commits the leader's log through it. |
| `ClusterInvariant.ProposeKeeps` | raft/raft.go:549-569 | Submitting a command to any node keeps the invariant. |
| `ClusterInvariant.ApplyKeeps` | raft/raft.go:522-547 | Applying an entry, passing it on and appending it to the WAL keep the invariant. |
| `ClusterInvariant.CrashKeeps` | raft/raft.go:45-74 | A crash and restart, with any number of WAL records lost, keeps the invariant. |
| `ClusterInvariant.CrashOnTermKeeps` | raft/raft.go:344-352 | A crash right after a higher term was persisted keeps the invariant. |
| `ClusterInvariant.CrashInAppendKeeps` | raft/raft.go:303-331 | A crash between any two log writes of HandleAppendEntries keeps the invariant. |
| `RaftMoves.OneWinner` | raft/raft.go:191-197 | A candidate with the votes of a majority is the leader of the term if the term has one already. |
| `RaftMoves.ElectedKeeps` | raft/raft.go:228-230 | The winner of an election holds every entry that a leader of an earlier term could still get confirmed by a majority. |
| `RaftMoves.UpToDateKeeps` | raft/raft.go:228-228 | A log that is at least as up to date as another holds every such entry that the other holds. |
| `RaftMoves.NewEntryBlocked` | raft/raft.go:513-518 | Once a later term has a leader, no entry that an earlier leader has yet to append can be confirmed by a majority. |
| `RaftMoves.ChosenKept` | raft/raft.go:513-518 | What a majority confirmed to the leader of its own term is in the log of every later leader. |
| `RaftMoves.CommittedAgree` | raft/raft.go:333-336 | Two committed prefixes never disagree. |
| `RaftMoves.CommittedInLeader` | raft/raft.go:494-519 | A committed prefix is in the log of the leader of any term that is not earlier. |
| `RaftMoves.StandGood` | raft/raft.go:125-137 | Standing for election in a new term keeps the protocol invariant. |
| `RaftMoves.GrantGood` | raft/raft.go:230-238 | Granting a vote to an up-to-date candidate keeps the protocol invariant. |
| `RaftMoves.ElectGood` | raft/raft.go:194-197 | Becoming leader with a majority of votes keeps the protocol invariant. |
| `RaftMoves.ProposeGood` | raft/raft.go:557-562 | Appending an entry of its own term to a leader's log keeps the protocol invariant. |
| `RaftMoves.AdoptGood` | raft/raft.go:293-331 | Replacing a log by one that keeps what was confirmed in the present term keeps the protocol invariant. |
| `RaftMoves.ConfirmGood` | raft/raft.go:338-339 | Confirming a prefix of the leader's log that the node holds keeps the protocol invariant. |
| `RaftMoves.AdvanceGood` | raft/raft.go:344-352 | Going to a later term without voting keeps the protocol invariant. |
| `RaftHistory.LogsMatch` | raft/raft.go:274-331 | Logs that each agree, at every entry, with the log of that entry's leader are equal through any index where their terms are. |
| `RaftHistory.TermsGrow` | raft/raft.go:557-562 | The terms along a log never fall. |
| `WithoutTermGuard.ExactlyBothChecks` | raft/raft.go:399-484 | Runs of the program's steps are all free of conflicting commits if and only if both checks are made along them: a leader sends only in the term in which it leads, and handles only replies to what it sent in that term. |
| `WithoutTermGuard.UnsafeWithSendUnguarded` | raft/raft.go:402-402 | For any five nodes there is a run, every handled reply checked, in which a leader of a later term sends in a term it saved before, and two nodes end with different entries committed at index 1. |
| `WithoutTermGuard.UnsafeWithReplyUnguarded` | raft/raft.go:459-459 | For any three nodes there is a run, every send checked, in which a leader of a later term takes in a reply to what it sent in an earlier one, and two nodes end with different entries committed at index 2. |
| `Scenarios.Replicate` | raft/raft.go:399-484 | A send in the leader's own term, its handling and the handling of its reply bring a follower that shares the log up to the last entry matched to the leader's whole log, and commit it when with the peers that hold it they are a majority. |
| `Scenarios.Rejection` | raft/raft.go:274-291 | A send whose previous entry the follower does not have changes no log and takes nextIndex down by one. |
| `Scenarios.Elect` | raft/raft.go:124-203 | In a cluster of any size, any smallest majority of nodes to which the candidate's log is up to date, each behind the candidate's next term or with its vote in it free, can make it leader of that term, in a run with any checks. |
| `Scenarios.Proposed` | raft/raft.go:549-569 | In any state, applied or restarted or not, a command proposed to a leader goes to the end of its log in its term, and one proposed to any other node changes nothing. |
| `Scenarios.AnythingMayHappen` | raft/raft.go:124-579 | In every state timers may fire, commands come, nodes crash with any WAL records lost, and every request ever sent and every reply still awaited may arrive. |
| `Scenarios.ElectOfThree` | raft/raft.go:124-203 | In a cluster of three one vote besides its own makes an up-to-date node leader of the next term, with its log unchanged and nothing acknowledged. |
| `Scenarios.ElectOfFive` | raft/raft.go:124-203 | In a cluster of five two votes besides its own do. |
| `MergeProperties.MergeAtConflict` | raft/raft.go:296-319 | With a term conflict, the log is kept up to the first one and continued with the request's entries from there. |
| `MergeProperties.MergeWithoutConflict` | raft/raft.go:320-330 | Without one, the log is only extended, by the entries it does not reach. |
| `MergeProperties.MergeIdempotent` | raft/raft.go:293-331 | Handling the same request again changes nothing. |
| `MergeProperties.MergeFollowsLeader` | raft/raft.go:293-331 | A request from a leader leaves the log as it is, when it holds all that was sent, or makes it what the leader's log was through the last entry sent. |
| `MergeProperties.MergeKeepsAgreement` | raft/raft.go:293-331 | No request of a leader removes anything that agrees with that leader's log. |
| `MergeProperties.NothingLost` | raft/raft.go:274-331 | Any number of requests of one leader, in any order, repeated, accepted or rejected, never remove anything that agrees with that leader's log, and keep log matching with it. |
| `MergeProperties.AnyOrder` | raft/raft.go:293-331 | Requests of one leader that a node would all accept give the same log in whatever order and however often they come, determined by the furthest entry sent. |
| `BackOff.ExchangeProgress` | raft/raft.go:474-481 | One undisturbed exchange either succeeds, and the follower's log extends the leader's, or is rejected, and nextIndex falls by one; at nextIndex 1 it succeeds. |
| `BackOff.Converges` | raft/raft.go:474-484 | Exchanging messages again and again, some exchange succeeds after fewer than nextIndex rejections, and it leaves the follower with the whole log of the leader, which the leader knows. |
| `BackOff.RunPairs` | raft/raft.go:407-418 | In every guarded run each leader and each peer no later than its term are in the situation from which these exchanges converge. |
| `Delivery.InOrderIffNothingDropped` | wal/log/partition.go:83-103 | For every guarded run, node and time: the WAL and the messages in flight hold the committed entries in order in every state so far if and only if applyLoop never handled a record that the store refuses. |
| `Delivery.EndToEnd` | wal/log/partition.go:83-103 | In every guarded run, as long as a node's applyLoop dropped nothing, its WAL offset k holds the decoded command of the committed Raft index k + 1, none skipped or repeated, and lastApplied is 0, 1 or 2 ahead of the WAL, across restarts. |
| `Delivery.WalsAgree` | wal/log/partition.go:83-103 | The records that two brokers which dropped nothing ever appended, each at its own time, are prefixes of one another. |
| `Delivery.SizedDropsNothing` | wal/log/partition.go:64-77 | If no leader takes in a record longer than the store accepts, no node ever drops one, whatever is submitted to the other nodes. |
| `Delivery.InStepIffSized` | wal/log/partition.go:97-101 | In one pass of applyLoop over consecutive entries, WAL offsets stay in step with Raft indices if and only if every record is within the size the store accepts. |
| `OversizedRecords.OversizedRecordRepeats` | wal/log/partition.go:47-47 | With every term check kept to, the initial cluster of three reaches a state in which a committed record that is too long is missing from a broker's WAL and, after a restart, the one after it is there twice. |
| `OversizedRecords.TakeOne` | raft/raft.go:526-541 | The three steps from the apply loop to the WAL take the next committed entry there, and change nothing else. |
| `Delivery.StepPiped` | wal/log/partition.go:84-89 | A step keeps the messages in flight the ones that come next after the records in the WAL if and only if it is not one in which the store refuses a record. |
| `RaftServer.Raft.constructor` | raft/raft.go:45-74 | A started node has the stored term and vote, term 0 and no vote when nothing is stored, its durable log, and everything else at its initial value. |
| `RaftServer.Raft.PersistState` | raft/state.go:47-98 | The stored state becomes the present term and vote; a crash at any moment leaves files from which the node comes back with the old ones or the new ones, and the same log. |
| `RaftServer.Raft.StartElection` | raft/raft.go:124-139 | The object becomes a candidate in the next term with a vote for itself, takes the model's election step, returns the last index and term it will ask votes with, and a crash leaves term, vote and log as before or as after. |
| `RaftServer.Raft.BecameFollower` | raft/raft.go:344-356 | The object takes the model's step down: a higher term clears the vote, an equal one keeps it. |
| `RaftServer.Raft.HandleRequestVote` | raft/raft.go:205-246 | The vote is granted if and only if the candidate's log is up to date and the request's term is later, or the same and the vote in it is free or already this candidate's; the term becomes the larger one; the object takes the model's step; after a crash the node comes back as before, with only the higher term, or as after. |
| `RaftServer.Raft.HandleVoteReply` | raft/raft.go:166-199 | A candidate still in the term of its request becomes a follower with no vote on a later term, counts a granted vote, and leads, with both maps filled, exactly when the votes are a majority of the cluster; nothing else has an effect; this is the model's step. |
| `RaftServer.Raft.BecameLeader` | raft/raft.go:358-364 | All peers get nextIndex LastIndex + 1 and matchIndex 0. |
| `RaftServer.Raft.HandleAppendEntries` | raft/raft.go:248-342 | By cases on term and previous entry: who becomes a follower in which term with what vote, when the request is accepted, refused or fails, what the log and the commit index then are and what is answered; this is the model's step, over the byte files; after a crash the node comes back as before, or in the new term with some prefix of the entries written, and never with the old term and a rewritten log. |
| `RaftServer.Raft.TakeInEntries` | raft/raft.go:274-341 | The part after the term check does as the model's, and a crash leaves the log before or with some prefix of the entries written. |
| `RaftServer.Raft.MergeEntries` | raft/raft.go:293-331 | The loop over the entries computes the pure merge, and a crash in it leaves the merge up to some entry. |
| `RaftServer.Raft.PrepareAppend` | raft/raft.go:407-431 | A leader sends if and only if nextIndex - 1 is an index of its log: the entry before nextIndex, everything from nextIndex on and the commit index. |
| `RaftServer.Raft.HandleAppendReply` | raft/raft.go:457-486 | A leader becomes a follower on a later term than its request, in that term and without a vote if it is later than its own, with log and indices unchanged; takes nextIndex down by one, not below 1, on a rejection; notes an acknowledgement and commits the largest index it allows; a node that does not lead ignores the reply; this is the model's step. |
| `RaftServer.Raft.AdvanceLeaderCommit` | raft/raft.go:490-520 | The commit index becomes the largest index above it that a majority holds and whose entry is of the present term, if there is one. |
| `RaftServer.Raft.CountHolders` | raft/raft.go:495-501 | The count is the number of peers whose matchIndex reaches the index. |
| `RaftServer.Raft.Submit` | raft/raft.go:549-569 | Any leader appends the command at the end of its log in its own term, and only a leader; a crash leaves term, vote and log as before or as after. |
| `RaftServer.Raft.NextToApply` | raft/raft.go:526-541 | The entry after the applied index is handed out exactly when it is committed and in the log; otherwise nothing is. |
| `RaftServer.Raft.SetLastApplied` | raft/raft.go:571-579 | The applied index is set and the commit index raised to it if it was lower. |
| `CrashLink.CrashInRequest` | raft/raft.go:248-342 | Whatever term, vote and log a crash inside HandleAppendEntries leaves, the cluster model has a crash event that restarts the node with them. |
| `CrashLink.CrashInVote` | raft/raft.go:205-246 | So for HandleRequestVote: the crash comes before the request is handled, after its term is stored, or after it is handled. |
| `CrashLink.CrashElsewhere` | raft/raft.go:124-203 | A crash inside any other handler is one of the model's just before or just after it. |
| `CrashLink.Restart` | raft/raft.go:45-74 | Opening the files that a crash left and calling SetLastApplied gives the node the model restarts. |
| `CrashLink.FirstStart` | raft/raft.go:45-74 | Opening empty log files without a state file gives a follower at term 0 without a vote, with the dummy as its log and both indices 0, which is what the cluster model starts a node with. |
| `RaftNode.CommitFrom` | raft/raft.go:494-519 | The result is the old commit index or a committable index above it, and no larger index is committable. |
| `RaftNode.Matching` | raft/raft.go:293-321 | The entries counted have the terms the log has, and the count ends at the first conflict or at the end of the log or of the entries. |
| `RaftNode.VoteAgain` | raft/raft.go:205-246 | A vote request that comes again gets the same answer and changes nothing. |
| `RaftNode.AppendRule` | raft/raft.go:248-342 | A request of an earlier term is refused with the node's own term; any other makes a follower in its term that accepts it if and only if it has the entry before those sent, answers a rejection with the term from before, and commits as far as it is told and has entries. |
| `RaftNode.MergedIsMerge` | raft/raft.go:293-331 | The merge is the one log that is the old one if all entries are in it by their terms, and else the old one up to the first that is not, followed by the rest of the request. |
| `RaftNode.CommittableIffMajority` | raft/raft.go:494-519 | The counting finds an index exactly when some majority of the cluster, the leader included, has confirmed it and its entry is of the leader's term. |
| `StateFile.StateDir.Persist` | raft/state.go:47-98 | After the write to a temporary file and the rename the file is the new state; at no moment is it anything but the old or the new one. |
| `StateFile.StateDir.Load` | raft/state.go:17-45 | No file gives term 0 and "-1" for no vote, an undecodable one an error, and a stored state its term and its vote, with an empty vote as no vote. |
| `StateFile.VoteSurvivesIffValid` | raft/state.go:38-42 | A vote survives being stored and loaded if and only if the id voted for is neither empty nor the value for no vote. |
| `RaftStorage.RaftLog.constructor` | raft/storage.go:46-73 | On any content of the files the log opens with the records before the first invalid one, or the dummy when there is none; on files that lost any parts of their tails these are exactly the entries that are whole in both. |
| `RaftStorage.RaftLog.Recover` | raft/storage.go:387-470 | On any content of the files it keeps the index up to the first entry that points at no whole record that decodes, and the store up to the end of the record the last kept entry points at, and leaves both cursors at the ends; on a log that lost tails a crash during recovery makes no difference to the next one. |
| `RaftStorage.RaftLog.ScanRecords` | raft/storage.go:413-442 | The loop finds the number of leading valid records and the end of the last of them. |
| `RaftStorage.RaftLog.ValidateRecord` | raft/storage.go:472-507 | A position and an end are returned exactly when four length bytes and as many bytes as they say lie within the store from there to the end and decode to an entry. |
| `RaftStorage.RaftLog.Append` | raft/storage.go:109-156 | The log is the old one with the entry at its end, under the index returned; a crash between or inside the two writes recovers to the old or the new log. |
| `RaftStorage.RaftLog.Fetch` | raft/storage.go:158-198 | Get answers as the sequence of entries does, with an error outside it. |
| `RaftStorage.RaftLog.LastIndex` | raft/storage.go:200-208 | The last index of the sequence, -1 when it is empty. |
| `RaftStorage.RaftLog.LastTerm` | raft/storage.go:210-232 | The term of the last entry of the sequence, 0 when it is empty. |
| `RaftStorage.RaftLog.PositionOf` | raft/storage.go:234-247 | The index file holds the position where the record of each entry starts. |
| `RaftStorage.RaftLog.ReadAtPosition` | raft/storage.go:249-274 | The record at an entry's position decodes to that entry. |
| `RaftStorage.RaftLog.GetRange` | raft/storage.go:287-312 | The slice of the sequence, or an error exactly when the range is not one of it. |
| `RaftStorage.RaftLog.TruncateFrom` | raft/storage.go:314-368 | The log is cut before the index, or left alone with an error outside it; a crash between the two truncations recovers to the old or the new log. |
| `RaftDisk.RecoveryKeepsWhole` | raft/storage.go:387-470 | For any prefix of the store and any prefix of the index of a log, recovery yields the files of its first k entries, k the largest number whose records and index entries all survived. |
| `RaftDisk.WholeIsLargest` | raft/storage.go:413-442 | That k has 8k within the index and the end of record k within the store, and no larger one has. |
| `RaftDisk.RecordSurvives` | raft/storage.go:418-442 | Recovery finds record i valid exactly when all of it is still in the store. |
| `RaftDisk.RecoveryIdempotent` | raft/storage.go:387-470 | Recovering the files of a whole log changes nothing. |
| `RaftDisk.RecoveredKeeps` | raft/storage.go:387-470 | On any content, what is left is the index up to the first entry that points at no whole record that decodes, each entry kept pointing at one in the store before the cut, and the store up to the end of the last one kept. |
| `RaftDisk.StableIffLastReachesFurthest` | raft/storage.go:446-459 | On any content, recovering a second time changes nothing, and every index entry kept still points at a whole record, if and only if no record kept reaches beyond the one that the last index entry points at. |
| `RaftDisk.SwappedIndexLosesAll` | raft/storage.go:446-459 | For any two entries, with their index entries swapped, the first recovery keeps both entries but cuts the second record off, and the next recovery keeps nothing. |
| `RaftDisk.AppendCrash` | raft/storage.go:109-156 | Files somewhere between those of a log and those of the log with one more entry recover to one of the two. |
| `RaftDisk.TruncateCrash` | raft/storage.go:342-352 | A store cut at record i recovers to the first i entries, whether or not the index was cut yet. |
| `RaftDisk.StoreRecord` | raft/storage.go:124-132 | Record i of the store is at its position: its length, then its payload. |
| `RaftDisk.IndexEntry` | raft/storage.go:137-141 | Entry i of the index is the position of record i. |
| `WalFiles.SegmentBounds` | wal/log/index.go:98-99 | A segment whose every record was appended below the limit has at most 699,051 records and 17,777,239 store bytes, so the 32-bit index arithmetic never wraps. |
| `WalFiles.StoreReads` | wal/log/log_store.go:160-232 | Record i of a store reads back, with a right checksum, as its value, timestamp and offset field. |
| `WalFiles.ReadsIffChecked` | wal/log/log_store.go:160-232 | On any bytes, a record is read at a position if and only if a whole header and value are there whose checksum is the one stored, and what is read are those bytes. |
| `WalFiles.HeaderFields` | wal/log/log_store.go:86-118 | The 24 header bytes are the length, the checksum of length and value, the timestamp and the offset, in this order. |
| `BigEndian.FirstWeighsMost` | wal/log/log_store.go:160-215 | Numbers in all these files are stored with the most significant byte first. |
| `WalFiles.IndexReads` | wal/log/index.go:93-114 | Entry i of an index holds i in its first four bytes and the position of record i in the other eight. |
| `WalStore.LogStore.Append` | wal/log/log_store.go:72-149 | A header with the value's length cut to 32 bits, checksum, timestamp and offset, and then the value, go to the end of what was written, whose position is returned; if that length is over 1,000,000 bytes the record is refused and nothing is written. |
| `WalStore.LogStore.Read` | wal/log/log_store.go:160-232 | The record at a position of all that was written, buffered or not, exactly when header and value are whole there and the checksum of length and value is the one stored; value, timestamp and offset are the bytes there. |
| `WalStore.LogStore.Close` | wal/log/log_store.go:234-243 | All that was written is in the file. |
| `WalStore.Index.Write` | wal/log/index.go:77-91 | A 12-byte entry goes to the end of what was written. |
| `WalStore.Index.Read` | wal/log/index.go:93-114 | The position in an entry, found with arithmetic that wraps at 2^32. |
| `WalSegment.Segment.constructor` | wal/log/segment.go:31-63 | Any two files open as a segment whose nextOff is counted from the index and whose write position is the store's length; the files of any records open as a segment that holds those records. |
| `WalSegment.Segment.Append` | wal/log/segment.go:112-134 | The record gets the next offset, store and index stay in step, and the bounds of a segment are kept; a refused record changes nothing. |
| `WalSegment.Segment.Read` | wal/log/segment.go:136-149 | The record at an offset as the store keeps it, exactly when the segment covers the offset. |
| `WalSegment.Segment.IsMaxed` | wal/log/segment.go:151-153 | The store has reached 16 MiB. |
| `WalSegment.Segment.Close` | wal/log/segment.go:155-160 | The two files hold exactly the bytes of the segment's records. |
| `WalSegment.AppendFits` | wal/log/segment.go:125-129 | One more record, while the store is below its limit, keeps a segment within its bounds and extends both files by its frame and its index entry. |
| `Wal.SegmentedLog.constructor` | wal/log/wal.go:27-77 | A clean directory, listed in any order, opens as the log it was: segments in numeric order of base offset, the same ends, the directory's files and no others (a first pair when there are none), and an offset is covered exactly when the directory held it. |
| `Wal.SegmentedLog.FindSegment` | wal/log/wal.go:118-136 | Binary search over segments that may be empty or have gaps between them finds the segment that covers an offset exactly when there is one. |
| `Wal.SegmentedLog.Read` | wal/log/wal.go:106-116 | The k-th record ever appended, as the store keeps it, exactly when a retained segment covers k. |
| `Wal.SegmentedLog.Append` | wal/log/wal.go:79-90 | The record gets the number of records ever appended as its offset, in a new segment exactly when the active one is at its limit; a refused record gets none. |
| `Wal.SegmentedLog.Rotate` | wal/log/wal.go:92-104 | An empty segment, with new files under a name no other has, takes over where the active one ends, and no offset gains or loses cover. |
| `Wal.SegmentedLog.Flush` | wal/log/wal.go:159-174 | Nothing of the active segment is left in a buffer, and nothing else changes. |
| `Wal.SegmentedLog.NextOffset` | wal/log/wal.go:213-218 | The number of records ever appended, whatever was deleted. |
| `Wal.SegmentedLog.DeleteExpired` | wal/log/wal.go:192-211 | What remains are the active segment and those that have not expired, in order, and the files that go are exactly those of the others; offsets already given are never given again. |
| `Wal.SegmentedLog.Close` | wal/log/wal.go:138-157 | The directory left behind is clean for the same history, with one pair of files for each segment and no others. |
| `Wal.SegmentedLog.Reopen` | wal/log/wal.go:27-77 | Closing and opening again, with the files listed in any order, gives the same segments, the same ends, the same NextOffset and the same cover, hence the same answer to every read. |
| `Wal.ImageClean` | wal/log/wal.go:54-62 | The files of ordered, non-overlapping segments make a clean directory, and the sizes of its indexes give back where each segment ends. |
| `Wal.ImageCovers` | wal/log/segment.go:62-63 | A directory holds an offset exactly when one of the segments it was left by covers it. |
| `Wal.ListingSorts` | wal/log/wal.go:41-54 | Sorting the base offsets read from the file names, in whatever order they were listed, gives the order of the segments. |
| `Wal.KeptInOrder` | wal/log/wal.go:196-209 | What retention leaves is still in order, with nothing shared. |
| `Wal.KeptMembers` | wal/log/wal.go:198-202 | Retention leaves exactly the active segment and the segments that have not expired. |
| `Offsets.SortSorts` | wal/log/wal.go:54-54 | Sorting distinct offsets gives exactly them, in increasing order. |
| `Offsets.IncreasingUnique` | wal/log/wal.go:54-54 | An increasing sequence is determined by its elements. |
| `Partition.Partition.constructor` | wal/log/partition.go:38-55 | A partition opens its WAL and its Raft group as the cluster model's restart does: applying resumes after the records in the WAL. |
| `Partition.Partition.Append` | wal/log/partition.go:64-77 | The encoded record is submitted as the model's step does it; it succeeds exactly on a leader. |
| `Partition.Partition.Apply` | wal/log/partition.go:84-101 | One message changes the WAL as the model's step does: the dummy is skipped, a refused record dropped. |
| `Partition.Partition.ApplyLoop` | wal/log/partition.go:83-103 | All messages change the WAL as applying them one after the other does. |
| `Partition.Partition.ApplyNext` | wal/log/partition.go:83-103 | A round of both loops takes the next committed entry, when there is one, to the WAL, and keeps WAL offsets one behind Raft indices if and only if its record is one the store accepts. |
| `Partition.Partition.Read` | wal/log/partition.go:79-81 | A read at an offset returns what the leader took in with the record committed one index further, exactly when the offset is retained. |

## Left out

- WithoutTermGuard.ExactlyBothChecks: is about the sets of runs that the checks allow, not about one run: an unguarded send does no harm when no later leader is involved.
- ClusterSafety.LeaderCompleteness: compares terms strictly, since a leader's own log in the term of the commitment may be looked at before the entry was appended; for the same term StateMachineSafety and LogMatching apply.
- Cluster.Next: a delivered append request may be answered more than once, so a caller may see more replies than gRPC would give it; the results hold with those too. A vote reply is taken at most once for each call.
- Cluster.Enabled: an election may start in any role, since startElection takes the lock again without looking at the role the election loop saw.
- RaftNode.OnVoteReply: the win is looked for only when a reply arrives, as in the code, so a cluster of one node never elects a leader; nothing is claimed about it.
- WalSegment.Segment.constructor: opens any two files, but promises a valid segment only for files a clean close leaves; newSegment repairs nothing, and what reads of torn or half-flushed files would give is not claimed.
- WalSegment.Segment.Append: is about segments below their limit, as SegmentedLog.Append keeps them, and values under 2^32 bytes; the 32-bit index arithmetic is not claimed to hold past the limit, and a longer value would be framed with a length that is not its own.
- Wal.SegmentedLog.constructor: opens directories that a clean close leaves, for the same reason.
- Wal.SegmentedLog.Append: is about values under 2^32 bytes; WalStore.LogStore.Append covers the others, of which it may store a frame that no read understands.
- Partition.Partition.Apply: likewise about decoded values under 2^32 bytes.
- Partition.Partition.ApplyLoop: likewise about decoded values under 2^32 bytes.
- Partition.Partition.ApplyNext: likewise about decoded values under 2^32 bytes.
- RaftStorage.RaftLog.constructor: on files that hold records no encoder wrote, opens with the raw recovered bytes and promises nothing about the object beyond them.
- Wal.SegmentedLog.DeleteExpired: which segments have expired is a parameter; the metadata files and the clock are not modelled.
- WalFiles.Stored: the store does not keep a record's key, so round trips are about value, timestamp and the offset field, which is whatever the record carried.
- Partition.Partition.Append: succeeds as soon as the leader has the record in its own log, so nothing is claimed about commitment at that time.
- Terms, log indices and WAL offsets are unbounded numbers; the wrap-around of 64-bit integers is not modelled.
- bufio.Writer is a buffer that may spill any part at any write; its size of 4096 bytes plays no part.
- File operations that return an error to a process that goes on (short writes, failed truncations or deletions, read errors in the apply loop) are outside the fail-stop model.
- Wall-clock time: election deadlines, tickers and the flush interval are nondeterministic choice, and no liveness is claimed that depends on time.
- The Dead state and RaftLog.AppendBatch, which nothing reaches or calls.
- gRPC, the generated protobuf code, peer connections and serving (raft/server.go, raft/proto), the broker, the client, configuration and the choice of partition by hash.
- The insides of gob, JSON and CRC32.
