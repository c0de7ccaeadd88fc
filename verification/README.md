# Annex: what its storage, consensus and index cores promise

Annex is an embedded vector database with replicated collections. This project models its hard
cores in Dafny and proves what they promise:

- **Consensus** (`Raft*.dfy`, `Replication.dfy`, `StateMachine.dfy`). One replica is a value with a
  function per stimulus (`RaftModel`), and an object that updates its fields in place and is proved
  equal to it (`RaftNode`). A cluster is a map of replicas and the set of all messages ever sent
  (`RaftCluster`), so loss, delay, reordering and duplication need no machinery. Election safety,
  log matching and leader append-only hold of the code as written. Leader completeness and state
  machine safety are proved of every *disciplined* run. `RaftProgress` and `RaftRepair` say what the
  steps achieve: no commit is held back, and a leader's appends repair any follower's log.
- **Storage** (`Codec`, `Payload`, `Wal`, `Lsm*`). Frames and payloads down to the byte; the log's
  recovery from a torn tail; and the store as a list of atomic disk effects per operation, with a
  crash possible between any two, refined to a plain map. `LsmEffects` says what each completed
  operation achieves, and that memtable and segments stay bounded without crashes. `LsmBytes` carries
  the refinement down to the bytes of the log, where a crash can cut an append after any byte.
  `Wal` needs three laws of the frame format, which `Codec` is proved to meet for any checksum
  function; `CodecLayout` says where each byte stands and what the checksum covers.
- **Graph index** (`Hnsw*`). Beam search, greedy descent, neighbour selection, insertion and search
  over an arbitrary real distance.
- **Versions** (`Mvcc`, `MvccRuns`, `VersionedCollection`, `DurableCollection`). The version table
  against a history of plain maps, with snapshots and vacuum; and over the store, crashes and restarts
  included.
- **Smaller cores** (`Vectors`, `KMeans`, `Lloyd`, `ProductQuantizer`, `Quantizer`, `Bm25*`): k-means
  and product quantisation over exact reals, and the incremental inverted index with the laws of its
  ranking.

Classes hold the fields that the source updates; their methods are proved against functions on
values, and the theorems are about those functions. The usual shape of a theorem about runs is a
`Trace` or a sequence of actions of any length from the initial state.

Environment choices are parameters: when timers fire, which message is delivered, the level of a
new graph node, the starting centres of k-means, names of new segment files, the tokenizer, the
logarithm, the checksum.

## Where the code departs from its documentation

- `src/annex/cluster/raft.py:11` says that a node grants at most one vote per term because it
  remembers its vote. A step-down within a term clears the vote (`raft.py:205`, called from
  `raft.py:360-361`): in a run of five replicas one votes for itself and then for another in the same
  term (`RaftVotes.VotesTwice`). A vote is forgotten within its term exactly when a replica that is not
  a follower takes an append of its own term (`VoteForgottenIff`), and a replica that has stood grants
  another its vote only after the term has had a leader (`SecondVoteAfterLeader`). Election safety
  holds all the same: what is kept is a vote granted to somebody else, by a follower, until it leaves
  the term.
- `raft.py:400` acknowledges the follower's own last index instead of the prefix that was checked.
  Believed by a leader whose log is shorter, such an acknowledgement loses a committed entry, and two
  replicas apply different first commands (`RaftDeviations`: a run of three replicas).
- `raft.py:408-417` takes in replies that answer an earlier term of the leader. A stale success makes
  the leader count a replica that has since been overtaken (`RaftStaleReplies`). A stale refusal is no
  better: its hint can point beyond the leader's log, which has been cut since; the leader then sends
  an append with an unknown prefix, previous term 0 and no entries, and a follower with a short log
  accepts it unchecked and commits entries of its own (`RaftStaleRefusals`). Guarding successes alone
  would therefore not do. Both are runs of five replicas without any other careless step, and both end
  with two replicas that have applied different commands.
- The model keeps these behaviours under two named guards, `ackPrefix` and `dropStale`; `AS_CODED` has
  neither, `INTENDED` has both. The safety theorems ask neither guard, only that each step be
  *careful*, and for each of the three kinds of step it is proved, for every variant, what careful
  amounts to:
  - an acknowledgement comes from a log that does not outrun the shipped range, or ends in an entry of
    the leader's own term, which the follower can tell before it takes the append; exactly then is it
    true of the leader's log, if the append is not blind (`AckTrueIffCareful`, which also says when it
    is true of a blind one);
  - a success of an earlier term claims no more than the log the leader was elected with, or than the
    follower has acknowledged in the leader's term as well. In every run of careful steps, as long as
    the follower has not gone beyond the leader's term, exactly then is the claim true: the follower's
    log agrees with the leader's up to there (`SuccessTrueIffCareful`, from `HoldsIffAcked`). A leader
    does not see all acknowledgements; what it can check for itself, the log it was elected with and
    its own table, is sufficient only (`KnownSuccessCareful`);
  - a refusal of an earlier term points no further than the end of the leader's log; exactly then is
    the append that answers it not blind (`RefusalBlindIffBeyond`).
  Intended runs are always careful (`IntendedDisciplined`). A run all of whose steps are careful is
  called disciplined.
- `src/annex/index/pq.py:40-43` describes an iterated algorithm. The previous inertia starts as
  infinity, so with a positive tolerance, the default included, the test at `pq.py:84` compares
  infinity with infinity and the loop always ends after one iteration (`Lloyd.Iterate`).

## Model

| member | source | states |
|---|---|---|
| `RaftElection.ElectionSafety` | src/annex/cluster/raft.py:202-241 | in every run of the code as written, and of every variant, two replicas that lead the same term, at any two moments, are one replica |
| `RaftElection.ElectionsAlways` | src/annex/cluster/raft.py:324-361 | every run keeps the election invariants: a vote granted to another is kept by a follower until it leaves the term, a term's leader leads until it leaves the term |
| `RaftElection.QuorumsMeet` | src/annex/cluster/raft.py:175-176 | any two majorities of the members share a replica |
| `RaftTheorems.OneGrantPerTerm` | src/annex/cluster/raft.py:324-340 | no replica ever sends two granting replies to different candidates in one term, though its vote field can be cleared within the term |
| `RaftVotes.VotesTwice` | src/annex/cluster/raft.py:202-206 | a concrete run of five replicas in which one votes for itself and then, in the same term, for another |
| `RaftVotes.VoteForgottenIff` | src/annex/cluster/raft.py:360-361 | in every run of every variant, a step that leaves a replica in its term changes the vote it has given if and only if the replica, not being a follower, takes an append of its own term; the vote is then its own, and gone |
| `RaftVotes.SecondVoteAfterLeader` | src/annex/cluster/raft.py:324-340 | in every run of every variant, a replica that has stood in a term grants another its vote in that term only after somebody has led it |
| `RaftLog.LogMatching` | src/annex/cluster/raft.py:355-391 | logs of any two replicas at any two moments that hold an entry of the same index and term are identical up to it, in every variant |
| `RaftLog.LeaderAppendOnly` | src/annex/cluster/raft.py:236-256 | during its term a leader's log only grows, in every variant |
| `RaftLog.MergeResult` | src/annex/cluster/raft.py:377-392 | the entry loop of an accepted append leaves the log alone if it already covers the shipped range, and otherwise makes it the leader's log up to the end of the range; stale and duplicated appends included |
| `RaftLog.LogsAlways` | src/annex/cluster/raft.py:355-402 | every run keeps every log canonical: each entry sits on the same prefix as in the log of the leader of its term |
| `RaftCommit.Completeness` | src/annex/cluster/raft.py:324-335 | what a quorum acknowledged to a leader in its own term is in the log every later leader is elected with |
| `RaftTheorems.LeaderCompleteness` | src/annex/cluster/raft.py:492-501 | in every disciplined run, what any replica has committed at any moment is in the log of every leader of a later term at every moment |
| `RaftTheorems.StateMachineSafety` | src/annex/cluster/raft.py:393-395 | in every disciplined run, the commands applied by any two replicas at any two moments are one a prefix of the other |
| `RaftTheorems.Convergence` | src/annex/cluster/raft.py:503-514 | in every disciplined run, replicas that have applied equally far hold the same documents |
| `RaftRuns.InvariantAlways` | src/annex/cluster/raft.py:308-322 | every disciplined run keeps all election, log, promise and commit invariants |
| `RaftRuns.QuorumCommitted` | src/annex/cluster/raft.py:492-501 | an index of the current term that match indexes put on a quorum is held by a quorum of real acknowledgements |
| `RaftCluster.IntendedDisciplined` | src/annex/cluster/raft.py:400-413 | with both guards in place every run is disciplined, so the theorems hold of all runs of the intended protocol |
| `RaftRepair.NothingHeldBackAlways` | src/annex/cluster/raft.py:492-501 | at every moment of every disciplined run a leader has committed every index of its own term that it and its match indexes put on a quorum |
| `RaftRepair.RepairAlways` | src/annex/cluster/raft.py:355-453 | from every moment of every disciplined run, for every leader and every member not beyond its term: at most as many rounds of append and reply between the two as the leader's next index make the follower hold all of the leader's log and learn its commit index, and the leader know it |
| `RaftRepair.ProposalStays` | src/annex/cluster/raft.py:243-256 | whatever any replica holds at any moment of any run at the index a client was told, in the term of the proposal, is the command of that client |
| `RaftProgress.AdvanceHighest` | src/annex/cluster/raft.py:492-501 | after the commit rule no index above the commit index is of the current term and on a quorum; the commit index stays, or moves up to such an index |
| `RaftProgress.ReplyAdvances` | src/annex/cluster/raft.py:410-414 | after a success or a snapshot reply has been taken in, the follower's indexes are those claimed and no commit is held back |
| `RaftProgress.ConflictIs` | src/annex/cluster/raft.py:363-375 | the hint of a refusal is one past the follower's log if the append looked beyond it, and otherwise the first index of the unbroken stretch of the term found there |
| `RaftProgress.ShipsAll` | src/annex/cluster/raft.py:420-453 | a heartbeat sends every peer everything from its next index to the end of the log, on the term before it, or the snapshot exactly if that index has been compacted away |
| `RaftProgress.ProposeAt` | src/annex/cluster/raft.py:243-256 | the index a client is told is the last one and holds its command in the leader's term; nothing else of the log changes; only a leader proposes, and alone it commits |
| `RaftProgress.ElectionAsks` | src/annex/cluster/raft.py:223-234 | standing asks every peer, and nobody else, for its vote in the next term with the end of the log; a lone member leads at once |
| `RaftProgress.GrantedIff` | src/annex/cluster/raft.py:324-340 | a vote is granted if and only if the term is not behind, nobody else has the vote in it, and the candidate's log ends in a later term or in the same and is no shorter |
| `RaftProgress.ElectedByQuorum` | src/annex/cluster/raft.py:342-353 | however granted votes come in, repeated ones included, the candidate leads if and only if they are a quorum with its own |
| `RaftProgress.TermCatchesUp` | src/annex/cluster/raft.py:308-322 | after any message the term is the higher of the two, and a higher term makes a follower |
| `RaftProgress.RequestsAnswered` | src/annex/cluster/raft.py:324-479 | every request is answered by one message to its sender in the new term; a request of a leader that is not behind makes it the known leader |
| `RaftTheorems.AckTrueIffCareful` | src/annex/cluster/raft.py:396-402 | in every run, for every accepted append, the acknowledgement of the follower's own last index is true of the sender's log if and only if the follower's last entry is then the sender's; and, where the append carries part of the sender's log, if and only if, before the append is taken in, the follower's log does not outrun the shipped range or ends in an entry of the sender's term |
| `RaftClaims.OwnAckedAlways` | src/annex/cluster/raft.py:377-402 | in every run of every variant, a replica has acknowledged, in its term, every entry of that term it holds, unless it leads the term itself |
| `RaftTheorems.HoldsIffAcked` | src/annex/cluster/raft.py:396-402 | in every disciplined run, a follower that has not gone beyond a leader's term agrees with the leader's log up to an index of the leader's own term if and only if it has acknowledged that index in that term |
| `RaftTheorems.SuccessTrueIffCareful` | src/annex/cluster/raft.py:410-414 | in every disciplined run, believing a success from such a follower, of whatever term, is careful if and only if the claim is true: the leader was elected with what is claimed, or the follower's log agrees with the leader's up to there |
| `RaftTheorems.RefusalBlindIffBeyond` | src/annex/cluster/raft.py:415-417 | in every run, what a leader answers to a refusal is blind if and only if the hint points beyond the end of its log, or there is no hint and it looked beyond already |
| `RaftTheorems.KnownSuccessCareful` | src/annex/cluster/raft.py:410-412 | what a leader can check for itself: in every disciplined run, a success that claims no more than the leader was elected with or has recorded for the follower is harmless, whatever its term |
| `RaftDeviations.OverclaimLosesCommit` | src/annex/cluster/raft.py:400 | acknowledging the last index: a concrete run in which a committed entry is missing from a later leader |
| `RaftDeviations.OverclaimUnsafe` | src/annex/cluster/raft.py:400 | the same run goes on until two replicas have applied different first commands |
| `RaftStaleReplies.StaleReplyLosesCommit` | src/annex/cluster/raft.py:410-414 | believing a success of an earlier term: a concrete run of five replicas, disciplined up to that one step, in which a committed entry is missing from a later leader |
| `RaftStaleReplies.StaleReplyUnsafe` | src/annex/cluster/raft.py:410-414 | that run goes on until two replicas have applied different second commands |
| `RaftStaleRefusals.StaleRefusalUnsafe` | src/annex/cluster/raft.py:415-417 | following the hint of a refusal of an earlier term: a disciplined run of five replicas that one such refusal, and the blind append it provokes, takes to two different second commands; no success is stale in it |
| `RaftCompaction.CompactInvisible` | src/annex/cluster/raft.py:287-303 | compaction cuts exactly up to what is applied, or up to what was asked if that is less, saves the documents, and keeps the window, the last index and term, and every term and entry at or above the cut |
| `RaftCompaction.CompactVisibleBeyond` | src/annex/cluster/raft.py:294-302 | the last index survives compaction if and only if nothing beyond the log has been applied |
| `RaftFolding.CompactTransparent` | src/annex/cluster/raft.py:287-303 | a replica that has compacted answers every request for a vote, and every append that the other accepts and whose prefix is not below the cut, exactly as it would have without compacting, and is left with the same log but for the cut, the same applied commands and the same documents |
| `RaftCompaction.ProposeWindow` | src/annex/cluster/raft.py:243-256 | proposing keeps log[i].index == snapshot_index + 1 + i and snapshot_index <= last_applied <= commit_index <= last_index |
| `RaftCompaction.AppendWindow` | src/annex/cluster/raft.py:355-402 | an append keeps that window |
| `RaftCompaction.InstallWindow` | src/annex/cluster/raft.py:455-479 | installing a snapshot keeps that window |
| `RaftCompaction.WindowAlways` | src/annex/cluster/raft.py:186-322 | that window holds at every moment of a replica's life, whatever timers, clients, compactions and messages of all six kinds do to it, as long as no message contradicts what it has committed |
| `RaftCompaction.SnapshotConverges` | src/annex/cluster/raft.py:287-490 | the whole way: a leader compacts, sends its snapshot to a follower behind the cut, which installs it, replies, and takes the append that follows; it has then committed and applied what the leader has committed, with the documents of replaying the history from the start |
| `RaftCompaction.InstalledConverges` | src/annex/cluster/raft.py:294-302 | a follower restored from a snapshot that was cut earlier than it was taken ends with the documents of replaying all commands |
| `Replication.SnapshotReplay` | src/annex/cluster/raft.py:294-302 | for all t <= a <= n, commands t+1..n replayed on the state after a commands give the state after n commands |
| `Replication.ReplayIsLastWrite` | src/annex/cluster/state_machine.py:68-83 | the state under an id after any commands is the last write to that id |
| `RaftNode.Replica.Tick` | src/annex/cluster/raft.py:212-221 | a leader broadcasts, anybody else stands for election |
| `RaftNode.Replica.StartElection` | src/annex/cluster/raft.py:223-234 | new state and messages are those of the protocol step |
| `RaftNode.Replica.BecomeLeader` | src/annex/cluster/raft.py:236-241 | role, leader, next and match indexes of a new leader |
| `RaftNode.Replica.Propose` | src/annex/cluster/raft.py:243-256 | new state and returned index are those of the protocol step |
| `RaftNode.Replica.Compact` | src/annex/cluster/raft.py:287-303 | new state is that of the protocol step; the result is the number of entries folded away |
| `RaftNode.Replica.Handle` | src/annex/cluster/raft.py:308-322 | dispatch: for every message the new state and the messages sent are those of the protocol step |
| `RaftNode.Replica.OnRequestVote` | src/annex/cluster/raft.py:324-340 | vote and reply are those of the protocol step |
| `RaftNode.Replica.OnVoteReply` | src/annex/cluster/raft.py:342-353 | vote counting and taking over are those of the protocol step |
| `RaftNode.Replica.OnAppend` | src/annex/cluster/raft.py:355-402 | term check, prefix check, back-off hint, merge loop, commit and reply are those of the protocol step |
| `RaftNode.Replica.Merge` | src/annex/cluster/raft.py:377-392 | the loop over the entries computes the recursive merge |
| `RaftNode.Replica.FindConflict` | src/annex/cluster/raft.py:363-375 | the back-off loop computes the specified hint |
| `RaftNode.Replica.OnAppendReply` | src/annex/cluster/raft.py:404-417 | progress or retreat of the follower, and the commit that may follow |
| `RaftNode.Replica.Broadcast` | src/annex/cluster/raft.py:420-453 | an append with the whole suffix, or a snapshot, for every peer |
| `RaftNode.Replica.OnInstallSnapshot` | src/annex/cluster/raft.py:455-479 | new state and reply are those of the protocol step |
| `RaftNode.Replica.OnInstallReply` | src/annex/cluster/raft.py:481-490 | new state and the append sent next are those of the protocol step |
| `RaftNode.Replica.AdvanceCommit` | src/annex/cluster/raft.py:492-501 | new state is that of the protocol step; no index of the current term above the new commit index is on a quorum, and a commit index that moved is such an index |
| `RaftNode.Replica.ApplyCommitted` | src/annex/cluster/raft.py:503-514 | the apply loop computes the recursive application |
| `StateMachine.CollectionStateMachine.Apply` | src/annex/cluster/state_machine.py:68-83 | one command applied to the documents and counted |
| `StateMachine.CollectionStateMachine.Snapshot` | src/annex/cluster/state_machine.py:35-50 | the saved list loads back to exactly the documents |
| `StateMachine.CollectionStateMachine.Restore` | src/annex/cluster/state_machine.py:52-66 | nothing of the old documents is left; no snapshot, no change |
| `StateMachine.CollectionStateMachine.CatchUp` | src/annex/cluster/state_machine.py:35-83 | restoring a snapshot taken after a commands and applying commands from t <= a on gives the state after all commands |
| `Codec.DecodeEncode` | src/annex/storage/codec.py:50-85 | an encoded frame decodes, wherever it starts and whatever follows, to the frame and the offset after it, for any checksum function |
| `Codec.EncodeDecode` | src/annex/storage/codec.py:60-85 | whatever decodes was encoded: the bytes read are exactly the encoding of the frame |
| `Codec.DecodeTorn` | src/annex/storage/codec.py:60-85 | a frame cut off anywhere at the end of the file does not decode |
| `CodecLayout.EncodeLaidOut` | src/annex/storage/codec.py:50-57 | the bytes of a frame: magic, version 1, kind code, flags, little-endian sequence number and length, the checksum of these twenty bytes continued over the payload, the payload |
| `CodecLayout.DecodeLaidOut` | src/annex/storage/codec.py:60-85 | bytes decode only if they are laid out so; in particular only if the stored word is the checksum continued from the header over the payload |
| `CodecLayout.PayloadCovered` | src/annex/storage/codec.py:77-80 | with another payload of the same length a frame decodes if and only if the continued checksum is the same |
| `CodecLayout.PutLayout` | src/annex/storage/codec.py:104-116 | the bytes of a put: id, dimension, four bytes per component in order, metadata, text, and a last byte that says whether there is a text |
| `CodecLayout.DeleteLayout` | src/annex/storage/codec.py:136-137 | the bytes of a delete: the length of the id and the id |
| `Payload.PutRoundTrip` | src/annex/storage/codec.py:104-133 | decoding the payload of a put gives back id, vector, metadata and text |
| `Payload.DeleteRoundTrip` | src/annex/storage/codec.py:136-142 | decoding the payload of a delete gives back the id |
| `Wal.FramedLawful` | src/annex/storage/codec.py:50-85 | the frame format meets the three laws that the log's theorems rest on |
| `Wal.TornTail` | src/annex/storage/wal.py:50-62 | for every list of frames followed by any strict prefix of one more encoded frame, replay yields exactly the list and ends exactly where it ends |
| `Wal.CrashedAppend` | src/annex/storage/wal.py:34-62 | a crash at any byte of an append loses at most the frame being written |
| `Wal.ReplayCanonical` | src/annex/storage/wal.py:50-62 | for any file at all, the intact part is the image of the frames it replays to |
| `Wal.ReplayIdempotent` | src/annex/storage/wal.py:50-71 | for any file at all, recovering the recovered file changes nothing |
| `Wal.AppendAfterRecovery` | src/annex/storage/wal.py:34-71 | a frame appended after recovery is replayed after the frames that survived |
| `Wal.WriteAheadLog.Append` | src/annex/storage/wal.py:34-43 | the file grows by exactly the encoded frame; the result is where it starts |
| `Wal.WriteAheadLog.Replay` | src/annex/storage/wal.py:50-71 | the frames of the intact part; the file is cut exactly there, or left and an error raised if the caller asks for that and there is a torn tail |
| `Wal.WriteAheadLog.Rotate` | src/annex/storage/wal.py:73-79 | the log is empty |
| `LsmRuns.CrashRefinement` | src/annex/storage/lsm.py:90-258 | over any run of puts, deletes, flushes, compactions and checkpoints with a crash between any two disk effects, what readers see evolves as a plain map: completed operations happen, a crashed one happens or does not |
| `LsmRuns.RecoveryLosesNothing` | src/annex/storage/lsm.py:90-130 | at every point of every run, recovering shows what readers see, restores memtable, segment list and sequence number, and that number is no smaller than any recovered record's |
| `LsmRuns.DoCorrect` | src/annex/storage/lsm.py:143-258 | every disk state an operation goes through recovers to the map after it, from its first effect on |
| `LsmRuns.StepRefines` | src/annex/storage/lsm.py:143-258 | one operation, completed or crashed and recovered, is a step of the plain map |
| `LsmRecovery.ReplayOverrides` | src/annex/storage/lsm.py:113-130 | replaying a log over the segments it covers equals overriding them with the memtable it rebuilds, though older frames are skipped by sequence number |
| `LsmRecovery.RecoverSteady` | src/annex/storage/lsm.py:90-130 | recovery brings memory and directory into agreement |
| `LsmRecovery.CompactEffect` | src/annex/storage/lsm.py:218-252 | full compaction keeps the replayed live map although tombstones are dropped and the log may hold flushed or unflushed frames |
| `LsmRecovery.ListEffect` | src/annex/storage/lsm.py:201-213 | listing the flushed segment while the log still holds its frames changes nothing |
| `LsmRecovery.RotateEffect` | src/annex/storage/lsm.py:213 | a log whose frames are all in the segments can be discarded |
| `LsmRecovery.AppendEffect` | src/annex/storage/lsm.py:152-173 | a logged mutation is what a recovering reader sees |
| `LsmEffects.MergeNewest` | src/annex/storage/lsm.py:226-239 | merging keeps, of every id in some segment, exactly the newest row, the later segment winning a tie |
| `LsmEffects.CompactAchieves` | src/annex/storage/lsm.py:218-252 | a completed compaction of two or more segments leaves one listed segment, with the newest row of every id but the tombstones, none of the old files, and everything else as it was; with fewer nothing changes |
| `LsmEffects.FlushAchieves` | src/annex/storage/lsm.py:201-216 | a completed flush leaves an empty memtable and an empty log, and the old memtable as the last listed segment or, where that triggers it, compacted with the others into one; an empty memtable changes nothing |
| `LsmEffects.MutateAchieves` | src/annex/storage/lsm.py:143-179 | a completed mutation draws the next number, logs one frame with it and ends there while the memtable is below its bound, and flushed at the bound |
| `LsmEffects.DoneAlways` | src/annex/storage/lsm.py:143-258 | in any run, crashes included, every completed operation has achieved this |
| `LsmEffects.TidyWithoutCrashes` | src/annex/storage/lsm.py:175-216 | as long as nothing crashes the memtable stays below its bound, the segments stay fewer than trigger a compaction, and the files are exactly the listed segments |
| `LsmLog.EntryRoundTrip` | src/annex/storage/lsm.py:113-125 | a logged entry, framed and read back by recovery, is the entry; its frame has its sequence number, and the kind of a put, a delete or a checkpoint |
| `LsmLog.CrashedLog` | src/annex/storage/lsm.py:113-125 | after a crash inside an append the entries recovery reads are the log before or after it |
| `LsmBytes.ByteRefinement` | src/annex/storage/lsm.py:90-258 | the same refinement with the log as bytes: over any run with crashes between any two effects and after any byte of an append, what readers see evolves as a plain map |
| `LsmBytes.CrashReads` | src/annex/storage/wal.py:34-71 | whatever a crash leaves, at any byte, recovery finds exactly the entries before the append or after it and cuts the file to their image |
| `LsmBytes.StepComesDown` | src/annex/storage/lsm.py:90-130 | every step on bytes, crash and recovery included, is a step of the store on entries and leaves a clean file |
| `LsmBytes.ReopeningChangesNothing` | src/annex/storage/lsm.py:90-130 | at every point of every run, opening the directory again shows what readers see and leaves the file as it is |
| `LsmStore.Store.constructor` | src/annex/storage/lsm.py:61-62 | opening a directory leaves memory as recovery specifies |
| `LsmStore.Store.ApplySegments` | src/annex/storage/lsm.py:99-111 | the loop over segments and rows computes the merge by sequence number |
| `LsmStore.Store.ApplyLog` | src/annex/storage/lsm.py:113-125 | the loop over frames computes table, memtable and sequence number |
| `LsmStore.Store.Put` | src/annex/storage/lsm.py:143-160 | new memory, new directory and the sequence of disk effects are those specified, automatic flush and compaction included; it has achieved what a mutation is for: next number, one frame, and the memtable below its bound or flushed |
| `LsmStore.Store.Delete` | src/annex/storage/lsm.py:162-173 | likewise; deleting what is absent has no effect |
| `LsmStore.Store.Flush` | src/annex/storage/lsm.py:201-216 | likewise: segment, manifest, empty log, in that order; afterwards memtable and log are empty and the flushed rows are in a listed segment |
| `LsmStore.Store.MergeSegments` | src/annex/storage/lsm.py:226-239 | the merge loop computes the merge by sequence number |
| `LsmStore.Store.Compact` | src/annex/storage/lsm.py:218-252 | likewise: merged segment without tombstones, manifest, then the unlinks; afterwards one listed segment with the newest live rows and none of the old files |
| `LsmStore.Store.Checkpoint` | src/annex/storage/lsm.py:254-258 | likewise: the log ends in a mark, the manifest has the store's sequence number and segments, nothing else changes |
| `HnswBeam.SearchLayer` | src/annex/index/hnsw.py:194-245 | terminates for every graph; the results are the best of the acceptable visited nodes, everything visited is reachable; every visited node closer than some result, and every result, has had all its links visited, and so has every visited node if there are fewer than ef results; and links were followed only in turn (`Searched`) |
| `HnswBeam.SearchedFar` | src/annex/index/hnsw.py:221-245 | what the stop rule guarantees: a search that follows links nearest first, only while the results are not full of closer nodes, and stops only when all that is left has ef other results at least as close, leaves no node closer than a result unexpanded |
| `HnswSearch.BestOfVisited` | src/annex/index/hnsw.py:221-245 | exactly min(ef, acceptable visited) distinct results with true distances, and no acceptable visited node left out is closer |
| `HnswSearch.Exhaustive` | src/annex/index/hnsw.py:194-245 | if at most ef acceptable nodes are reachable from the entry points, the results are exactly those, despite early stop and skip rule |
| `HnswBeam.ClosedHoldsReach` | src/annex/index/hnsw.py:221-245 | a set closed under links that holds the start holds everything reachable |
| `HnswSearch.KnnUnique` | src/annex/index/hnsw.py:309-317 | there is only one ordered list of the k nearest |
| `HnswSearch.GreedyDescend` | src/annex/index/hnsw.py:173-192 | terminates at the end of the steepest descent, each step to the first of the nearest neighbours; the node is reachable, no further than the start and has no closer neighbour |
| `HnswSearch.DescendsUnique` | src/annex/index/hnsw.py:173-192 | there is only one node where a steepest descent can end |
| `HnswSearch.SelectNeighbors` | src/annex/index/hnsw.py:252-282 | min(m, candidates) distinct neighbours other than the base: nearest first, a candidate is kept exactly if no nearer kept one is closer to it than the base is, and the nearest of the rest fill up |
| `HnswSearch.SelectionUnique` | src/annex/index/hnsw.py:252-282 | that determines the choice: for given candidates there is only one |
| `HnswGraph.Connect` | src/annex/index/hnsw.py:124-135 | links both ways within the degree bounds: the list of a selected neighbour is the old one with the key where it fits, and otherwise the selection out of the old one and the key by distance from that neighbour; no other list changes |
| `HnswGraph.AddBackLink` | src/annex/index/hnsw.py:124-135 | the new list of one neighbour: the key appended, or the selection that cuts it back to the bound |
| `HnswGraph.InsertionKeeps` | src/annex/index/hnsw.py:93-141 | an insertion keeps the graph well formed: links join distinct nodes of the layer, no duplicates, degrees at most 2M and M, the entry point at the maximum level |
| `HnswGraph.BuiltWellFormed` | src/annex/index/hnsw.py:93-141 | after any sequence of insertions of fresh keys the graph is well formed and its nodes are exactly the keys inserted, at their levels |
| `HnswGraph.Hnsw.Add` | src/annex/index/hnsw.py:93-141 | inserting a fresh key keeps the graph well formed; on each layer it is linked to the selection out of the best nodes visited, by a search that stops by the rule, from where the steepest descent, or the layer above, left off, and exactly these neighbours' lists are relinked; over any distance of the new vector |
| `HnswGraph.Hnsw.Search` | src/annex/index/hnsw.py:284-317 | the k best of the acceptable visited nodes in order, none removed or filtered out; no visited node closer than one of the ef best is left with a link unvisited; equal to brute force over the component when at most ef acceptable nodes are reachable |
| `HnswGraph.Hnsw.Remove` | src/annex/index/hnsw.py:161-164 | removal only marks the node |
| `MvccRuns.SnapshotHistory` | src/annex/db.py:303-316 | at every point of every run, at the current number and at every open snapshot, the visible versions are exactly the map that held then, one version per document |
| `MvccRuns.SnapshotStable` | src/annex/mvcc.py:79-97 | as long as a snapshot is open it shows the map that held when it was opened |
| `MvccRuns.StepGood` | src/annex/db.py:198-257 | every write, delete, open, close and vacuum keeps the history from the horizon on |
| `MvccRuns.RestartGood` | src/annex/db.py:159-178 | a collection rebuilt from the store shows the recovered records |
| `MvccRuns.RebuiltExact` | src/annex/db.py:159-178 | after a restart each recovered record is one version, born when it was stored, and the current one of its document |
| `MvccRuns.SweepExact` | src/annex/db.py:436-450 | vacuum leaves exactly the versions that are visible at some number from the oldest open snapshot, or with none open the current number, up to the current one, and changes nothing else |
| `MvccRuns.SweepIdle` | src/annex/db.py:436-450 | with no snapshot open it leaves exactly one version per document, the live one |
| `DurableCollection.DurableMap` | src/annex/db.py:159-257 | after any run of writes, deletes, maintenance, snapshots and vacuum, with crashes between any two disk effects and restarts, the committed documents are those of a run of a plain map, in which an operation in flight happens or does not, and the visible versions are exactly these documents |
| `DurableCollection.SnapshotOfCommitted` | src/annex/db.py:303-316 | until it is closed or the collection crashes, a snapshot shows the documents that were committed when it was opened |
| `Mvcc.UpsertKeeps` | src/annex/db.py:198-219 | an upsert extends the history by the new map and changes no earlier view |
| `Mvcc.DeleteKeeps` | src/annex/db.py:248-257 | a delete extends the history by the map without the document and changes no earlier view |
| `Mvcc.VacuumKeeps` | src/annex/db.py:436-450 | vacuum changes nothing that a snapshot at or after the horizon sees |
| `VersionedCollection.Collection.constructor` | src/annex/db.py:159-178 | the loop over the recovered records rebuilds the specified table |
| `VersionedCollection.Collection.Put` | src/annex/db.py:187-219 | the new table is that of the specified upsert; an empty id is rejected without change |
| `VersionedCollection.Collection.Remove` | src/annex/db.py:248-257 | the new table is that of the specified delete |
| `VersionedCollection.Collection.VisibleKeys` | src/annex/db.py:318-321 | the loop collects exactly the keys visible at the snapshot |
| `VersionedCollection.Collection.Clean` | src/annex/db.py:436-450 | a version is dropped if and only if its death is numbered no later than the least open snapshot, or the current number; what is left is unchanged, and the result is the number dropped |
| `VersionedCollection.SnapshotRegistry.Acquire` | src/annex/mvcc.py:59-63 | a handle never used before, holding the number |
| `VersionedCollection.SnapshotRegistry.Release` | src/annex/mvcc.py:65-67 | the handle is closed; an unknown one is ignored |
| `VersionedCollection.SnapshotRegistry.Oldest` | src/annex/mvcc.py:69-72 | the least open number, or the current one |
| `KMeans.LloydMonotone` | src/annex/index/pq.py:65-86 | inertia never increases from one iteration to the next, whatever empty clusters are re-seeded with |
| `KMeans.MeanCostsLeast` | src/annex/index/pq.py:75-79 | the mean of a cluster costs no more than any other centre |
| `KMeans.NearestCostsLeast` | src/annex/index/pq.py:68-74 | no assignment costs less than the nearest one |
| `Lloyd.AssignNearest` | src/annex/index/pq.py:68-74 | every point gets the first of its nearest centres, computed from the expanded squared distance |
| `Lloyd.Accumulate` | src/annex/index/pq.py:75-77 | sums and counts per cluster |
| `Lloyd.PickWorst` | src/annex/index/pq.py:80-81 | that many distinct points, the worst represented first, none better represented than a point left out |
| `Lloyd.Recentre` | src/annex/index/pq.py:75-83 | the mean for each cluster with points; for the empty ones, in order, the worst-represented points, in order |
| `Lloyd.Iterate` | src/annex/index/pq.py:65-87 | each list of centres is recomputed from the one before, until the first iteration that meets the stop test or the last; inertias descend and the returned centres cost no more than the last; with a positive tolerance exactly one iteration runs, and a second one runs if and only if the tolerance is not positive |
| `Lloyd.Train` | src/annex/index/pq.py:46-51 | no result without data; with no more points than centres the points, the last one repeated; otherwise where the loop ends from the starting centres, no worse than these |
| `ProductQuantizer.AdcExact` | src/annex/index/pq.py:166-193 | the table score of a code is the metric distance from the query to the decoded code, for L2, dot and cosine |
| `ProductQuantizer.SdcExact` | src/annex/index/pq.py:196-217 | the symmetric score of two codes is the distance between the decoded codes |
| `ProductQuantizer.EncodeOptimal` | src/annex/index/pq.py:137-163 | no code at all decodes closer to the vector than its encoding |
| `ProductQuantizer.EncodeUnique` | src/annex/index/pq.py:137-153 | the first of the nearest centroids in every sub-space: there is only one such code |
| `ProductQuantizer.EncodeDecoded` | src/annex/index/pq.py:137-163 | encoding a reconstruction and decoding it again gives the reconstruction |
| `ProductQuantizer.SplitAt` | src/annex/index/pq.py:145-145 | the sub-vectors are the slices of the vector |
| `Vectors.ExpandedIsDist2` | src/annex/index/pq.py:67-72 | the expanded form is the squared distance |
| `Quantizer.Trained.Train` | src/annex/index/pq.py:118-134 | one book per sub-space, each what k-means makes of its sub-vectors from its starting centres, and no cached table; fails without data |
| `Quantizer.Trained.Encode` | src/annex/index/pq.py:137-153 | the first of the nearest centroids in every sub-space; fails before training |
| `Quantizer.Trained.Decode` | src/annex/index/pq.py:155-163 | the concatenated centroids; fails before training |
| `Quantizer.Trained.DistanceTable` | src/annex/index/pq.py:166-185 | a row of plain distances per sub-space and the constant of the metric |
| `Quantizer.Trained.Adc` | src/annex/index/pq.py:187-193 | the score is the distance to the decoded code |
| `Quantizer.Trained.Sdc` | src/annex/index/pq.py:196-217 | the score is the distance between the decoded codes, from the cached table |
| `Bm25.Canonical` | src/annex/text/bm25.py:51-79 | postings, lengths and total length depend on nothing but the surviving documents, whatever was added, replaced and removed before |
| `Bm25.TotalWithout` | src/annex/text/bm25.py:67-73 | the total length does not depend on the order of adding up |
| `Bm25Laws.GainFormula` | src/annex/text/bm25.py:82-112 | what a term adds to the score of a document that contains it, as the written-out formula of k1, b, term frequency, document frequency and average length |
| `Bm25Laws.CountIsPlaces` | src/annex/text/bm25.py:60-63 | a term frequency is the number of places where the term stands |
| `Bm25Laws.AverageIs` | src/annex/text/bm25.py:44-46 | the norm times the number of documents is the total length; 1 where there is no text |
| `Bm25Laws.GainBounded` | src/annex/text/bm25.py:108-110 | a gain is never negative and never more than k1 + 1 times the weight of the term |
| `Bm25Laws.MoreOccurrences` | src/annex/text/bm25.py:108-110 | more occurrences never score less |
| `Bm25Laws.LongerDocument` | src/annex/text/bm25.py:108-110 | the same occurrences in a longer document never score more |
| `Bm25Laws.RarerTerm` | src/annex/text/bm25.py:82-87 | a term in fewer documents weighs no less, always more than nothing; a term in none weighs nothing |
| `Bm25Laws.MatchingScored` | src/annex/text/bm25.py:99-110 | exactly the allowed documents with a positive score match |
| `Bm25Index.Frequencies` | src/annex/text/bm25.py:60-66 | the distinct terms and how often each occurs |
| `Bm25Index.InvertedIndex.Add` | src/annex/text/bm25.py:51-67 | after adding or re-adding, the index reflects the documents with the new one |
| `Bm25Index.InvertedIndex.Remove` | src/annex/text/bm25.py:69-79 | after removing, the index reflects the documents without it |
| `Bm25Index.InvertedIndex.Search` | src/annex/text/bm25.py:82-112 | the ranked hits and scores are those of scoring the surviving documents from scratch |

## Left out

- RaftTheorems.LeaderCompleteness: asks for disciplined runs, because the property is false of the code as written. The condition is on single steps, each with its own if and only if; whether a run with a careless step goes wrong depends on what happens after it.
- RaftTheorems.StateMachineSafety: asks for disciplined runs, for the same reason.
- RaftTheorems.Convergence: asks for disciplined runs, for the same reason.
- RaftTheorems.SuccessTrueIffCareful: speaks of followers that have not gone beyond the leader's term; one that has may have got the entries from a later leader, or lost them to it.
- RaftTheorems.KnownSuccessCareful: sufficient only, for an acknowledgement may not have reached the leader yet.
- RaftFolding.CompactTransparent: the hint of a refusal is left out, for it is looked for in the log and may stop at the cut.
- RaftCompaction.WindowAlways: asks that no message contradict what the replica has committed, which is state machine safety, and that appends are numbered and snapshots have a term, as leaders send them.
- RaftCompaction.SnapshotConverges: the follower has committed nothing at or beyond the cut, and its entries match the leader's of the same index and term, which is log matching; both replicas are taken by themselves.
- RaftCompaction.AppendWindow: the entries may not conflict with committed ones; in a cluster this is state machine safety, which is proved with compaction off.
- RaftCompaction.InstallWindow: the snapshot may not conflict with what is committed, for the same reason.
- RaftCompaction.InstalledConverges: the follower has applied nothing past the snapshot; restoring an older snapshot over newer state rewinds the documents but not the applied index.
- StateMachine.CollectionStateMachine.Apply: the error for an unknown command, and vectors normalised again on restore, are not modelled.
- LsmStore.Store.Put: always draws the next sequence number; an explicit older one is not modelled.
- LsmStore.Store.constructor: the dimension check and unreadable manifests are not modelled.
- LsmLog.CrashedLog: entries fit the fields of a frame; the error for larger ones is not modelled. LsmBytes asks the same of the operations of a run.
- HnswBeam.SearchLayer: adjacency lists have no duplicates, which insertion guarantees; results are a set, not a list in heap order, and which of several results at the same distance are kept is left open.
- RaftRepair.RepairAlways: no other message comes between, and compaction is off; a follower behind the cut is the case of RaftCompaction.SnapshotConverges.
- LsmEffects.TidyWithoutCrashes: a crash between an append and the flush it triggers leaves a longer memtable, and one between manifest and unlinks leaves files that nothing lists, which the store never removes.
- LsmStore.Store.Flush: the name of the new segment is a parameter, not a result.
- HnswGraph.Hnsw.Add: fresh keys only; overwriting a key can leave links to it on other nodes.
- HnswGraph.Hnsw.Search: an exact space only; the second ranking over compressed vectors is not modelled.
- VersionedCollection.Collection.Put: the vector index and the text index are updated beside the table and are modelled on their own, and so is the store, which DurableCollection ties to the table on values; the infinite sentinel for a live version is an absent value.
- DurableCollection.DurableMap: contents are as stored, after validation and normalisation; the same of indexes as above.
- Lloyd.Train: the random draw of starting centres is a parameter.
- Quantizer.Trained.Train: subsampling of large training sets is not modelled.
- Bm25Index.InvertedIndex.Search: exact reals, and parameters with k1 >= 0 and 0 <= b <= 1.
- Membership changes: adopted members are not restored on truncation, and overlapping changes are allowed.
- Restarts of a Raft node: it persists nothing. Compaction inside the cluster theorems: one replica at a time instead.
- Loss of unsynced bytes on a machine crash, and the strength of the checksum: the process-crash model is used.
- The byte layout of segments, JSON, UTF-8 and floats: opaque bytes. Rows of a segment are a map, so their order on disk is not modelled.
- Transactions, index rebuild, lock-free readers racing a writer: writes are atomic here.
- Recall of the graph, connectivity after pruning, floating-point rounding.
- Wire codec, transports, service, simulator, server, command line, benchmarks, tokenizer, filters, planner, rank fusion: input and output, heuristics or easy members.
