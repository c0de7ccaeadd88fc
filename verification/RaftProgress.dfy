/**
 * What the steps of a replica achieve: the commit rule commits all it may, a proposal ends up where it
 * is said to, a quorum of votes makes a leader, and a refusal names the whole conflicting term.
 */
module RaftProgress {
  import opened Options
  import opened Replication
  import opened RaftModel
  import opened RaftElection
  import opened RaftLog

  // ---------------------------------------------------------- the commit rule

  /** An index of the leader's own term that the leader and its match indexes put on a quorum. */
  predicate HeldByQuorum(cfg: Config, n: Node, j: nat) {
    n.TermAt(j) == n.term && 1 + |Replicas(n, j)| >= cfg.Quorum()
  }

  /** No index that may be committed is left uncommitted. */
  predicate NothingHeldBack(cfg: Config, n: Node) {
    forall j | n.commit < j <= n.LastIndex() :: !HeldByQuorum(cfg, n, j)
  }

  lemma {:induction false} QuorumIndexHighest(cfg: Config, n: Node, index: nat, j: nat)
    requires Max(n.commit, QuorumIndex(cfg, n, index)) < j <= index
    ensures !HeldByQuorum(cfg, n, j)
    decreases index
  {
    if j < index {
      QuorumIndexHighest(cfg, n, index - 1, j);
    }
  }

  lemma {:induction false} QuorumIndexHeld(cfg: Config, n: Node, index: nat)
    ensures
      var k := QuorumIndex(cfg, n, index);
      k == n.commit || (n.commit < k <= index && HeldByQuorum(cfg, n, k))
    decreases index
  {
    if index > n.commit && !HeldByQuorum(cfg, n, index) {
      QuorumIndexHeld(cfg, n, index - 1);
    }
  }

  /** The commit index only moves to an index that a quorum holds, and to the highest. */
  lemma AdvanceHighest(cfg: Config, n: Node)
    ensures
      var m := AdvanceCommit(cfg, n);
      && NothingHeldBack(cfg, m)
      && (m.commit == n.commit || (n.commit < m.commit <= n.LastIndex() && HeldByQuorum(cfg, n, m.commit)))
      && m.log == n.log && m.match_ == n.match_ && m.next == n.next && m.term == n.term && m.role == n.role
      && m.snapIndex == n.snapIndex && m.snapTerm == n.snapTerm
  {
    var m, k := AdvanceCommit(cfg, n), QuorumIndex(cfg, n, n.LastIndex());
    QuorumIndexHeld(cfg, n, n.LastIndex());
    ApplyCommittedFrame(n.(commit := k));
    forall j | m.commit < j <= m.LastIndex() ensures !HeldByQuorum(cfg, m, j) {
      QuorumIndexHighest(cfg, n, n.LastIndex(), j);
      assert m.TermAt(j) == n.TermAt(j) && Replicas(m, j) == Replicas(n, j);
    }
  }

  /** After a reply has been taken in, the leader has committed all that its match indexes allow. */
  lemma ReplyAdvances(cfg: Config, n: Node, m: Message)
    requires n.role == Leader && ((m.AppendReply? && m.success) || m.InstallReply?)
    requires m.term <= n.term && !Stale(cfg.guards, n, m.term)
    ensures
      var r := if m.AppendReply? then OnAppendReply(cfg, n, m).node else OnInstallReply(cfg, n, m).node;
      && NothingHeldBack(cfg, r) && r.match_ == n.match_[m.follower := m.matchIndex]
      && r.next == n.next[m.follower := m.matchIndex + 1] && r.log == n.log && n.commit <= r.commit
      && (m.InstallReply? ==> OnInstallReply(cfg, n, m).out == {AppendTo(cfg, r, m.follower)})
  {
    AdvanceHighest(cfg, Progress(n, m.follower, m.matchIndex));
  }

  // ---------------------------------------------------------------- proposals

  /** The index that a client is told is where its command is, at the end of the log and in the leader's term. */
  lemma ProposeAt(cfg: Config, n: Node, command: Command)
    requires n.LastIndex() == n.snapIndex + |n.log|
    ensures
      var (m, index) := Propose(cfg, n, command);
      && (index.None? <==> n.role != Leader) && (index.None? ==> m == n)
      && (index.Some? ==>
            && index.value == m.LastIndex() == n.LastIndex() + 1
            && m.EntryAt(index.value) == Some(Entry(n.term, index.value, command))
            && (forall i: nat | i <= n.LastIndex() :: m.EntryAt(i) == n.EntryAt(i))
            && m.commit == if cfg.Peers() == {} then index.value else n.commit)
  {
    if n.role == Leader {
      var e := Entry(n.term, n.LastIndex() + 1, command);
      ApplyCommittedFrame(n.(log := n.log + [e], commit := e.index));
    }
  }

  // ---------------------------------------------------------------- elections

  /** The candidate's log is at least as good: its last entry is of a later term, or of the same and no shorter. */
  predicate AtLeastAsGood(a: seq<Entry>, b: seq<Entry>) {
    b == [] || (a != [] &&
      (a[|a| - 1].term > b[|b| - 1].term || (a[|a| - 1].term == b[|b| - 1].term && |a| >= |b|)))
  }

  predicate PositiveTerms(log: seq<Entry>) {
    forall e <- log :: e.term > 0
  }

  /** A replica that stands asks every peer for its vote, in the next term, with the end of its log; alone, it leads at once. */
  lemma ElectionAsks(cfg: Config, n: Node)
    ensures
      var o := StartElection(cfg, n);
      && o.node.term == n.term + 1 && o.node.votedFor == Some(cfg.id) && o.node.votes == {cfg.id} && o.node.log == n.log
      && (cfg.Peers() == {} ==> o.node.role == Leader && o.node.leaderId == Some(cfg.id) && o.out == {})
      && (cfg.Peers() != {} ==> o.node.role == Candidate && o.node.leaderId == None)
      && (forall e <- o.out :: e.dst in cfg.Peers() && e == Envelope(cfg.id, e.dst, RequestVote(n.term + 1, cfg.id, n.LastIndex(), n.LastTerm())))
      && forall p <- cfg.Peers() :: exists e <- o.out :: e.dst == p
  {
    var o := StartElection(cfg, n);
    forall p <- cfg.Peers() ensures exists e <- o.out :: e.dst == p {
      assert Envelope(cfg.id, p, RequestVote(n.term + 1, cfg.id, n.LastIndex(), n.LastTerm())) in o.out;
    }
  }

  /**
   * A vote is granted exactly if the candidate's term is not behind, no other candidate has the vote in
   * that term, and the candidate's log is as good as the voter's.
   */
  lemma GrantedIff(cfg: Config, n: Node, c: Node, src: NodeId)
    requires n.snapIndex == 0 && n.snapTerm == 0 && Contiguous(n.log) && PositiveTerms(n.log)
    requires c.snapIndex == 0 && c.snapTerm == 0 && Contiguous(c.log) && PositiveTerms(c.log)
    ensures
      var o := OnRequestVote(cfg, n, src, RequestVote(c.term, src, c.LastIndex(), c.LastTerm()));
      var free := c.term > n.term || (c.term == n.term && (n.votedFor == None || n.votedFor == Some(src)));
      var granted := free && AtLeastAsGood(c.log, n.log);
      && o.out == {Envelope(cfg.id, src, VoteReply(Max(n.term, c.term), granted, cfg.id))}
      && o.node.term == Max(n.term, c.term) && o.node.log == n.log
      && (c.term > n.term ==> o.node.role == Follower)
      && o.node.votedFor == if granted then Some(src) else if c.term > n.term then None else n.votedFor
  {
    LogIndices(n);
    LogIndices(c);
    assert n.log != [] ==> n.log[|n.log| - 1] in n.log;
    assert c.log != [] ==> c.log[|c.log| - 1] in c.log;
  }

  /** A candidate takes in granted votes, one by one. */
  function TakeVotes(cfg: Config, n: Node, voters: seq<NodeId>): Node {
    if voters == [] then n
    else OnVoteReply(cfg, TakeVotes(cfg, n, voters[..|voters| - 1]), VoteReply(n.term, true, voters[|voters| - 1])).node
  }

  function Voters(s: seq<NodeId>): set<NodeId> {
    set v | v in s
  }

  /** A candidate with votes from itself and `s`: it leads if they are a quorum. */
  predicate Counting(cfg: Config, n: Node, s: set<NodeId>, m: Node) {
    && m.term == n.term && m.log == n.log && m.commit == n.commit
    && if |n.votes + s| >= cfg.Quorum() then m.role == Leader else m.role == Candidate && m.votes == n.votes + s
  }

  lemma CountOne(cfg: Config, n: Node, s: set<NodeId>, v: NodeId, m: Node)
    requires Counting(cfg, n, s, m)
    ensures Counting(cfg, n, s + {v}, OnVoteReply(cfg, m, VoteReply(n.term, true, v)).node)
  {
    assert n.votes + (s + {v}) == n.votes + s + {v};
    NoFewer(n.votes + s, n.votes + s + {v});
  }

  /** It leads from the vote that makes a quorum on, and not before; a vote counts once. */
  lemma {:induction false} ElectedByQuorum(cfg: Config, n: Node, voters: seq<NodeId>)
    requires n.role == Candidate && |n.votes| < cfg.Quorum()
    ensures Counting(cfg, n, Voters(voters), TakeVotes(cfg, n, voters))
    decreases |voters|
  {
    if voters == [] {
      assert n.votes + Voters([]) == n.votes;
    } else {
      var before, v := voters[..|voters| - 1], voters[|voters| - 1];
      ElectedByQuorum(cfg, n, before);
      VotersMore(before, v);
      assert voters == before + [v];
      CountOne(cfg, n, Voters(before), v, TakeVotes(cfg, n, before));
    }
  }

  lemma VotersMore(before: seq<NodeId>, v: NodeId)
    ensures Voters(before + [v]) == Voters(before) + {v}
  {}

  lemma NoFewer(a: set<NodeId>, b: set<NodeId>)
    requires a <= b
    ensures |a| <= |b|
  {
    assert b == a + (b - a);
  }

  /** The new leader tells every peer, with nothing to append yet, at the end of its log. */
  lemma ElectedAnnounces(cfg: Config, n: Node, voter: NodeId)
    requires n.role == Candidate && |n.votes + {voter}| >= cfg.Quorum()
    ensures
      var o := OnVoteReply(cfg, n, VoteReply(n.term, true, voter));
      && o.node.role == Leader && o.node.leaderId == Some(cfg.id)
      && o.out == Broadcast(cfg, o.node)
      && forall p <- cfg.Peers() :: p in o.node.next && o.node.next[p] == n.LastIndex() + 1 && p in o.node.match_ && o.node.match_[p] == 0
  {}

  // ------------------------------------------------------- what a leader ships

  /** The log reaches from the cut to its last index without gaps. */
  predicate Gapless(n: Node) {
    forall i | 0 <= i < |n.log| :: n.log[i].index == n.snapIndex + 1 + i
  }

  /**
   * To every peer goes one message: everything from its next index to the end of the log, on the term
   * before it, or the snapshot, exactly if that index has been compacted away.
   */
  lemma ShipsAll(cfg: Config, n: Node, p: NodeId)
    requires Gapless(n) && n.role == Leader && p in cfg.Peers() && 0 < NextOf(n, p) <= n.LastIndex() + 1
    ensures
      var e := AppendTo(cfg, n, p);
      && e in Heartbeat(cfg, n).out && e.src == cfg.id && e.dst == p && e.msg.term == n.term
      && (NextOf(n, p) <= n.snapIndex <==> e.msg.InstallSnapshot?)
      && (e.msg.InstallSnapshot? ==> e.msg == InstallSnapshot(n.term, cfg.id, n.snapIndex, n.snapTerm, n.snapData))
      && (!e.msg.InstallSnapshot? ==>
            && e.msg.Append? && e.msg.leader == cfg.id && e.msg.commit == n.commit
            && e.msg.prevIndex + 1 == NextOf(n, p) && e.msg.prevTerm == n.TermAt(e.msg.prevIndex)
            && e.msg.prevIndex + |e.msg.entries| == n.LastIndex()
            && forall i | 0 <= i < |e.msg.entries| :: n.EntryAt(NextOf(n, p) + i) == Some(e.msg.entries[i]))
  {
    var prev := NextOf(n, p) - 1;
    assert n.LastIndex() == n.snapIndex + |n.log|;
  }

  /** A heartbeat sends nothing else. */
  lemma ShipsOnly(cfg: Config, n: Node)
    ensures forall e <- Heartbeat(cfg, n).out :: n.role == Leader && e.dst in cfg.Peers() && e == AppendTo(cfg, n, e.dst)
  {}

  // ------------------------------------------------------------ every message

  /** Whatever message comes, the replica's term afterwards is the higher of the two, and a higher term makes a follower. */
  lemma TermCatchesUp(cfg: Config, n: Node, e: Envelope)
    ensures
      var o := Handle(cfg, n, e);
      o.node.term == Max(n.term, e.msg.term) && (e.msg.term > n.term ==> o.node.role == Follower)
  {
    match e.msg
    case RequestVote(_, _, _, _) =>
    case VoteReply(_, _, _) =>
    case Append(_, _, _, _, _, _) =>
      var n1 := Recognise(n, e.msg.term, e.msg.leader);
      LearnFrame(n1.(log := MergeEntries(n1.snapIndex, n1.log, e.msg.entries)), e.msg.commit);
    case AppendReply(_, _, _, _, _) => AdvanceFrame(cfg, Progress(n, e.msg.follower, e.msg.matchIndex));
    case InstallSnapshot(_, _, _, _, _) =>
    case InstallReply(_, _, _) => AdvanceFrame(cfg, Progress(n, e.msg.follower, e.msg.matchIndex));
  }

  /** A request is answered by one message, to its sender, in the replica's new term. */
  lemma RequestsAnswered(cfg: Config, n: Node, e: Envelope)
    requires e.msg.RequestVote? || e.msg.Append? || e.msg.InstallSnapshot?
    ensures
      var o := Handle(cfg, n, e);
      exists reply: Envelope ::
        && o.out == {reply} && reply.src == cfg.id && reply.dst == e.src && reply.msg.term == o.node.term
        && (e.msg.RequestVote? ==> reply.msg.VoteReply? && reply.msg.voter == cfg.id)
        && (e.msg.Append? ==> reply.msg.AppendReply? && reply.msg.follower == cfg.id && (e.msg.term < n.term ==> !reply.msg.success && o.node == n))
        && (e.msg.InstallSnapshot? ==> reply.msg.InstallReply? && reply.msg.follower == cfg.id && reply.msg.matchIndex == o.node.snapIndex)
        && (!e.msg.RequestVote? && e.msg.term >= n.term ==> o.node.leaderId == Some(e.msg.leader) && o.node.role == Follower)
  {
    TermCatchesUp(cfg, n, e);
    if e.msg.Append? && e.msg.term >= n.term {
      Recognised(cfg, n, e.src, e.msg);
    }
    var o := Handle(cfg, n, e);
    var reply :| reply in o.out;
    assert o.out == {reply};
  }

  lemma Recognised(cfg: Config, n: Node, src: NodeId, m: Message)
    requires m.Append? && m.term >= n.term
    ensures
      var o := OnAppend(cfg, n, src, m).node;
      o.leaderId == Some(m.leader) && o.role == Follower
  {
    var n1 := Recognise(n, m.term, m.leader);
    var n2 := n1.(log := MergeEntries(n1.snapIndex, n1.log, m.entries));
    ApplyCommittedFrame(n2.(commit := Min(m.commit, n2.LastIndex())));
  }

  // ------------------------------------------------------------------ back-off

  lemma {:induction false} BackOffRange(n: Node, conflict: nat, badTerm: nat)
    requires conflict > 0 && n.TermAt(conflict) == badTerm
    ensures
      var c := BackOff(n, conflict, badTerm);
      && 0 < c <= conflict && (forall i | c <= i <= conflict :: n.TermAt(i) == badTerm)
      && (c == 1 || n.TermAt(c - 1) != badTerm)
    decreases conflict
  {
    if conflict > 1 && n.TermAt(conflict - 1) == badTerm {
      BackOffRange(n, conflict - 1, badTerm);
    }
  }

  /**
   * The hint of a refusal: the end of the follower's log, if the append looked beyond it; otherwise the
   * first index of the unbroken stretch of the term that the follower holds where the append looked.
   */
  lemma ConflictIs(n: Node, prev: nat)
    requires prev > 0
    ensures
      var c := Conflict(n, prev);
      && (prev > n.LastIndex() ==> c == n.LastIndex() + 1)
      && (prev <= n.LastIndex() ==>
            && 0 < c <= prev && (forall i | c <= i <= prev :: n.TermAt(i) == n.TermAt(prev))
            && (c == 1 || n.TermAt(c - 1) != n.TermAt(prev)))
  {
    if prev <= n.LastIndex() {
      BackOffRange(n, prev, n.TermAt(prev));
    }
  }

  /** A refusal sets the next index to the hint; without one it is a step back, but never below 1. */
  lemma RefusalSets(cfg: Config, n: Node, m: Message)
    requires m.AppendReply? && !m.success && n.role == Leader && m.term <= n.term && !Stale(cfg.guards, n, m.term)
    ensures
      var o, at := OnAppendReply(cfg, n, m), if m.follower in n.next then n.next[m.follower] else 1;
      && o.node == n.(next := n.next[m.follower := if m.conflict != 0 then m.conflict else if at >= 2 then at - 1 else 1])
      && o.out == {AppendTo(cfg, o.node, m.follower)}
  {}
}
