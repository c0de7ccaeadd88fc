/**
 * One Raft replica as a value, and every step it can take (cluster/raft.py).
 *
 * Each function maps the replica's state and one stimulus to the new state and the messages it
 * sends.  Timers and random deadlines are left to the environment: it decides when a step happens.
 * The membership is fixed, so configuration entries do not occur.
 */
module RaftModel {
  import opened Options
  import opened Replication

  type NodeId = nat

  datatype Entry = Entry(term: nat, index: nat, command: Command)

  datatype Role = Follower | Candidate | Leader

  datatype Message =
    | RequestVote(term: nat, candidate: NodeId, lastIndex: nat, lastTerm: nat)
    | VoteReply(term: nat, granted: bool, voter: NodeId)
    | Append(term: nat, leader: NodeId, prevIndex: nat, prevTerm: nat, entries: seq<Entry>, commit: nat)
    | AppendReply(term: nat, success: bool, follower: NodeId, matchIndex: nat, conflict: nat)
    | InstallSnapshot(term: nat, leader: NodeId, lastIndex: nat, lastTerm: nat, data: Option<Documents>)
    | InstallReply(term: nat, follower: NodeId, matchIndex: nat)

  datatype Envelope = Envelope(src: NodeId, dst: NodeId, msg: Message)

  /**
   * The two places where the code departs from Figure 2 of the Raft paper.
   * `ackPrefix`: an acknowledgement certifies only the prefix that was checked, not the follower's
   * own last index.  `dropStale`: a leader ignores replies that answer an earlier term.
   */
  datatype Guards = Guards(ackPrefix: bool, dropStale: bool)

  const AS_CODED := Guards(false, false)
  const INTENDED := Guards(true, true)

  /** The constants of one replica. */
  datatype Config = Config(id: NodeId, members: set<NodeId>, guards: Guards) {
    function Peers(): set<NodeId> { members - {id} }

    function Quorum(): nat { |members| / 2 + 1 }
  }

  datatype Node = Node(
    role: Role, term: nat, votedFor: Option<NodeId>, votes: set<NodeId>, leaderId: Option<NodeId>,
    log: seq<Entry>, commit: nat, lastApplied: nat, applied: seq<Command>, docs: Documents,
    snapIndex: nat, snapTerm: nat, snapData: Option<Documents>,
    next: map<NodeId, nat>, match_: map<NodeId, nat>)
  {
    function LastIndex(): nat { if log == [] then snapIndex else log[|log| - 1].index }

    function LastTerm(): nat { if log == [] then snapTerm else log[|log| - 1].term }

    function EntryAt(index: nat): Option<Entry> {
      var pos := index - snapIndex - 1;
      if pos < 0 || pos >= |log| then None else Some(log[pos])
    }

    function TermAt(index: nat): nat {
      if index == snapIndex then snapTerm
      else match EntryAt(index) case Some(e) => e.term case None => 0
    }
  }

  /** A replica's reaction: its new state and what it sends. */
  datatype Outcome = Outcome(node: Node, out: set<Envelope>)

  const FRESH := Node(Follower, 0, None, {}, None, [], 0, 0, [], map[], 0, 0, None, map[], map[])

  // ---------------------------------------------------------------- elections

  function BecomeFollower(n: Node, term: nat): Node {
    n.(role := Follower, term := term, votedFor := None, votes := {})
  }

  function BecomeLeader(cfg: Config, n: Node): Node {
    n.(role := Leader, leaderId := Some(cfg.id),
       next := map p | p in cfg.Peers() :: n.LastIndex() + 1,
       match_ := map p | p in cfg.Peers() :: 0)
  }

  /** A candidate: next term, one vote (its own), no known leader. */
  function BecomeCandidate(cfg: Config, n: Node): Node {
    n.(role := Candidate, term := n.term + 1, votedFor := Some(cfg.id), votes := {cfg.id}, leaderId := None)
  }

  function StartElection(cfg: Config, n: Node): Outcome {
    var m := BecomeCandidate(cfg, n);
    if cfg.Peers() == {} then Outcome(BecomeLeader(cfg, m), {})
    else
      var ask := RequestVote(m.term, cfg.id, m.LastIndex(), m.LastTerm());
      Outcome(m, set p | p in cfg.Peers() :: Envelope(cfg.id, p, ask))
  }

  predicate UpToDate(lastIndex: nat, lastTerm: nat, n: Node) {
    lastTerm > n.LastTerm() || (lastTerm == n.LastTerm() && lastIndex >= n.LastIndex())
  }

  predicate Grants(n: Node, m: Message)
    requires m.RequestVote?
  {
    && m.term == n.term
    && (n.votedFor == None || n.votedFor == Some(m.candidate))
    && UpToDate(m.lastIndex, m.lastTerm, n)
  }

  /** The replica after it has caught up with the term of a message. */
  function CatchUp(n: Node, term: nat): Node {
    if term > n.term then BecomeFollower(n, term) else n
  }

  function OnRequestVote(cfg: Config, n: Node, src: NodeId, m: Message): Outcome
    requires m.RequestVote?
  {
    var n1 := CatchUp(n, m.term);
    var granted := Grants(n1, m);
    var n2 := if granted then n1.(votedFor := Some(m.candidate)) else n1;
    Outcome(n2, {Envelope(cfg.id, src, VoteReply(n2.term, granted, cfg.id))})
  }

  function OnVoteReply(cfg: Config, n: Node, m: Message): Outcome
    requires m.VoteReply?
  {
    if m.term > n.term then Outcome(BecomeFollower(n, m.term), {})
    else if n.role != Candidate || m.term != n.term || !m.granted then Outcome(n, {})
    else
      var n1 := n.(votes := n.votes + {m.voter});
      if |n1.votes| >= cfg.Quorum() then
        var n2 := BecomeLeader(cfg, n1);
        Outcome(n2, Broadcast(cfg, n2))
      else Outcome(n1, {})
  }

  // -------------------------------------------------------------- replication

  function NextOf(n: Node, peer: NodeId): nat {
    if peer in n.next then n.next[peer] else n.LastIndex() + 1
  }

  /** The append a leader owes a peer: the whole suffix from its next index, or a snapshot. */
  function AppendTo(cfg: Config, n: Node, peer: NodeId): Envelope {
    var prev := NextOf(n, peer) - 1;
    if prev < n.snapIndex then
      Envelope(cfg.id, peer, InstallSnapshot(n.term, cfg.id, n.snapIndex, n.snapTerm, n.snapData))
    else
      var from := prev - n.snapIndex;
      var entries := if from <= |n.log| then n.log[from..] else [];
      Envelope(cfg.id, peer, Append(n.term, cfg.id, prev, n.TermAt(prev), entries, n.commit))
  }

  function Broadcast(cfg: Config, n: Node): set<Envelope> {
    set p | p in cfg.Peers() :: AppendTo(cfg, n, p)
  }

  function Heartbeat(cfg: Config, n: Node): Outcome {
    if n.role == Leader then Outcome(n, Broadcast(cfg, n)) else Outcome(n, {})
  }

  /** The follower's loop over the entries of an append: skip, keep, truncate and append. */
  function MergeEntries(snapIndex: nat, log: seq<Entry>, entries: seq<Entry>): seq<Entry>
    decreases |entries|
  {
    if entries == [] then log
    else MergeEntries(snapIndex, MergeOne(snapIndex, log, entries[0]), entries[1..])
  }

  function MergeOne(snapIndex: nat, log: seq<Entry>, e: Entry): seq<Entry> {
    if e.index <= snapIndex then log
    else
      var pos := e.index - snapIndex - 1;
      if pos >= |log| then log + [e]
      else if log[pos].term != e.term then log[..pos] + [e]
      else log
  }

  /** The back-off hint: the first index that holds the conflicting term. */
  function BackOff(n: Node, conflict: nat, badTerm: nat): nat {
    if conflict > 1 && n.TermAt(conflict - 1) == badTerm then BackOff(n, conflict - 1, badTerm) else conflict
  }

  function Conflict(n: Node, prevIndex: nat): nat {
    var conflict := Min(prevIndex, n.LastIndex() + 1);
    if 0 < conflict <= n.LastIndex() then BackOff(n, conflict, n.TermAt(conflict)) else conflict
  }

  /** Commands are applied one by one up to the commit index; a missing entry stops the loop. */
  function ApplyFrom(n: Node): Node
    decreases if n.commit >= n.lastApplied then n.commit - n.lastApplied else 0
  {
    if n.lastApplied >= n.commit then n
    else
      var i := n.lastApplied + 1;
      match n.EntryAt(i)
      case None => n.(lastApplied := i)
      case Some(e) =>
        ApplyFrom(n.(lastApplied := i, applied := n.applied + [e.command], docs := Apply(n.docs, e.command)))
  }

  function ApplyCommitted(n: Node): Node {
    ApplyFrom(n.(lastApplied := Max(n.lastApplied, n.snapIndex)))
  }

  /** The follower once it recognises the sender as the leader of its term. */
  function Recognise(n: Node, term: nat, leader: NodeId): Node {
    var n1 := if term > n.term || n.role != Follower then BecomeFollower(n, term) else n;
    n1.(leaderId := Some(leader))
  }

  predicate PrefixMatches(n: Node, m: Message)
    requires m.Append?
  {
    m.prevIndex > 0 ==> n.TermAt(m.prevIndex) == m.prevTerm
  }

  function LearnCommit(n: Node, commit: nat): Node {
    if commit > n.commit then ApplyCommitted(n.(commit := Min(commit, n.LastIndex()))) else n
  }

  /** What a successful append acknowledges. */
  function Acknowledged(g: Guards, n: Node, m: Message): nat
    requires m.Append?
  {
    if g.ackPrefix then m.prevIndex + |m.entries| else n.LastIndex()
  }

  function OnAppend(cfg: Config, n: Node, src: NodeId, m: Message): Outcome
    requires m.Append?
  {
    if m.term < n.term then Outcome(n, {Envelope(cfg.id, src, AppendReply(n.term, false, cfg.id, 0, 0))})
    else
      var n1 := Recognise(n, m.term, m.leader);
      if !PrefixMatches(n1, m) then
        Outcome(n1, {Envelope(cfg.id, src, AppendReply(n1.term, false, cfg.id, 0, Conflict(n1, m.prevIndex)))})
      else
        var n2 := n1.(log := MergeEntries(n1.snapIndex, n1.log, m.entries));
        var n3 := LearnCommit(n2, m.commit);
        Outcome(n3, {Envelope(cfg.id, src, AppendReply(n3.term, true, cfg.id, Acknowledged(cfg.guards, n3, m), 0))})
  }

  predicate Stale(g: Guards, n: Node, term: nat) {
    g.dropStale && term < n.term
  }

  function OnAppendReply(cfg: Config, n: Node, m: Message): Outcome
    requires m.AppendReply?
  {
    if m.term > n.term then Outcome(BecomeFollower(n, m.term), {})
    else if n.role != Leader || Stale(cfg.guards, n, m.term) then Outcome(n, {})
    else if m.success then
      var n1 := Progress(n, m.follower, m.matchIndex);
      Outcome(AdvanceCommit(cfg, n1), {})
    else
      var n1 := Retreat(n, m.follower, m.conflict);
      Outcome(n1, {AppendTo(cfg, n1, m.follower)})
  }

  function Progress(n: Node, follower: NodeId, matchIndex: nat): Node {
    n.(match_ := n.match_[follower := matchIndex], next := n.next[follower := matchIndex + 1])
  }

  function Retreat(n: Node, follower: NodeId, conflict: nat): Node {
    var back := if follower in n.next && n.next[follower] > 2 then n.next[follower] - 1 else 1;
    n.(next := n.next[follower := if conflict != 0 then conflict else back])
  }

  function Replicas(n: Node, index: nat): set<NodeId> {
    set p | p in n.match_ && n.match_[p] >= index
  }

  /** The highest index above the commit index, of the current term, that a quorum holds. */
  function QuorumIndex(cfg: Config, n: Node, index: nat): nat {
    if index <= n.commit then n.commit
    else if n.TermAt(index) == n.term && 1 + |Replicas(n, index)| >= cfg.Quorum() then index
    else QuorumIndex(cfg, n, index - 1)
  }

  function AdvanceCommit(cfg: Config, n: Node): Node {
    var k := QuorumIndex(cfg, n, n.LastIndex());
    if k > n.commit then ApplyCommitted(n.(commit := k)) else n
  }

  function Propose(cfg: Config, n: Node, command: Command): (Node, Option<nat>) {
    if n.role != Leader then (n, None)
    else
      var e := Entry(n.term, n.LastIndex() + 1, command);
      var n1 := n.(log := n.log + [e]);
      (if cfg.Peers() == {} then ApplyCommitted(n1.(commit := e.index)) else n1, Some(e.index))
  }

  // --------------------------------------------------------------- compaction

  function CompactTarget(n: Node, upTo: Option<nat>): nat {
    match upTo case Some(u) => Min(u, n.lastApplied) case None => n.lastApplied
  }

  function Compact(n: Node, upTo: Option<nat>): Node {
    var target := CompactTarget(n, upTo);
    if target <= n.snapIndex then n
    else
      var cut := target - n.snapIndex;
      n.(log := if cut <= |n.log| then n.log[cut..] else [],
         snapIndex := target, snapTerm := n.TermAt(target), snapData := Some(n.docs))
  }

  /** The log entries beyond an index, in order. */
  function Beyond(log: seq<Entry>, index: nat): seq<Entry> {
    if log == [] then []
    else
      var rest := Beyond(log[..|log| - 1], index);
      if log[|log| - 1].index > index then rest + [log[|log| - 1]] else rest
  }

  function Install(n: Node, m: Message): Node
    requires m.InstallSnapshot?
  {
    var kept := if n.TermAt(m.lastIndex) == m.lastTerm then Beyond(n.log, m.lastIndex) else [];
    n.(log := kept, snapIndex := m.lastIndex, snapTerm := m.lastTerm, snapData := m.data,
       commit := Max(n.commit, m.lastIndex), lastApplied := Max(n.lastApplied, m.lastIndex),
       docs := match m.data case Some(d) => d case None => n.docs)
  }

  function OnInstallSnapshot(cfg: Config, n: Node, src: NodeId, m: Message): Outcome
    requires m.InstallSnapshot?
  {
    if m.term < n.term then Outcome(n, {Envelope(cfg.id, src, InstallReply(n.term, cfg.id, n.snapIndex))})
    else
      var n1 := Recognise(n, m.term, m.leader);
      var n2 := if m.lastIndex > n1.snapIndex then Install(n1, m) else n1;
      Outcome(n2, {Envelope(cfg.id, src, InstallReply(n2.term, cfg.id, n2.snapIndex))})
  }

  function OnInstallReply(cfg: Config, n: Node, m: Message): Outcome
    requires m.InstallReply?
  {
    if m.term > n.term then Outcome(BecomeFollower(n, m.term), {})
    else if n.role != Leader || Stale(cfg.guards, n, m.term) then Outcome(n, {})
    else
      var n1 := AdvanceCommit(cfg, Progress(n, m.follower, m.matchIndex));
      Outcome(n1, {AppendTo(cfg, n1, m.follower)})
  }

  // ----------------------------------------------------------------- dispatch

  function Handle(cfg: Config, n: Node, e: Envelope): Outcome {
    match e.msg
    case RequestVote(_, _, _, _) => OnRequestVote(cfg, n, e.src, e.msg)
    case VoteReply(_, _, _) => OnVoteReply(cfg, n, e.msg)
    case Append(_, _, _, _, _, _) => OnAppend(cfg, n, e.src, e.msg)
    case AppendReply(_, _, _, _, _) => OnAppendReply(cfg, n, e.msg)
    case InstallSnapshot(_, _, _, _, _) => OnInstallSnapshot(cfg, n, e.src, e.msg)
    case InstallReply(_, _, _) => OnInstallReply(cfg, n, e.msg)
  }
}
