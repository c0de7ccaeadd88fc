/**
 * A cluster of replicas over an unreliable network, and its runs.
 *
 * The network is the set of all messages ever sent: a message may be delivered late, several times
 * or never.  A run is a sequence of actions; an action that is not enabled changes nothing.
 */
module RaftCluster {
  import opened Options
  import opened Replication
  import opened RaftModel

  /** The fixed membership and the variant of the protocol. */
  datatype Setting = Setting(members: set<NodeId>, guards: Guards) {
    function Of(p: NodeId): Config { Config(p, members, guards) }
  }

  datatype Cluster = Cluster(nodes: map<NodeId, Node>, net: set<Envelope>)

  datatype Action =
    | Timeout(node: NodeId)
    | Beat(node: NodeId)
    | Submit(node: NodeId, command: Command)
    | Deliver(envelope: Envelope)

  function Boot(s: Setting): Cluster {
    Cluster(map p | p in s.members :: FRESH, {})
  }

  /** Installs a replica's reaction in the cluster. */
  function Update(c: Cluster, p: NodeId, o: Outcome): Cluster {
    Cluster(c.nodes[p := o.node], c.net + o.out)
  }

  predicate Enabled(c: Cluster, a: Action) {
    match a
    case Timeout(p) => p in c.nodes && c.nodes[p].role != Leader
    case Beat(p) => p in c.nodes && c.nodes[p].role == Leader
    case Submit(p, _) => p in c.nodes && c.nodes[p].role == Leader
    case Deliver(e) => e in c.net && e.dst in c.nodes
  }

  function Actor(a: Action): NodeId {
    match a
    case Timeout(p) => p
    case Beat(p) => p
    case Submit(p, _) => p
    case Deliver(e) => e.dst
  }

  function React(s: Setting, c: Cluster, a: Action): Outcome
    requires Enabled(c, a)
  {
    match a
    case Timeout(p) => StartElection(s.Of(p), c.nodes[p])
    case Beat(p) => Heartbeat(s.Of(p), c.nodes[p])
    case Submit(p, command) => Outcome(Propose(s.Of(p), c.nodes[p], command).0, {})
    case Deliver(e) => Handle(s.Of(e.dst), c.nodes[e.dst], e)
  }

  function Step(s: Setting, c: Cluster, a: Action): Cluster {
    if Enabled(c, a) then Update(c, Actor(a), React(s, c, a)) else c
  }

  function Exec(s: Setting, run: seq<Action>): Cluster {
    if run == [] then Boot(s) else Step(s, Exec(s, run[..|run| - 1]), run[|run| - 1])
  }

  /** What a leader's term leaves behind: who led, who voted, and the log at election and since. */
  datatype Reign = Reign(id: NodeId, quorum: set<NodeId>, base: seq<Entry>, log: seq<Entry>)

  /** A vote cast before its term had a leader, with the voter's log at that moment. */
  datatype Ballot = Ballot(term: nat, voter: NodeId, candidate: NodeId,
                           lastIndex: nat, lastTerm: nat, log: seq<Entry>)

  datatype History = History(reigns: map<nat, Reign>, ballots: set<Ballot>)

  /** The bookkeeping of one step; it never influences the cluster. */
  function Reigning(h: History, p: NodeId, n: Node): map<nat, Reign> {
    if n.role != Leader then h.reigns
    else if n.term in h.reigns then h.reigns[n.term := h.reigns[n.term].(log := n.log)]
    else h.reigns[n.term := Reign(p, n.votes, n.log, n.log)]
  }

  function Cast(h: History, c: Cluster, a: Action): set<Ballot>
    requires Enabled(c, a)
  {
    match a
    case Timeout(p) =>
      var n := c.nodes[p];
      if n.term + 1 in h.reigns then {}
      else {Ballot(n.term + 1, p, p, n.LastIndex(), n.LastTerm(), n.log)}
    case Deliver(e) =>
      var n := c.nodes[e.dst];
      if e.msg.RequestVote? && e.msg.term !in h.reigns && Grants(CatchUp(n, e.msg.term), e.msg) then
        {Ballot(e.msg.term, e.dst, e.msg.candidate, e.msg.lastIndex, e.msg.lastTerm, n.log)}
      else {}
    case Beat(_) => {}
    case Submit(_, _) => {}
  }

  function Record(s: Setting, c: Cluster, h: History, a: Action): History {
    if !Enabled(c, a) then h
    else History(Reigning(h, Actor(a), React(s, c, a).node), h.ballots + Cast(h, c, a))
  }

  function Chronicle(s: Setting, run: seq<Action>): History {
    if run == [] then History(map[], {})
    else
      var before := run[..|run| - 1];
      Record(s, Exec(s, before), Chronicle(s, before), run[|run| - 1])
  }

  // ------------------------------------------------------------- careful steps

  predicate Accepts(n: Node, m: Message)
    requires m.Append?
  {
    m.term >= n.term && PrefixMatches(Recognise(n, m.term, m.leader), m)
  }

  /**
   * The acknowledgement covers no entry the leader did not vouch for: the follower's log ends where
   * the shipped range ends, or in an entry of the leader's own term.
   */
  predicate CarefulAck(g: Guards, n: Node, m: Message)
    requires m.Append?
  {
    g.ackPrefix || n.LastIndex() == m.prevIndex + |m.entries| || n.LastTerm() == m.term
  }

  /** `w` acknowledges, in term `t`, the first `k` entries or more. */
  predicate IsAck(e: Envelope, t: nat, w: NodeId, k: nat) {
    e.src == w && e.msg.AppendReply? && e.msg.success && e.msg.term == t && k <= e.msg.matchIndex
  }

  /** The first `k` entries are part of the log the leader was elected with: the commit rule never counts them. */
  predicate Inherited(n: Node, k: nat) {
    k <= n.LastIndex() && n.TermAt(k) < n.term
  }

  /**
   * A reply to an earlier term that a leader can take in without harm.  A success may claim what the
   * leader was elected with, or what the follower has acknowledged in this term as well; a refusal
   * may not point beyond the end of the leader's log.
   */
  predicate CarefulReply(g: Guards, net: set<Envelope>, n: Node, m: Message)
    requires m.AppendReply?
  {
    || g.dropStale || n.role != Leader || m.term >= n.term
    || (m.success && (Inherited(n, m.matchIndex) || exists e <- net :: IsAck(e, n.term, m.follower, m.matchIndex)))
    || (!m.success && m.conflict <= n.LastIndex() + 1)
  }

  /** A step that acknowledges nothing false and believes nothing that may be, whatever the variant. */
  predicate Careful(s: Setting, c: Cluster, a: Action)
    requires Enabled(c, a)
  {
    a.Deliver? ==>
      var e := a.envelope;
      var n := c.nodes[e.dst];
      && (e.msg.Append? && Accepts(n, e.msg) ==> CarefulAck(s.guards, OnAppend(s.Of(e.dst), n, e.src, e.msg).node, e.msg))
      && (e.msg.AppendReply? ==> CarefulReply(s.guards, c.net, n, e.msg))
  }

  predicate Disciplined(s: Setting, run: seq<Action>) {
    run == [] ||
      var before, a := run[..|run| - 1], run[|run| - 1];
      Disciplined(s, before) && (Enabled(Exec(s, before), a) ==> Careful(s, Exec(s, before), a))
  }

  /** With both guards in place every run is disciplined. */
  lemma {:induction false} IntendedDisciplined(s: Setting, run: seq<Action>)
    requires s.guards == INTENDED
    ensures Disciplined(s, run)
    decreases |run|
  {
    if run != [] {
      IntendedDisciplined(s, run[..|run| - 1]);
    }
  }
}
