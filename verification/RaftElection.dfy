/**
 * Election safety: no two replicas ever lead the same term, for the code as written.
 *
 * A candidate that steps down within its term forgets its vote, so "one vote per term" is false
 * (RaftVotes).  What holds instead: a vote granted to somebody else is kept, by a follower, until the
 * voter leaves the term, and the first leader of a term leads until it leaves the term.
 */
module RaftElection {
  import opened Options
  import opened Replication
  import opened RaftModel
  import opened RaftCluster

  predicate Routed(s: Setting, e: Envelope) {
    && e.src in s.members && e.dst in s.members && e.src != e.dst
    && match e.msg
       case RequestVote(_, candidate, _, _) => candidate == e.src
       case VoteReply(_, _, voter) => voter == e.src
       case Append(_, leader, _, _, _, _) => leader == e.src
       case AppendReply(_, _, follower, _, _) => follower == e.src
       case InstallSnapshot(_, _, _, _, _) => false
       case InstallReply(_, _, _) => false
  }

  /** One replica on its own: nothing compacted, and a vote for itself whenever it is not a follower. */
  predicate NodeShape(s: Setting, p: NodeId, n: Node) {
    && n.snapIndex == 0 && n.snapTerm == 0
    && n.votes <= s.members
    && n.next.Keys <= s.members - {p} && n.match_.Keys <= s.members - {p}
    && (forall q <- n.next :: n.next[q] > 0)
    && (n.role != Follower ==> n.term > 0 && n.votedFor == Some(p) && p in n.votes)
    && (n.role == Leader ==> |n.votes| >= s.Of(p).Quorum())
  }

  predicate Shape(s: Setting, c: Cluster) {
    && c.nodes.Keys == s.members
    && (forall p <- s.members :: NodeShape(s, p, c.nodes[p]))
    && (forall e <- c.net :: Routed(s, e))
  }

  predicate IsGrant(e: Envelope) {
    e.msg.VoteReply? && e.msg.granted
  }

  /** The grant of `voter` to `candidate` in a term, as sent on the wire. */
  function Grant(term: nat, voter: NodeId, candidate: NodeId): Envelope {
    Envelope(voter, candidate, VoteReply(term, true, voter))
  }

  /** A voter keeps its grant, as a follower, for as long as it stays in the term. */
  ghost predicate GrantsKept(s: Setting, c: Cluster)
    requires c.nodes.Keys == s.members
  {
    forall t: nat, v: NodeId, q: NodeId :: Grant(t, v, q) in c.net ==>
      v in c.nodes && c.nodes[v].term >= t && (c.nodes[v].term == t ==> c.nodes[v].role == Follower && c.nodes[v].votedFor == Some(q))
  }

  ghost predicate GrantsUnique(c: Cluster) {
    forall t: nat, v: NodeId, q: NodeId, r: NodeId :: Grant(t, v, q) in c.net && Grant(t, v, r) in c.net ==> q == r
  }

  predicate VotesGranted(s: Setting, c: Cluster)
    requires c.nodes.Keys == s.members
  {
    forall p <- s.members, v <- s.members ::
      c.nodes[p].role != Follower && v in c.nodes[p].votes && v != p ==> Grant(c.nodes[p].term, v, p) in c.net
  }

  predicate ReignElected(s: Setting, c: Cluster, t: nat, r: Reign)
    requires c.nodes.Keys == s.members
  {
    && t > 0
    && r.id in s.members && r.id in r.quorum && r.quorum <= s.members
    && |r.quorum| >= s.Of(r.id).Quorum()
    && (forall v <- r.quorum :: v != r.id ==> Grant(t, v, r.id) in c.net)
    && c.nodes[r.id].term >= t
    && (c.nodes[r.id].term == t ==> c.nodes[r.id].role == Leader)
  }

  predicate ReignsElected(s: Setting, c: Cluster, h: History)
    requires c.nodes.Keys == s.members
  {
    forall t <- h.reigns :: ReignElected(s, c, t, h.reigns[t])
  }

  /** The leader of a term grants no vote in that term. */
  ghost predicate LeadersGrantNothing(c: Cluster, h: History) {
    forall t: nat, v: NodeId, q: NodeId :: Grant(t, v, q) in c.net && t in h.reigns ==> v != h.reigns[t].id
  }

  predicate LeadersReign(s: Setting, c: Cluster, h: History)
    requires c.nodes.Keys == s.members
  {
    forall p <- s.members :: c.nodes[p].role == Leader ==>
      c.nodes[p].term in h.reigns && h.reigns[c.nodes[p].term].id == p
  }

  predicate AppendsFromLeaders(c: Cluster, h: History) {
    forall e <- c.net :: e.msg.Append? ==> e.msg.term in h.reigns && h.reigns[e.msg.term].id == e.src
  }

  ghost predicate Elections(s: Setting, c: Cluster, h: History) {
    && Shape(s, c)
    && GrantsKept(s, c) && GrantsUnique(c) && VotesGranted(s, c)
    && ReignsElected(s, c, h) && LeadersGrantNothing(c, h) && LeadersReign(s, c, h)
    && AppendsFromLeaders(c, h)
  }

  // ------------------------------------------------------------ quorum overlap

  lemma QuorumsMeet(s: Setting, a: set<NodeId>, b: set<NodeId>) returns (p: NodeId)
    requires a <= s.members && b <= s.members
    requires |a| > |s.members| / 2 && |b| > |s.members| / 2
    ensures p in a && p in b
  {
    if a * b == {} {
      assert |a + b| == |a| + |b|;
      SubsetSize(a + b, s.members);
      assert false;
    }
    p :| p in a * b;
  }

  lemma {:induction false} SubsetSize(a: set<NodeId>, b: set<NodeId>)
    requires a <= b
    ensures |a| <= |b|
  {
    if a != {} {
      var x :| x in a;
      SubsetSize(a - {x}, b - {x});
    }
  }

  // ------------------------------------------------------- steps of one replica

  /** What every reaction of replica `p` respects, whatever the stimulus. */
  ghost predicate Lawful(s: Setting, c: Cluster, h: History, p: NodeId, o: Outcome)
    requires p in c.nodes
  {
    var n, m := c.nodes[p], o.node;
    && NodeShape(s, p, m)
    && (forall e <- o.out :: Routed(s, e) && e.src == p)
    && m.term >= n.term
    && (m.term == n.term && n.role == Leader ==> m.role == Leader)
    && (m.term == n.term && n.role == Follower ==> m.role == Follower && (n.votedFor != None ==> m.votedFor == n.votedFor))
    && (m.role != Follower ==> forall v <- m.votes :: v != p ==> Grant(m.term, v, p) in c.net)
    && (m.role == Leader ==> (n.role == Leader && m.term == n.term) || m.term !in h.reigns)
    && (forall t: nat, v: NodeId, q: NodeId :: Grant(t, v, q) in o.out ==>
          t == m.term && m.role == Follower && m.votedFor == Some(q))
    && (forall e <- o.out :: e.msg.Append? ==> m.role == Leader && e.msg.term == m.term)
  }

  lemma KeepShape(s: Setting, c: Cluster, h: History, p: NodeId, o: Outcome)
    requires Shape(s, c) && p in s.members && Lawful(s, c, h, p, o)
    ensures Shape(s, Update(c, p, o))
  {}

  lemma KeepGrants(s: Setting, c: Cluster, h: History, p: NodeId, o: Outcome)
    requires Shape(s, c) && p in s.members && Lawful(s, c, h, p, o) && GrantsKept(s, c) && GrantsUnique(c)
    requires Shape(s, Update(c, p, o))
    ensures GrantsKept(s, Update(c, p, o)) && GrantsUnique(Update(c, p, o))
  {
    var d := Update(c, p, o);
    forall t: nat, v: NodeId, q: NodeId | Grant(t, v, q) in d.net && Grant(t, v, q) !in c.net
      ensures v == p && t == o.node.term
    {}
  }

  lemma KeepVotes(s: Setting, c: Cluster, h: History, p: NodeId, o: Outcome)
    requires Shape(s, c) && p in s.members && Lawful(s, c, h, p, o) && VotesGranted(s, c)
    requires Shape(s, Update(c, p, o))
    ensures VotesGranted(s, Update(c, p, o))
  {}

  lemma KeepReign(s: Setting, c: Cluster, p: NodeId, o: Outcome, t: nat, r: Reign)
    requires c.nodes.Keys == s.members && p in s.members && ReignElected(s, c, t, r)
    requires o.node.term >= c.nodes[p].term
    requires o.node.term == c.nodes[p].term && c.nodes[p].role == Leader ==> o.node.role == Leader
    ensures ReignElected(s, Update(c, p, o), t, r)
  {}

  lemma NewReign(s: Setting, c: Cluster, p: NodeId, o: Outcome)
    requires c.nodes.Keys == s.members && p in s.members && NodeShape(s, p, o.node) && o.node.role == Leader
    requires forall v <- o.node.votes :: v != p ==> Grant(o.node.term, v, p) in c.net
    ensures ReignElected(s, Update(c, p, o), o.node.term, Reign(p, o.node.votes, o.node.log, o.node.log))
  {}

  lemma SameElectors(s: Setting, c: Cluster, t: nat, q: Reign, r: Reign)
    requires c.nodes.Keys == s.members && ReignElected(s, c, t, q) && q.id == r.id && q.quorum == r.quorum
    ensures ReignElected(s, c, t, r)
  {}

  lemma ReignsAfter(s: Setting, c: Cluster, d: Cluster, h: History, p: NodeId, n: Node)
    requires c.nodes.Keys == d.nodes.Keys == s.members
    requires forall t <- h.reigns :: ReignElected(s, d, t, h.reigns[t])
    requires n.role == Leader ==> ReignElected(s, d, n.term, Reign(p, n.votes, n.log, n.log)) || n.term in h.reigns
    ensures ReignsElected(s, d, h.(reigns := Reigning(h, p, n)))
  {
    var k := Reigning(h, p, n);
    forall t <- k ensures ReignElected(s, d, t, k[t]) {
      if t in h.reigns {
        SameElectors(s, d, t, h.reigns[t], k[t]);
      }
    }
  }

  lemma KeepReigns(s: Setting, c: Cluster, h: History, p: NodeId, o: Outcome)
    requires Shape(s, c) && p in s.members && Lawful(s, c, h, p, o) && ReignsElected(s, c, h)
    ensures ReignsElected(s, Update(c, p, o), h.(reigns := Reigning(h, p, o.node)))
  {
    forall t <- h.reigns ensures ReignElected(s, Update(c, p, o), t, h.reigns[t]) {
      KeepReign(s, c, p, o, t, h.reigns[t]);
    }
    if o.node.role == Leader && o.node.term !in h.reigns {
      NewReign(s, c, p, o);
    }
    ReignsAfter(s, c, Update(c, p, o), h, p, o.node);
  }

  lemma KeepLeaders(s: Setting, c: Cluster, h: History, p: NodeId, o: Outcome)
    requires Shape(s, c) && p in s.members && Lawful(s, c, h, p, o) && LeadersReign(s, c, h)
    requires Shape(s, Update(c, p, o))
    ensures LeadersReign(s, Update(c, p, o), h.(reigns := Reigning(h, p, o.node)))
  {}

  lemma NewAppends(c: Cluster, h: History, p: NodeId, o: Outcome)
    requires p in c.nodes && AppendsFromLeaders(c, h)
    requires forall e <- o.out :: e.msg.Append? ==> e.src == p && o.node.role == Leader && e.msg.term == o.node.term
    requires o.node.role == Leader && o.node.term in h.reigns ==> h.reigns[o.node.term].id == p
    ensures AppendsFromLeaders(Update(c, p, o), h.(reigns := Reigning(h, p, o.node)))
  {}

  lemma KeepAppends(s: Setting, c: Cluster, h: History, p: NodeId, o: Outcome)
    requires Shape(s, c) && p in s.members && Lawful(s, c, h, p, o)
    requires LeadersReign(s, c, h) && AppendsFromLeaders(c, h)
    ensures AppendsFromLeaders(Update(c, p, o), h.(reigns := Reigning(h, p, o.node)))
  {
    NewAppends(c, h, p, o);
  }

  /** Where neither the new grants nor a new reign meet an old one. */
  lemma NewAbstention(c: Cluster, h: History, p: NodeId, o: Outcome)
    requires p in c.nodes && LeadersGrantNothing(c, h)
    requires forall t: nat, v: NodeId, q: NodeId :: Grant(t, v, q) in o.out ==> v == p && t == o.node.term && o.node.role == Follower
    requires o.node.term in h.reigns && h.reigns[o.node.term].id == p ==> o.node.role == Leader
    requires o.node.role == Leader && o.node.term !in h.reigns ==> forall q: NodeId :: Grant(o.node.term, p, q) !in c.net
    ensures LeadersGrantNothing(Update(c, p, o), h.(reigns := Reigning(h, p, o.node)))
  {}

  lemma KeepAbstention(s: Setting, c: Cluster, h: History, p: NodeId, o: Outcome)
    requires Shape(s, c) && p in s.members && Lawful(s, c, h, p, o)
    requires GrantsKept(s, c) && ReignsElected(s, c, h) && LeadersGrantNothing(c, h)
    ensures LeadersGrantNothing(Update(c, p, o), h.(reigns := Reigning(h, p, o.node)))
  {
    if o.node.term in h.reigns {
      assert ReignElected(s, c, o.node.term, h.reigns[o.node.term]);
    }
    NewAbstention(c, h, p, o);
  }

  lemma KeepElections(s: Setting, c: Cluster, h: History, p: NodeId, o: Outcome, ballots: set<Ballot>)
    requires Elections(s, c, h) && p in s.members && Lawful(s, c, h, p, o)
    ensures Elections(s, Update(c, p, o), History(Reigning(h, p, o.node), ballots))
  {
    KeepShape(s, c, h, p, o);
    KeepGrants(s, c, h, p, o);
    KeepVotes(s, c, h, p, o);
    KeepReigns(s, c, h, p, o);
    KeepLeaders(s, c, h, p, o);
    KeepAppends(s, c, h, p, o);
    KeepAbstention(s, c, h, p, o);
  }

  /** A candidate with a quorum meets no earlier leader of its term. */
  lemma NoRival(s: Setting, c: Cluster, h: History, p: NodeId, votes: set<NodeId>)
    requires Elections(s, c, h) && p in s.members && c.nodes[p].role == Candidate
    requires p in votes && votes <= s.members && |votes| >= s.Of(p).Quorum()
    requires forall v <- votes :: v != p ==> Grant(c.nodes[p].term, v, p) in c.net
    ensures c.nodes[p].term !in h.reigns
  {
    var t := c.nodes[p].term;
    if t in h.reigns {
      var r := h.reigns[t];
      assert ReignElected(s, c, t, r);
      var v := QuorumsMeet(s, r.quorum, votes);
      assert false;
    }
  }

  // ------------------------------------------------------------- each stimulus

  /** Fields that commit and replication bookkeeping may change without touching elections. */
  predicate SameVote(n: Node, m: Node) {
    && m.role == n.role && m.term == n.term && m.votedFor == n.votedFor && m.votes == n.votes
    && m.snapIndex == n.snapIndex && m.snapTerm == n.snapTerm
    && m.next == n.next && m.match_ == n.match_
  }

  /** Applying commands moves only the state machine. */
  lemma {:induction false} ApplyFrame(n: Node)
    ensures ApplyFrom(n) == n.(lastApplied := ApplyFrom(n).lastApplied, applied := ApplyFrom(n).applied, docs := ApplyFrom(n).docs)
    decreases if n.commit >= n.lastApplied then n.commit - n.lastApplied else 0
  {
    if n.lastApplied < n.commit {
      var i := n.lastApplied + 1;
      match n.EntryAt(i)
      case None =>
      case Some(e) =>
        ApplyFrame(n.(lastApplied := i, applied := n.applied + [e.command], docs := Apply(n.docs, e.command)));
    }
  }

  lemma ApplyCommittedFrame(n: Node)
    ensures
      var m := ApplyCommitted(n);
      m == n.(lastApplied := m.lastApplied, applied := m.applied, docs := m.docs)
  {
    ApplyFrame(n.(lastApplied := Max(n.lastApplied, n.snapIndex)));
  }

  lemma AdvanceFrame(cfg: Config, n: Node)
    ensures SameVote(n, AdvanceCommit(cfg, n)) && AdvanceCommit(cfg, n).log == n.log
  {
    ApplyCommittedFrame(n.(commit := QuorumIndex(cfg, n, n.LastIndex())));
  }

  lemma LearnFrame(n: Node, commit: nat)
    ensures SameVote(n, LearnCommit(n, commit)) && LearnCommit(n, commit).log == n.log
  {
    ApplyCommittedFrame(n.(commit := Min(commit, n.LastIndex())));
  }

  lemma LawfulSolo(s: Setting, c: Cluster, h: History, p: NodeId)
    requires s.members == {p} && p in c.nodes && NodeShape(s, p, c.nodes[p]) && c.nodes[p].role != Leader
    requires forall t <- h.reigns :: t <= c.nodes[p].term
    ensures Lawful(s, c, h, p, StartElection(s.Of(p), c.nodes[p]))
  {
    assert s.Of(p).Peers() == {};
  }

  lemma LawfulCandidacy(s: Setting, c: Cluster, h: History, p: NodeId)
    requires p in s.members && s.members - {p} != {} && p in c.nodes && NodeShape(s, p, c.nodes[p]) && c.nodes[p].role != Leader
    ensures Lawful(s, c, h, p, StartElection(s.Of(p), c.nodes[p]))
  {
    var o := StartElection(s.Of(p), c.nodes[p]);
    assert o.node == BecomeCandidate(s.Of(p), c.nodes[p]);
    assert forall e <- o.out :: e.msg.RequestVote?;
  }

  lemma LawfulTimeout(s: Setting, c: Cluster, h: History, p: NodeId)
    requires Elections(s, c, h) && p in s.members && c.nodes[p].role != Leader
    ensures Lawful(s, c, h, p, StartElection(s.Of(p), c.nodes[p]))
  {
    if s.members - {p} == {} {
      assert s.members == {p};
      forall t <- h.reigns ensures t <= c.nodes[p].term {
        assert ReignElected(s, c, t, h.reigns[t]);
      }
      LawfulSolo(s, c, h, p);
    } else {
      LawfulCandidacy(s, c, h, p);
    }
  }

  /** The replica's own part of the election invariants. */
  predicate Sound(s: Setting, c: Cluster, p: NodeId) {
    && p in s.members && p in c.nodes && NodeShape(s, p, c.nodes[p])
    && (c.nodes[p].role != Follower ==> forall v <- c.nodes[p].votes :: v != p ==> Grant(c.nodes[p].term, v, p) in c.net)
  }

  lemma Soundness(s: Setting, c: Cluster, h: History, p: NodeId)
    requires Elections(s, c, h) && p in s.members
    ensures Sound(s, c, p)
  {}

  predicate AppendTraffic(s: Setting, p: NodeId, n: Node, e: Envelope) {
    && Routed(s, e) && e.src == p
    && (e.msg.AppendReply? || (e.msg.Append? && n.role == Leader && e.msg.term == n.term))
  }

  /** Bookkeeping by a replica that keeps its term, role and votes and sends no vote. */
  lemma LawfulQuiet(s: Setting, c: Cluster, h: History, p: NodeId, o: Outcome)
    requires Sound(s, c, p) && NodeShape(s, p, o.node)
    requires
      var n, m := c.nodes[p], o.node;
      m.role == n.role && m.term == n.term && m.votedFor == n.votedFor && m.votes == n.votes
    requires forall e <- o.out :: AppendTraffic(s, p, o.node, e)
    ensures Lawful(s, c, h, p, o)
  {}

  lemma AppendToTraffic(s: Setting, p: NodeId, n: Node, q: NodeId)
    requires NodeShape(s, p, n) && q in s.members - {p} && p in s.members && n.role == Leader
    ensures
      var e := AppendTo(s.Of(p), n, q);
      AppendTraffic(s, p, n, e) && e.dst == q && e.msg.Append?
  {}

  lemma BroadcastTraffic(s: Setting, p: NodeId, n: Node)
    requires NodeShape(s, p, n) && p in s.members && n.role == Leader
    ensures forall e <- Broadcast(s.Of(p), n) :: AppendTraffic(s, p, n, e) && e.msg.Append?
  {
    forall q <- s.members - {p} {
      AppendToTraffic(s, p, n, q);
    }
  }

  lemma LawfulBeat(s: Setting, c: Cluster, h: History, p: NodeId)
    requires Sound(s, c, p)
    ensures Lawful(s, c, h, p, Heartbeat(s.Of(p), c.nodes[p]))
  {
    var n := c.nodes[p];
    if n.role == Leader {
      BroadcastTraffic(s, p, n);
    }
    LawfulQuiet(s, c, h, p, Heartbeat(s.Of(p), n));
  }

  lemma LawfulSubmit(s: Setting, c: Cluster, h: History, p: NodeId, command: Command)
    requires Sound(s, c, p)
    ensures Lawful(s, c, h, p, Outcome(Propose(s.Of(p), c.nodes[p], command).0, {}))
  {
    var n := c.nodes[p];
    var e := Entry(n.term, n.LastIndex() + 1, command);
    ApplyCommittedFrame(n.(log := n.log + [e], commit := e.index));
    LawfulQuiet(s, c, h, p, Outcome(Propose(s.Of(p), n, command).0, {}));
  }

  lemma LawfulRequestVote(s: Setting, c: Cluster, h: History, e: Envelope)
    requires Sound(s, c, e.dst) && Routed(s, e) && e.msg.RequestVote?
    ensures Lawful(s, c, h, e.dst, OnRequestVote(s.Of(e.dst), c.nodes[e.dst], e.src, e.msg))
  {}

  lemma LawfulVoteReply(s: Setting, c: Cluster, h: History, e: Envelope)
    requires Elections(s, c, h) && e in c.net && e.msg.VoteReply?
    ensures Lawful(s, c, h, e.dst, OnVoteReply(s.Of(e.dst), c.nodes[e.dst], e.msg))
  {
    var p, m := e.dst, e.msg;
    var n, cfg := c.nodes[p], s.Of(p);
    assert Routed(s, e) && NodeShape(s, p, n);
    if m.term == n.term && n.role == Candidate && m.granted {
      assert e == Grant(n.term, m.voter, p);
      var n1 := n.(votes := n.votes + {m.voter});
      if |n1.votes| >= cfg.Quorum() {
        NoRival(s, c, h, p, n1.votes);
        BroadcastTraffic(s, p, BecomeLeader(cfg, n1));
      }
    }
  }

  /** A leader never receives an append of its own term. */
  lemma NoRivalAppend(s: Setting, c: Cluster, h: History, e: Envelope)
    requires Elections(s, c, h) && e in c.net && e.msg.Append?
    ensures c.nodes[e.dst].role == Leader ==> e.msg.term != c.nodes[e.dst].term
  {
    assert Routed(s, e);
  }

  lemma LawfulAppend(s: Setting, c: Cluster, h: History, e: Envelope)
    requires Sound(s, c, e.dst) && Routed(s, e) && e.msg.Append?
    requires c.nodes[e.dst].role == Leader ==> e.msg.term != c.nodes[e.dst].term
    ensures Lawful(s, c, h, e.dst, OnAppend(s.Of(e.dst), c.nodes[e.dst], e.src, e.msg))
  {
    var p, m := e.dst, e.msg;
    var n := c.nodes[p];
    if m.term >= n.term {
      var n1 := Recognise(n, m.term, m.leader);
      LearnFrame(n1.(log := MergeEntries(n1.snapIndex, n1.log, m.entries)), m.commit);
    }
  }

  lemma LawfulAppendReply(s: Setting, c: Cluster, h: History, e: Envelope)
    requires Sound(s, c, e.dst) && Routed(s, e) && e.msg.AppendReply?
    ensures Lawful(s, c, h, e.dst, OnAppendReply(s.Of(e.dst), c.nodes[e.dst], e.msg))
  {
    var p, m := e.dst, e.msg;
    var n, cfg := c.nodes[p], s.Of(p);
    if m.term <= n.term {
      var o := OnAppendReply(cfg, n, m);
      if n.role == Leader && !Stale(cfg.guards, n, m.term) {
        if m.success {
          AdvanceFrame(cfg, Progress(n, m.follower, m.matchIndex));
        } else {
          AppendToTraffic(s, p, Retreat(n, m.follower, m.conflict), m.follower);
        }
      }
      LawfulQuiet(s, c, h, p, o);
    }
  }

  lemma LawfulReact(s: Setting, c: Cluster, h: History, a: Action)
    requires Elections(s, c, h) && Enabled(c, a)
    ensures Lawful(s, c, h, Actor(a), React(s, c, a))
  {
    Soundness(s, c, h, Actor(a));
    match a
    case Timeout(p) => LawfulTimeout(s, c, h, p);
    case Beat(p) => LawfulBeat(s, c, h, p);
    case Submit(p, command) => LawfulSubmit(s, c, h, p, command);
    case Deliver(e) =>
      assert Routed(s, e);
      match e.msg
      case RequestVote(_, _, _, _) => LawfulRequestVote(s, c, h, e);
      case VoteReply(_, _, _) => LawfulVoteReply(s, c, h, e);
      case Append(_, _, _, _, _, _) =>
        NoRivalAppend(s, c, h, e);
        LawfulAppend(s, c, h, e);
      case AppendReply(_, _, _, _, _) => LawfulAppendReply(s, c, h, e);
  }

  lemma {:induction false} ElectionsAlways(s: Setting, run: seq<Action>)
    ensures Elections(s, Exec(s, run), Chronicle(s, run))
    decreases |run|
  {
    if run != [] {
      var before, a := run[..|run| - 1], run[|run| - 1];
      ElectionsAlways(s, before);
      var c, h := Exec(s, before), Chronicle(s, before);
      if Enabled(c, a) {
        LawfulReact(s, c, h, a);
        KeepElections(s, c, h, Actor(a), React(s, c, a), h.ballots + Cast(h, c, a));
      }
    }
  }

  /** The leader a term ever had stays on record. */
  lemma {:induction false} ReignsPersist(s: Setting, run: seq<Action>, i: nat, t: nat)
    requires i <= |run| && t in Chronicle(s, run[..i]).reigns
    ensures t in Chronicle(s, run).reigns
    ensures
      var r, q := Chronicle(s, run[..i]).reigns[t], Chronicle(s, run).reigns[t];
      r.id == q.id && r.base == q.base
    decreases |run|
  {
    if i == |run| {
      assert run[..i] == run;
    } else {
      var before := run[..|run| - 1];
      assert before[..i] == run[..i];
      ReignsPersist(s, before, i, t);
    }
  }

  /**
   * Election safety, for every variant of the protocol: if two replicas lead the same term, at any
   * two moments of a run, they are the same replica.
   */
  lemma ElectionSafety(s: Setting, run: seq<Action>, i: nat, j: nat, p: NodeId, q: NodeId)
    requires i <= |run| && j <= |run| && p in s.members && q in s.members
    requires p in Exec(s, run[..i]).nodes && q in Exec(s, run[..j]).nodes
    requires
      var n, m := Exec(s, run[..i]).nodes[p], Exec(s, run[..j]).nodes[q];
      n.role == Leader && m.role == Leader && n.term == m.term
    ensures p == q
  {
    ElectionsAlways(s, run[..i]);
    ElectionsAlways(s, run[..j]);
    var t := Exec(s, run[..i]).nodes[p].term;
    ReignsPersist(s, run, i, t);
    ReignsPersist(s, run, j, t);
  }
}
