/** Every reaction of a disciplined run, of whatever variant, tells the truth about logs and votes. */
module RaftHonesty {
  import opened Options
  import opened Replication
  import opened RaftModel
  import opened RaftCluster
  import opened RaftElection
  import opened RaftLog
  import opened RaftCommit
  import opened RaftPromises
  import opened RaftSafety

  ghost predicate Invariant(s: Setting, c: Cluster, h: History) {
    Elections(s, c, h) && Logs(s, c, h) && Promises(s, c, h) && Safe(s, c, h)
  }

  // ------------------------------------------------------ honesty of reactions

  /** Reactions that keep the log and the term, and acknowledge nothing. */
  lemma HonestQuiet(c: Cluster, h: History, p: NodeId, o: Outcome)
    requires p in c.nodes && LawfulLog(h, p, c.nodes[p], o) && c.nodes[p].log <= o.node.log
    requires forall e <- o.out :: e.src == p && !e.msg.RequestVote? && !IsGrant(e) && !(e.msg.AppendReply? && e.msg.success)
    requires o.node.role == c.nodes[p].role && o.node.term == c.nodes[p].term
    requires o.node.role == Leader ==> o.node.term in h.reigns
    ensures Honest(c, h, p, o, {})
  {
    forall t: nat, v: NodeId, q: NodeId ensures Grant(t, v, q) !in o.out {
      assert IsGrant(Grant(t, v, q));
    }
  }

  /** Falling back to follower in a later term says nothing. */
  lemma HonestFall(c: Cluster, h: History, p: NodeId, term: nat)
    requires p in c.nodes && term > c.nodes[p].term
    requires LawfulLog(h, p, c.nodes[p], Outcome(BecomeFollower(c.nodes[p], term), {}))
    ensures Honest(c, h, p, Outcome(BecomeFollower(c.nodes[p], term), {}), {})
  {}

  lemma HonestTimeout(s: Setting, c: Cluster, h: History, p: NodeId)
    requires p in s.members && p in c.nodes && c.nodes[p].role != Leader
    requires NodeShape(s, p, c.nodes[p]) && Contiguous(c.nodes[p].log)
    requires LawfulLog(h, p, c.nodes[p], StartElection(s.Of(p), c.nodes[p]))
    ensures Honest(c, h, p, StartElection(s.Of(p), c.nodes[p]), Cast(h, c, Timeout(p)))
  {
    var n := c.nodes[p];
    var o, cast := StartElection(s.Of(p), n), Cast(h, c, Timeout(p));
    LogIndices(n);
    if n.term + 1 !in h.reigns {
      var b := Ballot(n.term + 1, p, p, n.LastIndex(), n.LastTerm(), n.log);
      assert cast == {b} && IsBallot(b, n.term + 1, p, p);
    }
  }

  lemma HonestRequestVote(s: Setting, c: Cluster, h: History, e: Envelope)
    requires Routed(s, e) && e in c.net && e.dst in c.nodes && e.msg.RequestVote? && RequestsClaim(c)
    requires NodeShape(s, e.dst, c.nodes[e.dst]) && Contiguous(c.nodes[e.dst].log)
    requires c.nodes[e.dst].role == Leader ==> c.nodes[e.dst].term in h.reigns
    ensures Honest(c, h, e.dst, OnRequestVote(s.Of(e.dst), c.nodes[e.dst], e.src, e.msg), Cast(h, c, Deliver(e)))
  {
    var p, n := e.dst, c.nodes[e.dst];
    var o, cast := OnRequestVote(s.Of(p), n, e.src, e.msg), Cast(h, c, Deliver(e));
    LogIndices(n);
    if e.msg.term !in h.reigns && Grants(CatchUp(n, e.msg.term), e.msg) {
      var b := Ballot(e.msg.term, p, e.msg.candidate, e.msg.lastIndex, e.msg.lastTerm, n.log);
      assert cast == {b} && IsBallot(b, e.msg.term, p, e.msg.candidate);
    }
  }

  /** The votes of a candidate that wins are backed by logs not ahead of its own. */
  lemma WinnerChosen(s: Setting, c: Cluster, h: History, p: NodeId, votes: set<NodeId>)
    requires Promises(s, c, h) && p in c.nodes && Contiguous(c.nodes[p].log)
    requires c.nodes[p].role == Candidate && c.nodes[p].term !in h.reigns
    requires forall v <- votes :: v != p ==> Grant(c.nodes[p].term, v, p) in c.net
    ensures Chosen(h, c.nodes[p].term, Reign(p, votes, c.nodes[p].log, c.nodes[p].log))
  {
    var n := c.nodes[p];
    forall v <- votes
      ensures exists b <- h.ballots :: IsBallot(b, n.term, v, p) && b.lastIndex == |n.log| && b.lastTerm == TermIn(n.log, |n.log|)
    {
      assert Backed(h, n.term, v, p);
      var b :| b in h.ballots && IsBallot(b, n.term, v, p);
      assert BallotSound(c, h, b);
    }
  }

  lemma HonestVoteReply(s: Setting, c: Cluster, h: History, p: NodeId, m: Message)
    requires p in c.nodes && NodeShape(s, p, c.nodes[p]) && m.VoteReply?
    requires LawfulLog(h, p, c.nodes[p], OnVoteReply(s.Of(p), c.nodes[p], m))
    requires
      var o := OnVoteReply(s.Of(p), c.nodes[p], m).node;
      o.role == Leader && o.term !in h.reigns ==> Chosen(h, o.term, Reign(p, o.votes, o.log, o.log))
    ensures Honest(c, h, p, OnVoteReply(s.Of(p), c.nodes[p], m), {})
  {
    assert h.(ballots := h.ballots + {}) == h;
    VoteReplyQuiet(s, p, c.nodes[p], m);
  }

  lemma VoteReplyChosen(s: Setting, c: Cluster, h: History, e: Envelope)
    requires Promises(s, c, h) && Sound(s, c, e.dst) && Routed(s, e) && e in c.net && e.msg.VoteReply?
    requires c.nodes[e.dst].role == Leader ==> c.nodes[e.dst].term in h.reigns
    requires Contiguous(c.nodes[e.dst].log)
    ensures
      var o := OnVoteReply(s.Of(e.dst), c.nodes[e.dst], e.msg).node;
      o.role == Leader && o.term !in h.reigns ==> Chosen(h, o.term, Reign(e.dst, o.votes, o.log, o.log))
  {
    var p, n := e.dst, c.nodes[e.dst];
    var o := OnVoteReply(s.Of(p), n, e.msg).node;
    if o.role == Leader && o.term !in h.reigns && n.role == Candidate {
      assert e == Grant(n.term, e.msg.voter, p);
      WinnerChosen(s, c, h, p, o.votes);
    }
  }

  lemma VoteReplyQuiet(s: Setting, p: NodeId, n: Node, m: Message)
    requires m.VoteReply? && NodeShape(s, p, n)
    ensures forall e <- OnVoteReply(s.Of(p), n, m).out :: e.src == p && e.msg.Append?
  {}

  /** The reaction to an accepted append, whatever the logs hold. */
  lemma AcceptedShape(cfg: Config, n: Node, src: NodeId, m: Message)
    requires m.Append? && Accepts(n, m) && n.snapIndex == 0
    ensures
      var o := OnAppend(cfg, n, src, m);
      && o.node.log == MergeEntries(0, n.log, m.entries) && o.node.term == m.term && o.node.role == Follower
      && o.node.snapIndex == n.snapIndex && o.node.snapTerm == n.snapTerm
      && o.out == {Envelope(cfg.id, src, AppendReply(m.term, true, cfg.id, Acknowledged(cfg.guards, o.node, m), 0))}
  {
    var n1 := Recognise(n, m.term, m.leader);
    LearnFrame(n1.(log := MergeEntries(0, n1.log, m.entries)), m.commit);
  }

  /** What an append does to the follower's log, and what the reply says about it. */
  lemma AppendOutcome(s: Setting, h: History, p: NodeId, n: Node, src: NodeId, m: Message)
    requires NodeShape(s, p, n) && NodeLog(h, n) && 0 !in h.reigns
    requires m.Append? && m.term in h.reigns && ReignLog(h, m.term, h.reigns[m.term]) && Carries(h.reigns[m.term].log, m)
    requires Accepts(n, m)
    ensures
      var o, leader, end := OnAppend(s.Of(p), n, src, m), h.reigns[m.term].log, m.prevIndex + |m.entries|;
      && o.node.log == MergeEntries(0, n.log, m.entries)
      && KeepsLeader(n.log, o.node.log, leader) && Holds(o.node.log, leader, end)
      && o.node.term == m.term && o.node.role == Follower
      && o.out == {Envelope(p, src, AppendReply(m.term, true, p, Acknowledged(s.guards, o.node, m), 0))}
  {
    AcceptedShape(s.Of(p), n, src, m);
    AcceptedLog(h, n, m);
  }

  lemma AcceptedLog(h: History, n: Node, m: Message)
    requires n.snapIndex == 0 && n.snapTerm == 0 && NodeLog(h, n) && 0 !in h.reigns
    requires m.Append? && m.term in h.reigns && ReignLog(h, m.term, h.reigns[m.term]) && Carries(h.reigns[m.term].log, m)
    requires Accepts(n, m)
    ensures
      var log, leader := MergeEntries(0, n.log, m.entries), h.reigns[m.term].log;
      KeepsLeader(n.log, log, leader) && Holds(log, leader, m.prevIndex + |m.entries|)
  {
    var n1 := Recognise(n, m.term, m.leader);
    var leader, end := h.reigns[m.term].log, m.prevIndex + |m.entries|;
    AppendResult(h, leader, n1, m);
    MergeKeeps(n.log, leader, end);
  }

  lemma MergeKeeps(log: seq<Entry>, leader: seq<Entry>, end: nat)
    requires end <= |leader|
    ensures
      var merged := if leader[..end] <= log then log else leader[..end];
      KeepsLeader(log, merged, leader) && Holds(merged, leader, end)
  {
    var merged := if leader[..end] <= log then log else leader[..end];
    forall k: nat | Holds(log, leader, k) ensures Holds(merged, leader, k) {
      if k > end {
        assert leader[..end] == leader[..k][..end] == log[..k][..end];
      } else {
        assert leader[..end][..k] == leader[..k];
      }
    }
  }

  /** A careful acknowledgement is true of the leader's log. */
  lemma CarefulHolds(g: Guards, h: History, n: Node, m: Message)
    requires m.Append? && m.term in h.reigns && n.snapIndex == 0 && n.snapTerm == 0
    requires Canonical(h, n.log) && Contiguous(n.log) && 0 !in h.reigns
    requires Holds(n.log, h.reigns[m.term].log, m.prevIndex + |m.entries|) && CarefulAck(g, n, m)
    ensures Holds(n.log, h.reigns[m.term].log, Acknowledged(g, n, m))
  {
    LogIndices(n);
    if !g.ackPrefix && |n.log| != m.prevIndex + |m.entries| {
      assert Rooted(h, n.log, |n.log| - 1);
      assert n.log[..|n.log|] == n.log;
    }
  }

  lemma HonestAppend(s: Setting, c: Cluster, h: History, p: NodeId, src: NodeId, m: Message)
    requires p in c.nodes && NodeShape(s, p, c.nodes[p]) && NodeLog(h, c.nodes[p]) && 0 !in h.reigns
    requires m.Append? && m.term in h.reigns && ReignLog(h, m.term, h.reigns[m.term]) && Carries(h.reigns[m.term].log, m)
    requires LawfulLog(h, p, c.nodes[p], OnAppend(s.Of(p), c.nodes[p], src, m))
    requires c.nodes[p].role == Leader ==> c.nodes[p].term in h.reigns
    requires Accepts(c.nodes[p], m) ==>
      var o := OnAppend(s.Of(p), c.nodes[p], src, m).node;
      Holds(o.log, h.reigns[m.term].log, Acknowledged(s.guards, o, m))
    ensures Honest(c, h, p, OnAppend(s.Of(p), c.nodes[p], src, m), {})
  {
    var n := c.nodes[p];
    if Accepts(n, m) {
      AppendOutcome(s, h, p, n, src, m);
    }
  }

  /** The acknowledgement of a careful follower holds in its new log. */
  lemma CarefulAppend(s: Setting, h: History, p: NodeId, n: Node, src: NodeId, m: Message)
    requires NodeShape(s, p, n) && NodeLog(h, n) && 0 !in h.reigns
    requires m.Append? && m.term in h.reigns && ReignLog(h, m.term, h.reigns[m.term]) && Carries(h.reigns[m.term].log, m)
    requires Accepts(n, m) && CarefulAck(s.guards, OnAppend(s.Of(p), n, src, m).node, m)
    ensures
      var o := OnAppend(s.Of(p), n, src, m).node;
      Holds(o.log, h.reigns[m.term].log, Acknowledged(s.guards, o, m))
  {
    var o, leader, end := OnAppend(s.Of(p), n, src, m).node, h.reigns[m.term].log, m.prevIndex + |m.entries|;
    AppendOutcome(s, h, p, n, src, m);
    AppendResult(h, leader, Recognise(n, m.term, m.leader), m);
    CanonicalPrefix(h, leader, end);
    LearnFrame(Recognise(n, m.term, m.leader).(log := o.log), m.commit);
    CarefulHolds(s.guards, h, o, m);
  }

  lemma HonestReply(s: Setting, c: Cluster, h: History, p: NodeId, m: Message)
    requires p in s.members && p in c.nodes && NodeShape(s, p, c.nodes[p]) && m.AppendReply? && m.follower in s.members - {p}
    requires LawfulLog(h, p, c.nodes[p], OnAppendReply(s.Of(p), c.nodes[p], m))
    requires c.nodes[p].role == Leader ==> c.nodes[p].term in h.reigns
    ensures Honest(c, h, p, OnAppendReply(s.Of(p), c.nodes[p], m), {})
  {
    var n, cfg := c.nodes[p], s.Of(p);
    if m.term > n.term {
      HonestFall(c, h, p, m.term);
    } else {
      AdvanceFrame(cfg, Progress(n, m.follower, m.matchIndex));
      if n.role == Leader {
        AppendToTraffic(s, p, Retreat(n, m.follower, m.conflict), m.follower);
      }
      HonestQuiet(c, h, p, OnAppendReply(cfg, n, m));
    }
  }

  lemma HonestDeliver(s: Setting, c: Cluster, h: History, e: Envelope)
    requires Promises(s, c, h) && Sound(s, c, e.dst) && Routed(s, e) && e in c.net && TrafficSafe(s, c, h, e)
    requires AllReigns(h) && NodeLog(h, c.nodes[e.dst]) && Careful(s, c, Deliver(e))
    requires LawfulLog(h, e.dst, c.nodes[e.dst], Handle(s.Of(e.dst), c.nodes[e.dst], e))
    requires c.nodes[e.dst].role == Leader ==> c.nodes[e.dst].term in h.reigns
    ensures Honest(c, h, e.dst, Handle(s.Of(e.dst), c.nodes[e.dst], e), Cast(h, c, Deliver(e)))
  {
    match e.msg
    case RequestVote(_, _, _, _) => HonestRequestVote(s, c, h, e);
    case VoteReply(_, _, _) =>
      VoteReplyChosen(s, c, h, e);
      HonestVoteReply(s, c, h, e.dst, e.msg);
    case Append(_, _, _, _, _, _) =>
      assert ReignLog(h, e.msg.term, h.reigns[e.msg.term]);
      if Accepts(c.nodes[e.dst], e.msg) {
        CarefulAppend(s, h, e.dst, c.nodes[e.dst], e.src, e.msg);
      }
      HonestAppend(s, c, h, e.dst, e.src, e.msg);
    case AppendReply(_, _, _, _, _) => HonestReply(s, c, h, e.dst, e.msg);
  }

  lemma HonestReact(s: Setting, c: Cluster, h: History, a: Action)
    requires Invariant(s, c, h) && Enabled(c, a) && Careful(s, c, a)
    ensures Honest(c, h, Actor(a), React(s, c, a), Cast(h, c, a))
  {
    var p := Actor(a);
    var n := c.nodes[p];
    LogReact(s, c, h, a);
    Soundness(s, c, h, p);
    match a
    case Timeout(_) => HonestTimeout(s, c, h, p);
    case Beat(_) =>
      BroadcastTraffic(s, p, n);
      HonestQuiet(c, h, p, React(s, c, a));
    case Submit(_, command) =>
      SubmitFrame(s, p, n, command);
      HonestQuiet(c, h, p, React(s, c, a));
    case Deliver(e) =>
      assert Routed(s, e) && TrafficSafe(s, c, h, e);
      HonestDeliver(s, c, h, e);
  }

  lemma SubmitFrame(s: Setting, p: NodeId, n: Node, command: Command)
    ensures
      var m := Propose(s.Of(p), n, command).0;
      m.role == n.role && m.term == n.term && n.log <= m.log && m.next == n.next && m.match_ == n.match_
  {
    var e := Entry(n.term, n.LastIndex() + 1, command);
    ApplyCommittedFrame(n.(log := n.log + [e], commit := e.index));
  }
}
