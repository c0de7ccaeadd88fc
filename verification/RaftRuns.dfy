/** Every disciplined run, of whatever variant, is safe. */
module RaftRuns {
  import opened Options
  import opened Replication
  import opened RaftModel
  import opened RaftCluster
  import opened RaftElection
  import opened RaftLog
  import opened RaftCommit
  import opened RaftPromises
  import opened RaftSafety
  import opened RaftHonesty

  // ----------------------------------------------------- replicas after a step

  predicate SameMachine(n: Node, m: Node) {
    m.commit == n.commit && m.lastApplied == n.lastApplied && m.applied == n.applied && m.docs == n.docs
  }

  lemma StillSafe(s: Setting, c: Cluster, h: History, d: Cluster, k: History, n: Node, m: Node)
    requires Later(c, h, d, k) && ReplicaSafe(s, c, h, n)
    requires n.log <= m.log && m.term >= n.term && SameMachine(n, m)
    ensures ReplicaSafe(s, d, k, m)
  {
    CoveredLater(s, c, h, d, k, n.log, m.log, n.commit, n.term, m.term);
    assert m.log[..m.commit] == n.log[..n.commit];
  }

  /** A leader whose view is sound sends safe appends. */
  lemma AppendToSafe(s: Setting, c: Cluster, h: History, p: NodeId, n: Node, q: NodeId)
    requires NodeShape(s, p, n) && Contiguous(n.log) && q in s.members - {p} && n.role == Leader
    requires ReplicaSafe(s, c, h, n) && ViewSound(c, h, n)
    requires n.term in h.reigns && h.reigns[n.term].log == n.log
    ensures TrafficSafe(s, c, h, AppendTo(s.Of(p), n, q))
  {
    LogIndices(n);
    var prev := NextOf(n, q) - 1;
    assert n.log[prev..] == n.log[prev..prev + |n.log[prev..]|];
  }

  lemma BroadcastSafe(s: Setting, c: Cluster, h: History, p: NodeId, n: Node)
    requires NodeShape(s, p, n) && Contiguous(n.log) && n.role == Leader
    requires ReplicaSafe(s, c, h, n) && ViewSound(c, h, n)
    requires n.term in h.reigns && h.reigns[n.term].log == n.log
    ensures forall e <- Broadcast(s.Of(p), n) :: TrafficSafe(s, c, h, e)
  {
    forall q <- s.members - {p} {
      AppendToSafe(s, c, h, p, n, q);
    }
  }

  lemma QuorumIndexFound(cfg: Config, n: Node, index: nat)
    ensures
      var k := QuorumIndex(cfg, n, index);
      k > n.commit ==> k <= index && n.TermAt(k) == n.term && 1 + |Replicas(n, k)| >= cfg.Quorum()
  {}

  /** A leader's own entries lie beyond the log it was elected with. */
  lemma OwnBeyondBase(r: Reign, t: nat, k: nat)
    requires r.base <= r.log && TermsBelow(r.base, t) && 0 < k <= |r.log| && r.log[k - 1].term == t
    ensures k > |r.base|
  {}

  /** The commit rule counts a quorum that has vouched for the prefix. */
  lemma QuorumCommitted(s: Setting, c: Cluster, h: History, p: NodeId, n: Node, k: nat)
    requires NodeShape(s, p, n) && p in s.members && n.role == Leader && ViewSound(c, h, n)
    requires n.term in h.reigns && h.reigns[n.term].log == n.log && h.reigns[n.term].id == p
    requires ReignLog(h, n.term, h.reigns[n.term])
    requires 0 < k <= |n.log| && n.log[k - 1].term == n.term
    requires 1 + |Replicas(n, k)| >= s.Of(p).Quorum()
    ensures Committed(s, c, h, n.term, k)
  {
    var q := {p} + Replicas(n, k);
    assert p !in Replicas(n, k);
    OwnBeyondBase(h.reigns[n.term], n.term, k);
    forall w <- q ensures Acked(c, h, n.term, w, k) {
      if w != p {
        assert Counted(c, h, n.term, w, n.match_[w]);
        var e :| e in c.net && IsAck(e, n.term, w, n.match_[w]);
        assert IsAck(e, n.term, w, k);
      }
    }
    assert IsCommitQuorum(s, c, h, n.term, k, q);
  }

  lemma AdvanceSafe(s: Setting, c: Cluster, h: History, p: NodeId, n: Node)
    requires NodeShape(s, p, n) && p in s.members && n.role == Leader && ViewSound(c, h, n) && Contiguous(n.log)
    requires n.term in h.reigns && h.reigns[n.term].log == n.log && h.reigns[n.term].id == p
    requires ReignLog(h, n.term, h.reigns[n.term])
    requires ReplicaSafe(s, c, h, n)
    ensures ReplicaSafe(s, c, h, AdvanceCommit(s.Of(p), n))
  {
    LogIndices(n);
    var k := QuorumIndex(s.Of(p), n, n.LastIndex());
    QuorumIndexFound(s.Of(p), n, n.LastIndex());
    AdvanceFrame(s.Of(p), n);
    if k > n.commit {
      assert n.TermAt(k) == TermIn(n.log, k);
      QuorumCommitted(s, c, h, p, n, k);
      CatchUpApplied(n, n.log, k);
      assert n.(log := n.log, commit := k) == n.(commit := k);
      assert Covers(s, c, h, n.term, k, n.log, k, n.term);
    }
  }

  // ------------------------------------------------------------- each stimulus

  lemma SafeTimeout(s: Setting, c: Cluster, h: History, p: NodeId, d: Cluster, k: History)
    requires p in s.members && p in c.nodes && NodeShape(s, p, c.nodes[p])
    requires ReplicaSafe(s, c, h, c.nodes[p]) && c.nodes[p].role != Leader && Contiguous(c.nodes[p].log)
    requires Later(c, h, d, k)
    ensures
      var o := StartElection(s.Of(p), c.nodes[p]);
      ReplicaSafe(s, d, k, o.node) && ViewSound(d, k, o.node) && forall e <- o.out :: TrafficSafe(s, d, k, e)
  {
    var n := c.nodes[p];
    StillSafe(s, c, h, d, k, n, StartElection(s.Of(p), n).node);
    LogIndices(n);
  }

  lemma SafeSubmit(s: Setting, c: Cluster, h: History, p: NodeId, command: Command, d: Cluster, k: History)
    requires p in s.members && p in c.nodes && NodeShape(s, p, c.nodes[p]) && Contiguous(c.nodes[p].log)
    requires ReplicaSafe(s, c, h, c.nodes[p]) && ViewSound(c, h, c.nodes[p]) && c.nodes[p].role == Leader
    requires
      var m := Propose(s.Of(p), c.nodes[p], command).0;
      m.term in k.reigns && k.reigns[m.term].log == m.log && k.reigns[m.term].id == p
    requires Later(c, h, d, k)
    ensures
      var m := Propose(s.Of(p), c.nodes[p], command).0;
      ReplicaSafe(s, d, k, m) && ViewSound(d, k, m)
  {
    var n := c.nodes[p];
    var e := Entry(n.term, n.LastIndex() + 1, command);
    var n1 := n.(log := n.log + [e]);
    LogIndices(n);
    SubmitFrame(s, p, n, command);
    StillSafe(s, c, h, d, k, n, n1);
    ViewLater(c, h, d, k, n);
    if s.Of(p).Peers() == {} {
      assert s.members == {p};
      ApplyCommittedFrame(n1.(commit := e.index));
      assert forall w <- {p} :: Acked(d, k, n.term, w, e.index);
      assert IsCommitQuorum(s, d, k, n.term, e.index, {p});
      CatchUpApplied(n1, n1.log, e.index);
      assert n1.(log := n1.log, commit := e.index) == n1.(commit := e.index);
      assert Covers(s, d, k, n.term, e.index, n1.log, e.index, n.term);
    }
  }

  lemma SafeVoteReply(s: Setting, c: Cluster, h: History, p: NodeId, m: Message, d: Cluster, k: History)
    requires p in s.members && p in c.nodes && NodeShape(s, p, c.nodes[p]) && m.VoteReply? && Contiguous(c.nodes[p].log)
    requires ReplicaSafe(s, c, h, c.nodes[p]) && ViewSound(c, h, c.nodes[p])
    requires
      var o := OnVoteReply(s.Of(p), c.nodes[p], m).node;
      NodeShape(s, p, o) && (o.role == Leader ==> o.term in k.reigns && k.reigns[o.term].log == o.log)
    requires Later(c, h, d, k)
    ensures
      var o := OnVoteReply(s.Of(p), c.nodes[p], m);
      ReplicaSafe(s, d, k, o.node) && ViewSound(d, k, o.node) && forall e <- o.out :: TrafficSafe(s, d, k, e)
  {
    var n := c.nodes[p];
    var o := OnVoteReply(s.Of(p), n, m);
    StillSafe(s, c, h, d, k, n, o.node);
    LogIndices(n);
    if o.node == n {
      ViewLater(c, h, d, k, n);
    } else if o.node.role == Leader {
      BroadcastSafe(s, d, k, p, o.node);
    }
  }

  /** A leader of its own reign, on its own part of the invariants. */
  ghost predicate Leads(s: Setting, c: Cluster, h: History, p: NodeId, n: Node) {
    && p in s.members && NodeShape(s, p, n) && Contiguous(n.log) && n.role == Leader
    && ReplicaSafe(s, c, h, n) && ViewSound(c, h, n)
    && n.term in h.reigns && h.reigns[n.term].log == n.log && h.reigns[n.term].id == p
    && ReignLog(h, n.term, h.reigns[n.term])
  }

  /** An inherited index lies within the log the leader was elected with, and conversely. */
  lemma InheritedInBase(s: Setting, h: History, p: NodeId, n: Node, k: nat)
    requires NodeShape(s, p, n) && Contiguous(n.log) && n.term in h.reigns
    requires h.reigns[n.term].log == n.log && ReignLog(h, n.term, h.reigns[n.term])
    ensures Inherited(n, k) <==> k <= |h.reigns[n.term].base|
  {
    LogIndices(n);
    var r := h.reigns[n.term];
    if 0 < k <= |n.log| {
      if k <= |r.base| {
        assert n.log[k - 1] == r.base[k - 1];
      } else {
        assert n.log[k - 1].term == n.term;
      }
    }
  }

  lemma SafeSuccess(s: Setting, c: Cluster, h: History, p: NodeId, n: Node, e: Envelope)
    requires Leads(s, c, h, p, n) && e in c.net && e.dst == p && e.msg.AppendReply? && Routed(s, e)
    requires e.msg.success && e.msg.term <= n.term && !Stale(s.guards, n, e.msg.term) && AcksSound(c, h)
    requires CarefulReply(s.guards, c.net, n, e.msg)
    ensures
      var m := AdvanceCommit(s.Of(p), Progress(n, e.msg.follower, e.msg.matchIndex));
      ReplicaSafe(s, c, h, m) && ViewSound(c, h, m)
  {
    var m := e.msg;
    var n1 := Progress(n, m.follower, m.matchIndex);
    InheritedInBase(s, h, p, n, m.matchIndex);
    if !Inherited(n, m.matchIndex) {
      assert e.msg.term == n.term ==> IsAck(e, n.term, m.follower, m.matchIndex);
      assert Acked(c, h, n.term, m.follower, m.matchIndex);
    }
    assert Counted(c, h, n.term, m.follower, m.matchIndex);
    StillSafe(s, c, h, c, h, n, n1);
    AdvanceSafe(s, c, h, p, n1);
    AdvanceFrame(s.Of(p), n1);
  }

  lemma SafeRefusal(s: Setting, c: Cluster, h: History, p: NodeId, n: Node, e: Envelope)
    requires Leads(s, c, h, p, n) && e in c.net && e.dst == p && e.msg.AppendReply? && Routed(s, e) && TrafficSafe(s, c, h, e)
    requires !e.msg.success && e.msg.term <= n.term && !Stale(s.guards, n, e.msg.term)
    requires CarefulReply(s.guards, c.net, n, e.msg)
    ensures
      var m := Retreat(n, e.msg.follower, e.msg.conflict);
      ReplicaSafe(s, c, h, m) && ViewSound(c, h, m) && TrafficSafe(s, c, h, AppendTo(s.Of(p), m, e.msg.follower))
  {
    var n1 := Retreat(n, e.msg.follower, e.msg.conflict);
    LogIndices(n);
    StillSafe(s, c, h, c, h, n, n1);
    AppendToSafe(s, c, h, p, n1, e.msg.follower);
  }

  lemma SafeReply(s: Setting, c: Cluster, h: History, p: NodeId, e: Envelope)
    requires p in s.members && p in c.nodes && NodeShape(s, p, c.nodes[p]) && Contiguous(c.nodes[p].log)
    requires e in c.net && e.dst == p && e.msg.AppendReply? && Routed(s, e) && TrafficSafe(s, c, h, e) && AcksSound(c, h)
    requires ReplicaSafe(s, c, h, c.nodes[p]) && ViewSound(c, h, c.nodes[p]) && CarefulReply(s.guards, c.net, c.nodes[p], e.msg)
    requires LeaderReady(h, p, c.nodes[p])
    ensures
      var o := OnAppendReply(s.Of(p), c.nodes[p], e.msg);
      ReplicaSafe(s, c, h, o.node) && ViewSound(c, h, o.node) && forall e <- o.out :: TrafficSafe(s, c, h, e)
  {
    var n, m := c.nodes[p], e.msg;
    if m.term > n.term {
      StillSafe(s, c, h, c, h, n, BecomeFollower(n, m.term));
    } else if n.role == Leader && !Stale(s.guards, n, m.term) {
      if m.success {
        SafeSuccess(s, c, h, p, n, e);
      } else {
        SafeRefusal(s, c, h, p, n, e);
      }
    }
  }

  lemma {:induction false} BackOffBound(n: Node, conflict: nat, badTerm: nat)
    ensures BackOff(n, conflict, badTerm) <= conflict
    decreases conflict
  {
    if conflict > 1 && n.TermAt(conflict - 1) == badTerm {
      BackOffBound(n, conflict - 1, badTerm);
    }
  }

  /** A refusal points at an index the leader has. */
  lemma RefusalSafe(s: Setting, c: Cluster, h: History, p: NodeId, n: Node, src: NodeId, m: Message)
    requires m.Append? && AppendSafe(s, c, h, m) && m.term >= n.term
    requires ReplicaSafe(s, c, h, n) && !PrefixMatches(Recognise(n, m.term, m.leader), m)
    ensures
      var o := OnAppend(s.Of(p), n, src, m);
      ReplicaSafe(s, c, h, o.node) && ViewSound(c, h, o.node) && forall e <- o.out :: TrafficSafe(s, c, h, e)
  {
    var n1 := Recognise(n, m.term, m.leader);
    StillSafe(s, c, h, c, h, n, n1);
    var x := Min(m.prevIndex, n1.LastIndex() + 1);
    BackOffBound(n1, x, n1.TermAt(x));
  }

  lemma AcceptCovered(s: Setting, c: Cluster, h: History, m: Message, log: seq<Entry>)
    requires m.Append? && AppendSafe(s, c, h, m) && Holds(log, h.reigns[m.term].log, m.prevIndex + |m.entries|)
    ensures Covered(s, c, h, log, m.commit, m.term) && m.commit <= |log|
  {
    var x, leader, end := m.commit, h.reigns[m.term].log, m.prevIndex + |m.entries|;
    if x > 0 {
      var t: nat, k: nat :| Covers(s, c, h, t, k, leader, x, m.term);
      assert log[..x] == log[..end][..x] == leader[..end][..x] == leader[..x];
      assert Covers(s, c, h, t, k, log, x, m.term);
    }
  }

  /** The merged log keeps the committed prefix and covers what the leader has committed. */
  lemma AcceptKeeps(s: Setting, c: Cluster, h: History, p: NodeId, n: Node, src: NodeId, m: Message)
    requires NodeShape(s, p, n) && NodeLog(h, n) && c.nodes.Keys == s.members
    requires m.Append? && AppendSafe(s, c, h, m) && m.term >= n.term
    requires Promises(s, c, h) && AllReigns(h) && ReignsElected(s, c, h)
    requires Covered(s, c, h, n.log, n.commit, n.term) && n.commit <= |n.log|
    requires Accepts(n, m)
    ensures
      var log := MergeEntries(0, n.log, m.entries);
      && Covered(s, c, h, log, n.commit, m.term) && n.commit <= |log| && log[..n.commit] == n.log[..n.commit]
      && Covered(s, c, h, log, m.commit, m.term) && m.commit <= |log|
  {
    assert ReignLog(h, m.term, h.reigns[m.term]);
    AppendOutcome(s, h, p, n, src, m);
    var log := MergeEntries(0, n.log, m.entries);
    CoveredSurvives(s, c, h, n, m.term, log, n.commit);
    AcceptCovered(s, c, h, m, log);
  }

  lemma AcceptSafe(s: Setting, c: Cluster, h: History, p: NodeId, n: Node, src: NodeId, m: Message)
    requires m.Append? && Accepts(n, m)
    requires n.snapIndex == 0 && n.snapTerm == 0 && Applied(n)
    requires
      var log := MergeEntries(0, n.log, m.entries);
      && Contiguous(log)
      && Covered(s, c, h, log, n.commit, m.term) && n.commit <= |log| && log[..n.commit] == n.log[..n.commit]
      && Covered(s, c, h, log, m.commit, m.term) && m.commit <= |log|
    ensures
      var o := OnAppend(s.Of(p), n, src, m);
      ReplicaSafe(s, c, h, o.node) && ViewSound(c, h, o.node) && forall e <- o.out :: TrafficSafe(s, c, h, e)
  {
    AcceptLearns(s, h, p, n, src, m, MergeEntries(0, n.log, m.entries));
  }

  /** The follower's state machine after an accepted append. */
  lemma AcceptLearns(s: Setting, h: History, p: NodeId, n: Node, src: NodeId, m: Message, log: seq<Entry>)
    requires m.Append? && Accepts(n, m)
    requires n.snapIndex == 0 && n.snapTerm == 0 && log == MergeEntries(0, n.log, m.entries) && Contiguous(log)
    requires Applied(n) && n.commit <= |log| && log[..n.commit] == n.log[..n.commit] && m.commit <= |log|
    ensures
      var o := OnAppend(s.Of(p), n, src, m).node;
      Applied(o) && o.log == log && o.commit == (if m.commit > n.commit then m.commit else n.commit) && o.role == Follower && o.term == m.term
  {
    var n1 := Recognise(n, m.term, m.leader);
    var n2 := n1.(log := log);
    LogIndices(n2);
    if m.commit > n.commit {
      CatchUpApplied(n1, log, m.commit);
      ApplyCommittedFrame(n2.(commit := m.commit));
      assert n1.(log := log, commit := m.commit) == n2.(commit := m.commit);
    }
  }

  lemma SafeAppend(s: Setting, c: Cluster, h: History, p: NodeId, n: Node, src: NodeId, m: Message)
    requires NodeShape(s, p, n) && NodeLog(h, n) && c.nodes.Keys == s.members
    requires m.Append? && AppendSafe(s, c, h, m)
    requires Promises(s, c, h) && AllReigns(h) && ReignsElected(s, c, h)
    requires ReplicaSafe(s, c, h, n) && ViewSound(c, h, n)
    requires Contiguous(OnAppend(s.Of(p), n, src, m).node.log)
    ensures
      var o := OnAppend(s.Of(p), n, src, m);
      ReplicaSafe(s, c, h, o.node) && ViewSound(c, h, o.node) && forall e <- o.out :: TrafficSafe(s, c, h, e)
  {
    if m.term >= n.term {
      if PrefixMatches(Recognise(n, m.term, m.leader), m) {
        AcceptKeeps(s, c, h, p, n, src, m);
        LearnFrame(Recognise(n, m.term, m.leader).(log := MergeEntries(0, n.log, m.entries)), m.commit);
        AcceptSafe(s, c, h, p, n, src, m);
      } else {
        RefusalSafe(s, c, h, p, n, src, m);
      }
    }
  }

  // --------------------------------------------------------------- every step

  /** Everything the invariant says about one replica. */
  ghost predicate Ready(s: Setting, c: Cluster, h: History, p: NodeId) {
    && p in s.members && c.nodes.Keys == s.members
    && NodeShape(s, p, c.nodes[p]) && NodeLog(h, c.nodes[p])
    && ReplicaSafe(s, c, h, c.nodes[p]) && ViewSound(c, h, c.nodes[p])
    && LeaderReady(h, p, c.nodes[p])
  }

  ghost predicate LeaderReady(h: History, p: NodeId, n: Node) {
    n.role == Leader ==>
      n.term in h.reigns && h.reigns[n.term].log == n.log && h.reigns[n.term].id == p && ReignLog(h, n.term, h.reigns[n.term])
  }

  lemma Readiness(s: Setting, c: Cluster, h: History, p: NodeId)
    requires Elections(s, c, h) && Logs(s, c, h) && Safe(s, c, h) && p in s.members
    ensures Ready(s, c, h, p)
  {}

  lemma MovedReady(s: Setting, c: Cluster, h: History, p: NodeId)
    requires Elections(s, c, h) && Logs(s, c, h) && p in s.members
    ensures NodeShape(s, p, c.nodes[p]) && Contiguous(c.nodes[p].log) && LeaderReady(h, p, c.nodes[p])
  {}

  lemma StepSafe(s: Setting, c: Cluster, h: History, a: Action)
    requires Invariant(s, c, h) && Enabled(c, a) && Careful(s, c, a)
    requires
      var p, o := Actor(a), React(s, c, a);
      var d, k := Update(c, p, o), After(h, p, o.node, Cast(h, c, a));
      Later(c, h, d, k) && NodeShape(s, p, o.node) && Contiguous(o.node.log) && LeaderReady(k, p, o.node)
    ensures
      var p, o := Actor(a), React(s, c, a);
      var d, k := Update(c, p, o), After(h, p, o.node, Cast(h, c, a));
      ReplicaSafe(s, d, k, o.node) && ViewSound(d, k, o.node) && forall e <- o.out :: TrafficSafe(s, d, k, e)
  {
    var p, o := Actor(a), React(s, c, a);
    var d, k := Update(c, p, o), After(h, p, o.node, Cast(h, c, a));
    Readiness(s, c, h, p);
    match a
    case Timeout(_) => SafeTimeout(s, c, h, p, d, k);
    case Beat(_) =>
      BroadcastSafe(s, c, h, p, c.nodes[p]);
      MoveLater(s, c, h, d, k, o);
    case Submit(_, command) =>
      SubmitFrame(s, p, c.nodes[p], command);
      SafeSubmit(s, c, h, p, command, d, k);
    case Deliver(e) =>
      assert Routed(s, e) && TrafficSafe(s, c, h, e);
      DeliverSafe(s, c, h, e, d, k);
  }

  /** Facts about the outcome that hold before the step hold after it. */
  lemma MoveLater(s: Setting, c: Cluster, h: History, d: Cluster, k: History, o: Outcome)
    requires Later(c, h, d, k)
    requires ReplicaSafe(s, c, h, o.node) && ViewSound(c, h, o.node) && forall e <- o.out :: TrafficSafe(s, c, h, e)
    ensures ReplicaSafe(s, d, k, o.node) && ViewSound(d, k, o.node) && forall e <- o.out :: TrafficSafe(s, d, k, e)
  {
    CoveredLater(s, c, h, d, k, o.node.log, o.node.log, o.node.commit, o.node.term, o.node.term);
    ViewLater(c, h, d, k, o.node);
    forall e <- o.out {
      TrafficLater(s, c, h, d, k, e);
    }
  }

  lemma VoteSafe(s: Setting, c: Cluster, h: History, n: Node, p: NodeId, e: Envelope)
    requires ReplicaSafe(s, c, h, n) && ViewSound(c, h, n) && e.msg.RequestVote?
    ensures
      var o := OnRequestVote(s.Of(p), n, e.src, e.msg);
      ReplicaSafe(s, c, h, o.node) && ViewSound(c, h, o.node) && forall f <- o.out :: TrafficSafe(s, c, h, f)
  {
    StillSafe(s, c, h, c, h, n, OnRequestVote(s.Of(p), n, e.src, e.msg).node);
  }

  lemma DeliverSafe(s: Setting, c: Cluster, h: History, e: Envelope, d: Cluster, k: History)
    requires Ready(s, c, h, e.dst) && AcksSound(c, h)
    requires e in c.net && Routed(s, e) && TrafficSafe(s, c, h, e)
    requires e.msg.AppendReply? ==> CarefulReply(s.guards, c.net, c.nodes[e.dst], e.msg)
    requires e.msg.Append? ==> Promises(s, c, h) && AllReigns(h) && ReignsElected(s, c, h)
    requires
      var o := Handle(s.Of(e.dst), c.nodes[e.dst], e).node;
      NodeShape(s, e.dst, o) && Contiguous(o.log) && LeaderReady(k, e.dst, o)
    requires Later(c, h, d, k)
    ensures
      var o := Handle(s.Of(e.dst), c.nodes[e.dst], e);
      ReplicaSafe(s, d, k, o.node) && ViewSound(d, k, o.node) && forall f <- o.out :: TrafficSafe(s, d, k, f)
  {
    var p, n := e.dst, c.nodes[e.dst];
    match e.msg
    case RequestVote(_, _, _, _) =>
      VoteSafe(s, c, h, n, p, e);
      MoveLater(s, c, h, d, k, OnRequestVote(s.Of(p), n, e.src, e.msg));
    case VoteReply(_, _, _) => SafeVoteReply(s, c, h, p, e.msg, d, k);
    case Append(_, _, _, _, _, _) =>
      SafeAppend(s, c, h, p, n, e.src, e.msg);
      MoveLater(s, c, h, d, k, OnAppend(s.Of(p), n, e.src, e.msg));
    case AppendReply(_, _, _, _, _) =>
      SafeReply(s, c, h, p, e);
      MoveLater(s, c, h, d, k, OnAppendReply(s.Of(p), n, e.msg));
  }

  lemma {:induction false} InvariantAlways(s: Setting, run: seq<Action>)
    requires Disciplined(s, run)
    ensures Invariant(s, Exec(s, run), Chronicle(s, run))
    decreases |run|
  {
    ElectionsAlways(s, run);
    LogsAlways(s, run);
    if run != [] {
      var before, a := run[..|run| - 1], run[|run| - 1];
      InvariantAlways(s, before);
      var c, h := Exec(s, before), Chronicle(s, before);
      if Enabled(c, a) {
        var p, o, cast := Actor(a), React(s, c, a), Cast(h, c, a);
        LogReact(s, c, h, a);
        HonestReact(s, c, h, a);
        AfterAdvances(s, c, h, p, o, cast);
        KeepPromises(s, c, h, p, o, cast);
        MovedReady(s, Exec(s, run), Chronicle(s, run), p);
        StepSafe(s, c, h, a);
        KeepSafe(s, c, h, p, o, After(h, p, o.node, cast));
      }
    } else {
      assert Commands([]) == [];
    }
  }
}
