/** The safety theorems, stated over the runs of a cluster. */
module RaftTheorems {
  import opened Options
  import opened Replication
  import opened RaftModel
  import opened RaftCluster
  import opened RaftElection
  import opened RaftLog
  import opened RaftCommit
  import opened RaftPromises
  import opened RaftSafety
  import opened RaftHonesty
  import opened RaftRuns
  import opened RaftClaims

  /** The state of one replica after the first `i` actions of a run. */
  function At(s: Setting, run: seq<Action>, i: nat, p: NodeId): Node
    requires i <= |run|
  {
    var c := Exec(s, run[..i]);
    if p in c.nodes then c.nodes[p] else FRESH
  }

  lemma {:induction false} DisciplinedPrefix(s: Setting, run: seq<Action>, i: nat)
    requires i <= |run| && Disciplined(s, run)
    ensures Disciplined(s, run[..i])
    decreases |run|
  {
    if i == |run| {
      assert run[..i] == run;
    } else {
      assert run[..|run| - 1][..i] == run[..i];
      DisciplinedPrefix(s, run[..|run| - 1], i);
    }
  }

  lemma {:induction false} NetGrows(s: Setting, run: seq<Action>, i: nat)
    requires i <= |run|
    ensures Exec(s, run[..i]).net <= Exec(s, run).net
    decreases |run|
  {
    if i == |run| {
      assert run[..i] == run;
    } else {
      assert run[..|run| - 1][..i] == run[..i];
      NetGrows(s, run[..|run| - 1], i);
    }
  }

  /** What a replica has committed at any moment is covered at the end of the run. */
  lemma CoveredAtEnd(s: Setting, run: seq<Action>, i: nat, p: NodeId)
    requires i <= |run| && p in s.members && Disciplined(s, run)
    ensures
      var n := At(s, run, i, p);
      Applied(n) && Covered(s, Exec(s, run), Chronicle(s, run), n.log, n.commit, n.term)
  {
    var c, h, d, k := Exec(s, run[..i]), Chronicle(s, run[..i]), Exec(s, run), Chronicle(s, run);
    DisciplinedPrefix(s, run, i);
    InvariantAlways(s, run[..i]);
    NetGrows(s, run, i);
    HistoryGrows(s, run, i);
    var n := At(s, run, i, p);
    CoveredLater(s, c, h, d, k, n.log, n.log, n.commit, n.term, n.term);
  }

  /** What a replica regards as committed. */
  function Prefix(n: Node): seq<Entry> {
    if n.commit <= |n.log| then n.log[..n.commit] else n.log
  }

  lemma AtEnd(s: Setting, run: seq<Action>)
    requires Disciplined(s, run)
    ensures
      var c, h := Exec(s, run), Chronicle(s, run);
      Promises(s, c, h) && AllReigns(h) && c.nodes.Keys == s.members && ReignsElected(s, c, h)
  {
    InvariantAlways(s, run);
  }

  /** A leader's log extends the log it was elected with. */
  lemma LeaderExtendsBase(s: Setting, run: seq<Action>, j: nat, q: NodeId)
    requires j <= |run| && q in s.members && At(s, run, j, q).role == Leader
    ensures
      var m, h := At(s, run, j, q), Chronicle(s, run);
      m.term in h.reigns && h.reigns[m.term].base <= m.log
  {
    LogsAlways(s, run[..j]);
    HistoryGrows(s, run, j);
    var m, h := At(s, run, j, q), Chronicle(s, run[..j]);
    assert ReignLog(h, m.term, h.reigns[m.term]);
  }

  lemma CoversInBase(s: Setting, c: Cluster, h: History, t: nat, k: nat, log: seq<Entry>, commit: nat, v: nat, u: nat)
    requires Promises(s, c, h) && AllReigns(h) && c.nodes.Keys == s.members && ReignsElected(s, c, h)
    requires Covers(s, c, h, t, k, log, commit, v) && v < u && u in h.reigns
    ensures commit <= |log| && log[..commit] <= h.reigns[u].base
  {
    Completeness(s, c, h, t, k, u);
    HoldsVia(log, h.reigns[t].log, h.reigns[u].base, commit, k);
  }

  lemma CoveredInLeader(s: Setting, c: Cluster, h: History, n: Node, u: nat, log: seq<Entry>)
    requires Promises(s, c, h) && AllReigns(h) && c.nodes.Keys == s.members && ReignsElected(s, c, h)
    requires Applied(n) && Covered(s, c, h, n.log, n.commit, n.term) && n.term < u
    requires u in h.reigns && h.reigns[u].base <= log
    ensures Prefix(n) <= log
  {
    if n.commit > 0 {
      var t: nat, k: nat :| Covers(s, c, h, t, k, n.log, n.commit, n.term);
      CoversInBase(s, c, h, t, k, n.log, n.commit, n.term, u);
    }
  }

  /**
   * Leader completeness: whatever a replica has committed at some moment of a disciplined run is in
   * the log of every leader of a later term, at every moment, earlier or later.
   */
  lemma LeaderCompleteness(s: Setting, run: seq<Action>, i: nat, j: nat, p: NodeId, q: NodeId)
    requires i <= |run| && j <= |run| && p in s.members && q in s.members && Disciplined(s, run)
    requires At(s, run, j, q).role == Leader && At(s, run, i, p).term < At(s, run, j, q).term
    ensures Prefix(At(s, run, i, p)) <= At(s, run, j, q).log
  {
    CoveredAtEnd(s, run, i, p);
    AtEnd(s, run);
    LeaderExtendsBase(s, run, j, q);
    var m := At(s, run, j, q);
    CoveredInLeader(s, Exec(s, run), Chronicle(s, run), At(s, run, i, p), m.term, m.log);
  }

  /** Of two committed prefixes, one is a prefix of the other. */
  lemma CommittedAgree(s: Setting, c: Cluster, h: History, a: seq<Entry>, x: nat, b: seq<Entry>, y: nat, t: nat, k: nat, u: nat, z: nat, v: nat)
    requires Promises(s, c, h) && AllReigns(h) && c.nodes.Keys == s.members && ReignsElected(s, c, h)
    requires Covers(s, c, h, t, k, a, x, v) && Covers(s, c, h, u, z, b, y, v) && t <= u
    ensures a[..x] <= b[..y] || b[..y] <= a[..x]
  {
    LeadersHold(s, c, h, t, k, u);
    HoldsVia(a, h.reigns[t].log, h.reigns[u].log, x, k);
    var leader := h.reigns[u].log;
    assert a[..x] == leader[..x] && b[..y] == leader[..y];
  }

  lemma CommandsPrefix(a: seq<Entry>, b: seq<Entry>)
    requires a <= b
    ensures Commands(a) <= Commands(b)
  {}

  lemma CoveredAgree(s: Setting, c: Cluster, h: History, a: seq<Entry>, x: nat, va: nat, b: seq<Entry>, y: nat, vb: nat)
    requires Promises(s, c, h) && AllReigns(h) && c.nodes.Keys == s.members && ReignsElected(s, c, h)
    requires 0 < x <= |a| && 0 < y <= |b| && Covered(s, c, h, a, x, va) && Covered(s, c, h, b, y, vb)
    ensures a[..x] <= b[..y] || b[..y] <= a[..x]
  {
    var v := Max(va, vb);
    var t: nat, k: nat :| Covers(s, c, h, t, k, a, x, va);
    var u: nat, z: nat :| Covers(s, c, h, u, z, b, y, vb);
    if t <= u {
      CommittedAgree(s, c, h, a, x, b, y, t, k, u, z, v);
    } else {
      CommittedAgree(s, c, h, b, y, a, x, u, z, t, k, v);
    }
  }

  lemma AppliedAgree(s: Setting, c: Cluster, h: History, n: Node, m: Node)
    requires Promises(s, c, h) && AllReigns(h) && c.nodes.Keys == s.members && ReignsElected(s, c, h)
    requires Applied(n) && Covered(s, c, h, n.log, n.commit, n.term)
    requires Applied(m) && Covered(s, c, h, m.log, m.commit, m.term)
    ensures n.applied <= m.applied || m.applied <= n.applied
  {
    var a, b := n.log[..n.commit], m.log[..m.commit];
    if n.commit > 0 && m.commit > 0 {
      CoveredAgree(s, c, h, n.log, n.commit, n.term, m.log, m.commit, m.term);
    }
    if a <= b { CommandsPrefix(a, b); } else { CommandsPrefix(b, a); }
  }

  /**
   * State machine safety: in a disciplined run, what two replicas have applied at any two moments
   * is always one a prefix of the other.
   */
  lemma StateMachineSafety(s: Setting, run: seq<Action>, i: nat, j: nat, p: NodeId, q: NodeId)
    requires i <= |run| && j <= |run| && p in s.members && q in s.members && Disciplined(s, run)
    ensures
      var a, b := At(s, run, i, p).applied, At(s, run, j, q).applied;
      a <= b || b <= a
  {
    CoveredAtEnd(s, run, i, p);
    CoveredAtEnd(s, run, j, q);
    AtEnd(s, run);
    AppliedAgree(s, Exec(s, run), Chronicle(s, run), At(s, run, i, p), At(s, run, j, q));
  }

  /** Replicas that have applied equally many commands hold the same documents. */
  lemma Convergence(s: Setting, run: seq<Action>, i: nat, j: nat, p: NodeId, q: NodeId)
    requires i <= |run| && j <= |run| && p in s.members && q in s.members && Disciplined(s, run)
    requires At(s, run, i, p).lastApplied == At(s, run, j, q).lastApplied
    ensures At(s, run, i, p).docs == At(s, run, j, q).docs
  {
    StateMachineSafety(s, run, i, j, p, q);
    CoveredAtEnd(s, run, i, p);
    CoveredAtEnd(s, run, j, q);
    var n, m := At(s, run, i, p), At(s, run, j, q);
    assert |n.applied| == n.lastApplied && |m.applied| == m.lastApplied;
    assert n.applied == m.applied;
  }

  /** A replica's replies never grant two candidates a vote in one term, in any variant. */
  lemma OneGrantPerTerm(s: Setting, run: seq<Action>, e: Envelope, f: Envelope)
    requires e in Exec(s, run).net && f in Exec(s, run).net && IsGrant(e) && IsGrant(f)
    requires e.src == f.src && e.msg.term == f.msg.term
    ensures e.dst == f.dst
  {
    ElectionsAlways(s, run);
    assert Routed(s, e) && Routed(s, f);
    assert e == Grant(e.msg.term, e.src, e.dst) && f == Grant(f.msg.term, f.src, f.dst);
  }

  // -------------------------------------- when the two deviations tell the truth

  /** A log agrees with the leader's up to its end exactly if its last entry is the leader's. */
  lemma WholeLogHeld(h: History, t: nat, log: seq<Entry>)
    requires t in h.reigns && ReignLog(h, t, h.reigns[t]) && Canonical(h, log) && 0 !in h.reigns
    ensures Holds(log, h.reigns[t].log, |log|) <==> TermIn(h.reigns[t].log, |log|) == TermIn(log, |log|)
  {
    var leader := h.reigns[t].log;
    if log != [] {
      assert Rooted(h, log, |log| - 1);
      if TermIn(leader, |log|) == TermIn(log, |log|) {
        CanonicalMatch(h, log, leader, |log| - 1);
        assert log[..|log|] == log;
      }
    }
  }

  /** An acknowledgement of the whole log is true exactly if it is careful. */
  lemma LastIndexTrue(g: Guards, h: History, t: nat, o: Node, m: Message)
    requires m.Append? && !g.ackPrefix && m.term == t && t in h.reigns && ReignLog(h, t, h.reigns[t]) && 0 !in h.reigns
    requires o.snapIndex == 0 && o.snapTerm == 0 && Contiguous(o.log) && Canonical(h, o.log)
    requires Ships(h.reigns[t], m) && !Blind(m) && Holds(o.log, h.reigns[t].log, m.prevIndex + |m.entries|)
    ensures CarefulAck(g, o, m) <==> Holds(o.log, h.reigns[t].log, o.LastIndex())
  {
    LogIndices(o);
    if CarefulAck(g, o, m) {
      CarefulHolds(g, h, o, m);
    }
    if Holds(o.log, h.reigns[t].log, |o.log|) && |o.log| > m.prevIndex + |m.entries| {
      assert o.log[|o.log| - 1] == h.reigns[t].log[|o.log| - 1];
    }
  }

  /** The follower's state after an accepted append, in any variant. */
  lemma AcceptedState(s: Setting, h: History, p: NodeId, n: Node, src: NodeId, m: Message)
    requires NodeShape(s, p, n) && NodeLog(h, n) && 0 !in h.reigns
    requires m.Append? && m.term in h.reigns && ReignLog(h, m.term, h.reigns[m.term])
    requires Accepts(n, m) && (Blind(m) || Carries(h.reigns[m.term].log, m))
    ensures
      var o := OnAppend(s.Of(p), n, src, m).node;
      && o.snapIndex == 0 && o.snapTerm == 0 && Contiguous(o.log) && Canonical(h, o.log)
      && (!Blind(m) ==> Holds(o.log, h.reigns[m.term].log, m.prevIndex + |m.entries|))
  {
    AcceptedShape(s.Of(p), n, src, m);
    if !Blind(m) {
      AcceptedLog(h, n, m);
      MergedCanonical(h, n, m);
    }
  }

  lemma MergedCanonical(h: History, n: Node, m: Message)
    requires n.snapIndex == 0 && n.snapTerm == 0 && NodeLog(h, n) && 0 !in h.reigns
    requires m.Append? && m.term in h.reigns && ReignLog(h, m.term, h.reigns[m.term]) && Carries(h.reigns[m.term].log, m)
    requires Accepts(n, m)
    ensures Contiguous(MergeEntries(0, n.log, m.entries)) && Canonical(h, MergeEntries(0, n.log, m.entries))
  {
    var r, end := h.reigns[m.term], m.prevIndex + |m.entries|;
    AppendResult(h, r.log, Recognise(n, m.term, m.leader), m);
    CanonicalPrefix(h, r.log, end);
  }

  /** The follower's log goes beyond the shipped range and conflicts with nothing in it. */
  predicate Outruns(n: Node, m: Message)
    requires m.Append?
  {
    n.LastIndex() > m.prevIndex + |m.entries| && forall e <- m.entries :: n.TermAt(e.index) == e.term
  }

  /** The condition of a careful acknowledgement, before the append is taken in. */
  predicate MayAck(n: Node, m: Message)
    requires m.Append?
  {
    Outruns(n, m) ==> n.LastTerm() == m.term
  }

  /** A log that conflicts with nothing shipped holds all of it, if it is long enough. */
  lemma OutrunsCovers(h: History, n: Node, m: Message, leader: seq<Entry>)
    requires n.snapIndex == 0 && n.snapTerm == 0 && NodeLog(h, n) && Canonical(h, leader) && Contiguous(leader)
    requires m.Append? && Carries(leader, m) && |n.log| > m.prevIndex + |m.entries|
    requires m.prevIndex > 0 ==> n.log[..m.prevIndex] == leader[..m.prevIndex]
    ensures leader[..m.prevIndex + |m.entries|] <= n.log <==> Outruns(n, m)
  {
    var end := m.prevIndex + |m.entries|;
    LogIndices(n);
    if leader[..end] <= n.log {
      forall e <- m.entries ensures n.TermAt(e.index) == e.term {
        var i :| 0 <= i < |m.entries| && m.entries[i] == e;
        assert e == leader[m.prevIndex + i] == leader[..end][m.prevIndex + i] == n.log[m.prevIndex + i];
      }
    } else if Outruns(n, m) && m.entries != [] {
      var e := m.entries[|m.entries| - 1];
      assert e in m.entries && e == leader[end - 1];
      CanonicalMatch(h, n.log, leader, end - 1);
    }
  }

  /** What is acknowledged can be read off before the append is taken in. */
  lemma CarefulIffMay(s: Setting, h: History, p: NodeId, n: Node, src: NodeId, m: Message)
    requires !s.guards.ackPrefix && NodeShape(s, p, n) && NodeLog(h, n) && 0 !in h.reigns
    requires m.Append? && m.term in h.reigns && ReignLog(h, m.term, h.reigns[m.term])
    requires Carries(h.reigns[m.term].log, m) && Accepts(n, m)
    ensures CarefulAck(s.guards, OnAppend(s.Of(p), n, src, m).node, m) <==> MayAck(n, m)
  {
    var leader, end := h.reigns[m.term].log, m.prevIndex + |m.entries|;
    var o := OnAppend(s.Of(p), n, src, m).node;
    AcceptedShape(s.Of(p), n, src, m);
    AcceptedState(s, h, p, n, src, m);
    AppendResult(h, leader, Recognise(n, m.term, m.leader), m);
    LogIndices(n);
    LogIndices(o);
    if |n.log| > end {
      OutrunsCovers(h, n, m, leader);
    }
  }

  lemma AckTrue(s: Setting, h: History, p: NodeId, n: Node, src: NodeId, m: Message)
    requires !s.guards.ackPrefix && NodeShape(s, p, n) && NodeLog(h, n) && 0 !in h.reigns
    requires m.Append? && m.term in h.reigns && ReignLog(h, m.term, h.reigns[m.term])
    requires Ships(h.reigns[m.term], m) && Accepts(n, m)
    ensures
      var o, leader := OnAppend(s.Of(p), n, src, m).node, h.reigns[m.term].log;
      && (Holds(o.log, leader, o.LastIndex()) <==> TermIn(leader, o.LastIndex()) == o.LastTerm())
      && (!Blind(m) ==> (CarefulAck(s.guards, o, m) <==> Holds(o.log, leader, o.LastIndex())))
      && (!Blind(m) ==> (MayAck(n, m) <==> Holds(o.log, leader, o.LastIndex())))
  {
    var o := OnAppend(s.Of(p), n, src, m).node;
    AcceptedState(s, h, p, n, src, m);
    LogIndices(o);
    WholeLogHeld(h, m.term, o.log);
    if !Blind(m) {
      LastIndexTrue(s.guards, h, m.term, o, m);
      CarefulIffMay(s, h, p, n, src, m);
    }
  }

  /** What the log invariants say about an append and its receiver. */
  lemma ReceiverState(s: Setting, c: Cluster, h: History, e: Envelope)
    requires Elections(s, c, h) && Logs(s, c, h) && e in c.net && e.msg.Append?
    ensures e.dst in s.members && NodeShape(s, e.dst, c.nodes[e.dst]) && NodeLog(h, c.nodes[e.dst]) && 0 !in h.reigns
    ensures e.msg.term in h.reigns && ReignLog(h, e.msg.term, h.reigns[e.msg.term]) && Ships(h.reigns[e.msg.term], e.msg)
  {
    assert Routed(s, e);
  }

  /**
   * When the code's acknowledgement is true.  In any run of any variant, a follower that accepts an
   * append acknowledges, as coded, its own last index.  That prefix agrees with the log of the
   * sender if and only if the follower's last entry is then the sender's, of the same index and term.
   * If the append carries part of the sender's log, this can be told before it is taken in: if and only
   * if the follower's log does not outrun the shipped range, or ends in an entry of the sender's term;
   * which is also when the step is careful.
   */
  lemma AckTrueIffCareful(s: Setting, run: seq<Action>, e: Envelope)
    requires !s.guards.ackPrefix && e in Exec(s, run).net && e.msg.Append?
    requires e.dst in Exec(s, run).nodes && Accepts(Exec(s, run).nodes[e.dst], e.msg)
    ensures
      var h, n := Chronicle(s, run), Exec(s, run).nodes[e.dst];
      var m := OnAppend(s.Of(e.dst), n, e.src, e.msg).node;
      && e.msg.term in h.reigns
      && var holds := Holds(m.log, h.reigns[e.msg.term].log, m.LastIndex());
      && (holds <==> TermIn(h.reigns[e.msg.term].log, m.LastIndex()) == m.LastTerm())
      && (!Blind(e.msg) ==> (holds <==> MayAck(n, e.msg)) && (holds <==> CarefulAck(s.guards, m, e.msg)))
  {
    var c, h := Exec(s, run), Chronicle(s, run);
    ElectionsAlways(s, run);
    LogsAlways(s, run);
    ReceiverState(s, c, h, e);
    AckTrue(s, h, e.dst, c.nodes[e.dst], e.src, e.msg);
  }

  /** The leader takes the reply in. */
  predicate TakesIn(s: Setting, c: Cluster, e: Envelope) {
    && e in c.net && e.msg.AppendReply? && e.dst in c.nodes
    && var n := c.nodes[e.dst]; n.role == Leader && e.msg.term <= n.term && !Stale(s.guards, n, e.msg.term)
  }

  /** The leader that takes a reply in, and its reign. */
  ghost predicate Taking(s: Setting, h: History, p: NodeId, n: Node, f: NodeId) {
    && NodeShape(s, p, n) && Contiguous(n.log) && Canonical(h, n.log) && 0 !in h.reigns && f in s.members - {p}
    && n.term in h.reigns && h.reigns[n.term].log == n.log && ReignLog(h, n.term, h.reigns[n.term])
  }

  lemma TakingState(s: Setting, run: seq<Action>, e: Envelope)
    requires TakesIn(s, Exec(s, run), e)
    ensures Taking(s, Chronicle(s, run), e.dst, Exec(s, run).nodes[e.dst], e.msg.follower)
  {
    ElectionsAlways(s, run);
    LogsAlways(s, run);
    assert Routed(s, e);
  }

  /**
   * What a follower that has not gone beyond the leader's term has of the leader's own entries is
   * exactly what it has acknowledged in that term, in every disciplined run.
   */
  lemma HoldsIffAcked(s: Setting, run: seq<Action>, p: NodeId, f: NodeId, k: nat)
    requires Disciplined(s, run) && p in s.members && f in s.members && f != p
    requires p in Exec(s, run).nodes && f in Exec(s, run).nodes
    requires
      var n, m := Exec(s, run).nodes[p], Exec(s, run).nodes[f];
      n.role == Leader && m.term <= n.term && !Inherited(n, k)
    ensures
      var c := Exec(s, run);
      Holds(c.nodes[f].log, c.nodes[p].log, k) <==> AckedIn(c.net, c.nodes[p].term, f, k)
  {
    var c, h := Exec(s, run), Chronicle(s, run);
    InvariantAlways(s, run);
    OwnAckedAlways(s, run);
    MovedReady(s, c, h, p);
    InheritedInBase(s, h, p, c.nodes[p], k);
    HeldIffAcked(s, c, h, p, f, k);
  }

  lemma CarefulSuccess(s: Setting, c: Cluster, e: Envelope)
    requires TakesIn(s, c, e) && e.msg.success && e.src == e.msg.follower
    ensures
      var n := c.nodes[e.dst];
      CarefulReply(s.guards, c.net, n, e.msg) <==>
        Inherited(n, e.msg.matchIndex) || AckedIn(c.net, n.term, e.msg.follower, e.msg.matchIndex)
  {
    var n := c.nodes[e.dst];
    assert e.msg.term == n.term ==> IsAck(e, n.term, e.msg.follower, e.msg.matchIndex);
  }

  /**
   * When believing a success is harmless.  In any disciplined run, a leader takes in a success from a
   * follower that has not gone beyond the leader's term; the reply may answer an earlier term.  The
   * step is careful if and only if the claim is true: the leader was elected with what it claims, or
   * the follower's log agrees with the leader's up to there.
   */
  lemma SuccessTrueIffCareful(s: Setting, run: seq<Action>, e: Envelope)
    requires Disciplined(s, run) && TakesIn(s, Exec(s, run), e) && e.msg.success
    requires e.msg.follower in Exec(s, run).nodes
    requires Exec(s, run).nodes[e.msg.follower].term <= Exec(s, run).nodes[e.dst].term
    ensures
      var c := Exec(s, run);
      var n, m := c.nodes[e.dst], c.nodes[e.msg.follower];
      CarefulReply(s.guards, c.net, n, e.msg) <==> Inherited(n, e.msg.matchIndex) || Holds(m.log, n.log, e.msg.matchIndex)
  {
    TakingState(s, run, e);
    SenderIsFollower(s, run, e);
    CarefulSuccess(s, Exec(s, run), e);
    if !Inherited(Exec(s, run).nodes[e.dst], e.msg.matchIndex) {
      HoldsIffAcked(s, run, e.dst, e.msg.follower, e.msg.matchIndex);
    }
  }

  lemma SenderIsFollower(s: Setting, run: seq<Action>, e: Envelope)
    requires e in Exec(s, run).net && e.msg.AppendReply?
    ensures e.src == e.msg.follower && e.dst in s.members
  {
    ElectionsAlways(s, run);
    assert Routed(s, e);
  }

  lemma RecordedCareful(s: Setting, c: Cluster, h: History, p: NodeId, n: Node, m: Message)
    requires m.AppendReply? && Taking(s, h, p, n, m.follower) && n.role == Leader && ViewSound(c, h, n) && h.reigns[n.term].id == p
    requires m.success && (Inherited(n, m.matchIndex) || (m.follower in n.match_ && m.matchIndex <= n.match_[m.follower]))
    ensures CarefulReply(s.guards, c.net, n, m)
  {
    InheritedInBase(s, h, p, n, m.matchIndex);
    if !Inherited(n, m.matchIndex) {
      assert Counted(c, h, n.term, m.follower, n.match_[m.follower]);
      var e :| e in c.net && IsAck(e, n.term, m.follower, n.match_[m.follower]);
      assert IsAck(e, n.term, m.follower, m.matchIndex);
    }
  }

  /**
   * What a leader can check for itself: a success that claims no more than the leader was elected with,
   * or than it has recorded for the follower, is harmless.
   */
  lemma KnownSuccessCareful(s: Setting, run: seq<Action>, e: Envelope)
    requires Disciplined(s, run) && TakesIn(s, Exec(s, run), e) && e.msg.success
    requires
      var n := Exec(s, run).nodes[e.dst];
      Inherited(n, e.msg.matchIndex) || (e.msg.follower in n.match_ && e.msg.matchIndex <= n.match_[e.msg.follower])
    ensures CarefulReply(s.guards, Exec(s, run).net, Exec(s, run).nodes[e.dst], e.msg)
  {
    var c, h := Exec(s, run), Chronicle(s, run);
    InvariantAlways(s, run);
    TakingState(s, run, e);
    MovedReady(s, c, h, e.dst);
    RecordedCareful(s, c, h, e.dst, c.nodes[e.dst], e.msg);
  }

  /**
   * When following a refusal is harmless.  In any run of any variant, what a leader sends next to a
   * replica that refused is blind, a claim about an index that the leader does not have, if and only
   * if the hint points beyond the end of its log, or there is no hint and the leader already looked
   * beyond it.
   */
  lemma RefusalBlindIffBeyond(s: Setting, run: seq<Action>, e: Envelope)
    requires TakesIn(s, Exec(s, run), e) && !e.msg.success
    ensures
      var c, f := Exec(s, run), e.msg.follower;
      var n := c.nodes[e.dst];
      var o := OnAppendReply(s.Of(e.dst), n, e.msg);
      var a := AppendTo(s.Of(e.dst), o.node, f);
      && o.out == {a} && a.msg.Append?
      && (Blind(a.msg) <==>
            if e.msg.conflict > 0 then e.msg.conflict > n.LastIndex() + 1
            else f in n.next && n.next[f] > n.LastIndex() + 2)
      && (e.msg.conflict > 0 && e.msg.term < n.term ==> (Blind(a.msg) <==> !CarefulReply(s.guards, c.net, n, e.msg)))
  {
    TakingState(s, run, e);
    FollowsHint(s, Exec(s, run).net, Chronicle(s, run), e.dst, Exec(s, run).nodes[e.dst], e.msg);
  }

  lemma FollowsHint(s: Setting, net: set<Envelope>, h: History, p: NodeId, n: Node, m: Message)
    requires m.AppendReply? && Taking(s, h, p, n, m.follower) && n.role == Leader && !m.success
    requires m.term <= n.term && !Stale(s.guards, n, m.term)
    ensures
      var o, f := OnAppendReply(s.Of(p), n, m), m.follower;
      var a := AppendTo(s.Of(p), o.node, f);
      && o.out == {a} && a.msg.Append?
      && (Blind(a.msg) <==>
            if m.conflict > 0 then m.conflict > n.LastIndex() + 1 else f in n.next && n.next[f] > n.LastIndex() + 2)
      && (m.conflict > 0 && m.term < n.term ==> (Blind(a.msg) <==> !CarefulReply(s.guards, net, n, m)))
  {
    NextBlind(s, h, p, Retreat(n, m.follower, m.conflict), m.follower);
  }

  /** An append is blind exactly if the leader expects the follower to be ahead of it. */
  lemma NextBlind(s: Setting, h: History, p: NodeId, n: Node, f: NodeId)
    requires NodeShape(s, p, n) && Contiguous(n.log) && Canonical(h, n.log) && 0 !in h.reigns && f in s.members - {p}
    ensures
      var a := AppendTo(s.Of(p), n, f).msg;
      a.Append? && (Blind(a) <==> NextOf(n, f) > n.LastIndex() + 1)
  {
    LogIndices(n);
    var prev := NextOf(n, f) - 1;
    if 0 < prev <= |n.log| {
      assert Rooted(h, n.log, prev - 1);
    }
  }
}
