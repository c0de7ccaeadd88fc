/**
 * What a success reply claims is in the follower's log, and when that is true.
 *
 * The reply certifies a prefix of the log of a leader of its own term.  A leader of a later term reads
 * it as a claim about its own log.  For the entries of its own term, what the follower holds is exactly
 * what it has acknowledged in that term.
 */
module RaftClaims {
  import opened Options
  import opened Replication
  import opened RaftModel
  import opened RaftCluster
  import opened RaftElection
  import opened RaftLog
  import opened RaftCommit
  import opened RaftPromises
  import opened RaftSafety
  import opened RaftHonesty
  import opened RaftRuns

  predicate AckedIn(net: set<Envelope>, t: nat, f: NodeId, k: nat) {
    exists e <- net :: IsAck(e, t, f, k)
  }

  lemma AckedInMore(net: set<Envelope>, net2: set<Envelope>, t: nat, f: NodeId, k: nat)
    requires AckedIn(net, t, f, k) && net <= net2
    ensures AckedIn(net2, t, f, k)
  {}

  // ----------------------------------- what is held has been acknowledged

  /** An entry of the replica's own term, at position `i` of its log. */
  predicate Own(n: Node, i: nat) {
    i < |n.log| && n.log[i].term == n.term
  }

  /** A replica that does not lead its term has acknowledged every entry of that term it holds. */
  predicate OwnAcked(net: set<Envelope>, h: History, p: NodeId, n: Node) {
    forall i: nat | i < |n.log| :: OwnAckedAt(net, h, p, n, i)
  }

  predicate OwnAckedAt(net: set<Envelope>, h: History, p: NodeId, n: Node, i: nat) {
    Own(n, i) && n.term in h.reigns && h.reigns[n.term].id != p ==> AckedIn(net, n.term, p, i + 1)
  }

  predicate AllOwnAcked(c: Cluster, h: History) {
    forall p <- c.nodes :: OwnAcked(c.net, h, p, c.nodes[p])
  }

  /** A replica that goes to a later term with its log holds nothing of that term. */
  lemma LaterTermOwnsNothing(net: set<Envelope>, h: History, p: NodeId, n: Node, m: Node)
    requires TermsUpTo(n.log, n.term) && m.log == n.log && m.term > n.term
    ensures OwnAcked(net, h, p, m)
  {}

  /** Nothing changes for a replica that keeps its term and log. */
  lemma StillOwnAcked(net: set<Envelope>, net2: set<Envelope>, h: History, k: History, p: NodeId, n: Node, m: Node)
    requires OwnAcked(net, h, p, n) && m.log == n.log && m.term == n.term && net <= net2
    requires Canonical(h, n.log) && Extends(h, k)
    ensures OwnAcked(net2, k, p, m)
  {
    forall i: nat | i < |m.log| ensures OwnAckedAt(net2, k, p, m, i) {
      assert OwnAckedAt(net, h, p, n, i) && Rooted(h, n.log, i);
    }
  }

  /** An accepted append: what is new in the log is acknowledged at once, and so is what is taken over if it goes further. */
  lemma AcceptedOwnAcked(s: Setting, net: set<Envelope>, h: History, p: NodeId, n: Node, src: NodeId, m: Message)
    requires NodeShape(s, p, n) && NodeLog(h, n) && 0 !in h.reigns && OwnAcked(net, h, p, n)
    requires m.Append? && m.term in h.reigns && ReignLog(h, m.term, h.reigns[m.term])
    requires (Blind(m) || Carries(h.reigns[m.term].log, m)) && Accepts(n, m)
    ensures
      var o := OnAppend(s.Of(p), n, src, m);
      OwnAcked(net + o.out, h, p, o.node)
  {
    var o := OnAppend(s.Of(p), n, src, m);
    AcceptedShape(s.Of(p), n, src, m);
    var reply := Envelope(p, src, AppendReply(m.term, true, p, Acknowledged(s.guards, o.node, m), 0));
    AcceptedLogIs(h, n, m);
    forall i: nat | i < |o.node.log| ensures OwnAckedAt(net + o.out, h, p, o.node, i) {
      if Own(o.node, i) && h.reigns[m.term].id != p {
        if o.node.log == n.log && n.term == m.term {
          assert OwnAckedAt(net, h, p, n, i) && Rooted(h, n.log, i);
          AckedInMore(net, net + o.out, m.term, p, i + 1);
        } else if o.node.log != n.log {
          LastOfPrefix(h, o.node, m);
          assert reply in net + o.out && IsAck(reply, m.term, p, i + 1);
        }
      }
    }
  }

  /** The log after an accepted append: unchanged, or the leader's up to the end of the range. */
  lemma AcceptedLogIs(h: History, n: Node, m: Message)
    requires n.snapIndex == 0 && n.snapTerm == 0 && NodeLog(h, n) && 0 !in h.reigns
    requires m.Append? && m.term in h.reigns && ReignLog(h, m.term, h.reigns[m.term])
    requires (Blind(m) || Carries(h.reigns[m.term].log, m)) && Accepts(n, m)
    ensures
      var log := MergeEntries(0, n.log, m.entries);
      log == n.log || (Carries(h.reigns[m.term].log, m) && log == h.reigns[m.term].log[..m.prevIndex + |m.entries|])
  {
    if !Blind(m) {
      AppendResult(h, h.reigns[m.term].log, Recognise(n, m.term, m.leader), m);
    }
  }

  /** After the leader's log has been taken over up to the end of the range, both variants acknowledge all of it. */
  lemma LastOfPrefix(h: History, o: Node, m: Message)
    requires m.Append? && m.term in h.reigns && ReignLog(h, m.term, h.reigns[m.term]) && Carries(h.reigns[m.term].log, m)
    requires o.log == h.reigns[m.term].log[..m.prevIndex + |m.entries|] && o.snapIndex == 0 && o.snapTerm == 0
    ensures forall g: Guards :: Acknowledged(g, o, m) == |o.log|
  {
    LogIndices(o);
  }

  predicate TakesOver(c: Cluster, a: Action)
    requires Enabled(c, a)
  {
    a.Deliver? && a.envelope.msg.Append? && Accepts(c.nodes[a.envelope.dst], a.envelope.msg)
  }

  lemma DeliveredLog(s: Setting, c: Cluster, e: Envelope)
    requires Enabled(c, Deliver(e)) && !TakesOver(c, Deliver(e)) && Routed(s, e)
    ensures Handle(s.Of(e.dst), c.nodes[e.dst], e).node.log == c.nodes[e.dst].log
  {
    var n, cfg, m := c.nodes[e.dst], s.Of(e.dst), e.msg;
    match m
    case RequestVote(_, _, _, _) =>
    case VoteReply(_, _, _) =>
    case Append(_, _, _, _, _, _) =>
    case AppendReply(_, _, _, _, _) => AdvanceFrame(cfg, Progress(n, m.follower, m.matchIndex));
  }

  /** Only accepted appends and a leader's own commands change a log. */
  lemma LogStays(s: Setting, c: Cluster, a: Action)
    requires Enabled(c, a) && !TakesOver(c, a) && (a.Deliver? ==> Routed(s, a.envelope))
    ensures
      var n, m := c.nodes[Actor(a)], React(s, c, a).node;
      m.log == n.log || (m.role == Leader && m.term == n.term)
  {
    match a
    case Timeout(_) =>
    case Beat(_) =>
    case Submit(p, command) => SubmitFrame(s, p, c.nodes[p], command);
    case Deliver(e) => DeliveredLog(s, c, e);
  }

  lemma MovedOwnAcked(s: Setting, c: Cluster, h: History, a: Action, k: History)
    requires Elections(s, c, h) && Logs(s, c, h) && AllOwnAcked(c, h) && Enabled(c, a)
    requires
      var p, o := Actor(a), React(s, c, a);
      && k.reigns == Reigning(h, p, o.node) && Extends(h, k)
      && (o.node.role == Leader ==> o.node.term in k.reigns && k.reigns[o.node.term].id == p)
    ensures OwnAcked(c.net + React(s, c, a).out, k, Actor(a), React(s, c, a).node)
  {
    var p, o := Actor(a), React(s, c, a);
    var n, net := c.nodes[p], c.net + o.out;
    assert a.Deliver? ==> Routed(s, a.envelope);
    if TakesOver(c, a) {
      ReceivedOwnAcked(s, c, h, a.envelope, k);
    } else {
      LogStays(s, c, a);
      LogReact(s, c, h, a);
      if o.node.log == n.log {
        if o.node.term == n.term {
          StillOwnAcked(c.net, net, h, k, p, n, o.node);
        } else {
          LaterTermOwnsNothing(net, k, p, n, o.node);
        }
      }
    }
  }

  lemma ReceivedOwnAcked(s: Setting, c: Cluster, h: History, e: Envelope, k: History)
    requires Elections(s, c, h) && Logs(s, c, h) && AllOwnAcked(c, h) && Enabled(c, Deliver(e)) && TakesOver(c, Deliver(e))
    requires k.reigns == Reigning(h, e.dst, OnAppend(s.Of(e.dst), c.nodes[e.dst], e.src, e.msg).node)
    ensures
      var o := OnAppend(s.Of(e.dst), c.nodes[e.dst], e.src, e.msg);
      OwnAcked(c.net + o.out, k, e.dst, o.node)
  {
    var p, n := e.dst, c.nodes[e.dst];
    assert Routed(s, e);
    assert OwnAcked(c.net, h, p, n);
    AcceptedShape(s.Of(p), n, e.src, e.msg);
    AcceptedOwnAcked(s, c.net, h, p, n, e.src, e.msg);
    var o := OnAppend(s.Of(p), n, e.src, e.msg);
    forall i: nat | i < |o.node.log| ensures OwnAckedAt(c.net + o.out, k, p, o.node, i) {
      assert OwnAckedAt(c.net + o.out, h, p, o.node, i);
    }
  }

  lemma {:induction false} OwnAckedAlways(s: Setting, run: seq<Action>)
    ensures AllOwnAcked(Exec(s, run), Chronicle(s, run))
    decreases |run|
  {
    if run != [] {
      var before, a := run[..|run| - 1], run[|run| - 1];
      OwnAckedAlways(s, before);
      ElectionsAlways(s, before);
      LogsAlways(s, before);
      if Enabled(Exec(s, before), a) {
        ElectionsAlways(s, run);
        OwnAckedStep(s, Exec(s, before), Chronicle(s, before), a, Exec(s, run), Chronicle(s, run));
      }
    }
  }

  lemma KeepOwnAcked(c: Cluster, h: History, p: NodeId, o: Outcome, k: History)
    requires AllOwnAcked(c, h) && p in c.nodes && Extends(h, k) && OwnAcked(c.net + o.out, k, p, o.node)
    requires forall q <- c.nodes :: Canonical(h, c.nodes[q].log)
    ensures AllOwnAcked(Update(c, p, o), k)
  {
    var d := Update(c, p, o);
    forall q <- d.nodes ensures OwnAcked(d.net, k, q, d.nodes[q]) {
      if q != p {
        StillOwnAcked(c.net, d.net, h, k, q, c.nodes[q], c.nodes[q]);
      }
    }
  }

  lemma CanonicalNodes(s: Setting, c: Cluster, h: History)
    requires Logs(s, c, h)
    ensures forall q <- c.nodes :: Canonical(h, c.nodes[q].log)
  {
    forall q <- c.nodes ensures Canonical(h, c.nodes[q].log) {
      assert NodeLog(h, c.nodes[q]);
    }
  }

  lemma NewLeaderReigns(s: Setting, d: Cluster, k: History, p: NodeId)
    requires Elections(s, d, k) && p in s.members
    ensures d.nodes[p].role == Leader ==> d.nodes[p].term in k.reigns && k.reigns[d.nodes[p].term].id == p
  {}

  lemma OwnAckedStep(s: Setting, c: Cluster, h: History, a: Action, d: Cluster, k: History)
    requires Elections(s, c, h) && Logs(s, c, h) && AllOwnAcked(c, h) && Enabled(c, a)
    requires d == Update(c, Actor(a), React(s, c, a)) && k == Record(s, c, h, a) && Elections(s, d, k)
    ensures AllOwnAcked(d, k)
  {
    var p, o := Actor(a), React(s, c, a);
    LogReact(s, c, h, a);
    ExtendsReigning(h, p, c.nodes[p], o, k.ballots);
    NewLeaderReigns(s, d, k, p);
    MovedOwnAcked(s, c, h, a, k);
    CanonicalNodes(s, c, h);
    KeepOwnAcked(c, h, p, o, k);
  }

  // ------------------------------------------------------- truth of a claim

  lemma AckedIsHeld(s: Setting, c: Cluster, h: History, p: NodeId, f: NodeId, k: nat)
    requires Elections(s, c, h) && Logs(s, c, h) && Promises(s, c, h)
    requires p in s.members && f in s.members && f != p && c.nodes[p].role == Leader && c.nodes[f].term <= c.nodes[p].term
    requires c.nodes[p].term in h.reigns && AckedIn(c.net, c.nodes[p].term, f, k)
    ensures Holds(c.nodes[f].log, c.nodes[p].log, k)
  {
    var t := c.nodes[p].term;
    var e :| e in c.net && IsAck(e, t, f, k);
    assert Acked(c, h, t, f, k);
    assert AckHeld(c, h, t, f, k);
  }

  lemma HeldIsAcked(c: Cluster, h: History, p: NodeId, f: NodeId, k: nat)
    requires p in c.nodes && f in c.nodes && AllOwnAcked(c, h) && c.nodes[f].term <= c.nodes[p].term
    requires
      var n := c.nodes[p];
      && n.term in h.reigns && n.log == h.reigns[n.term].log && h.reigns[n.term].id == p && f != p
      && |h.reigns[n.term].base| < k && ReignLog(h, n.term, h.reigns[n.term]) && TermsUpTo(c.nodes[f].log, c.nodes[f].term)
    requires Holds(c.nodes[f].log, c.nodes[p].log, k)
    ensures AckedIn(c.net, c.nodes[p].term, f, k)
  {
    var n, m := c.nodes[p], c.nodes[f];
    assert n.log[k - 1].term == n.term;
    assert m.log[k - 1] == m.log[..k][k - 1] == n.log[..k][k - 1];
    assert OwnAckedAt(c.net, h, f, m, k - 1);
  }

  /** What a follower has of the leader's own entries is what it has acknowledged in the leader's term. */
  lemma HeldIffAcked(s: Setting, c: Cluster, h: History, p: NodeId, f: NodeId, k: nat)
    requires Elections(s, c, h) && Logs(s, c, h) && Promises(s, c, h) && AllOwnAcked(c, h)
    requires p in s.members && f in s.members && f != p && c.nodes[p].role == Leader && c.nodes[f].term <= c.nodes[p].term
    requires
      var n := c.nodes[p];
      n.term in h.reigns && |h.reigns[n.term].base| < k
    ensures Holds(c.nodes[f].log, c.nodes[p].log, k) <==> AckedIn(c.net, c.nodes[p].term, f, k)
  {
    NewLeaderReigns(s, c, h, p);
    if AckedIn(c.net, c.nodes[p].term, f, k) {
      AckedIsHeld(s, c, h, p, f, k);
    }
    if Holds(c.nodes[f].log, c.nodes[p].log, k) {
      assert NodeLog(h, c.nodes[f]);
      HeldIsAcked(c, h, p, f, k);
    }
  }
}
