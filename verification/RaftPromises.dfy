/** Every reaction keeps what acknowledgements and votes certify. */
module RaftPromises {
  import opened Options
  import opened Replication
  import opened RaftModel
  import opened RaftCluster
  import opened RaftElection
  import opened RaftLog
  import opened RaftCommit

  /** The new log keeps whatever the old one had in common with a leader's. */
  ghost predicate KeepsLeader(a: seq<Entry>, b: seq<Entry>, leader: seq<Entry>) {
    forall k: nat :: Holds(a, leader, k) ==> Holds(b, leader, k)
  }

  predicate HonestAck(h: History, m: Node, e: Envelope) {
    e.msg.AppendReply? && e.msg.success ==>
      && e.msg.term == m.term && m.term in h.reigns
      && Holds(m.log, h.reigns[m.term].log, e.msg.matchIndex)
  }

  predicate HonestBallot(c: Cluster, h: History, p: NodeId, n: Node, m: Node, b: Ballot) {
    && b.voter == p && b.term == m.term && b.term !in h.reigns && b.log == n.log
    && LogUpToDate(b.lastIndex, b.lastTerm, b.log)
    && (b.candidate == p || b.candidate in c.nodes)
    && Claim(if b.candidate == p then m else c.nodes[b.candidate], b.term, b.lastIndex, b.lastTerm)
  }

  /** What a reaction of replica `p` certifies truthfully. */
  ghost predicate Honest(c: Cluster, h: History, p: NodeId, o: Outcome, cast: set<Ballot>)
    requires p in c.nodes
  {
    var n, m := c.nodes[p], o.node;
    && LawfulLog(h, p, n, o)
    && (forall e <- o.out :: e.src == p)
    && (n.log <= m.log || (m.term in h.reigns && KeepsLeader(n.log, m.log, h.reigns[m.term].log)))
    && (forall e <- o.out :: HonestAck(h, m, e))
    && (forall e <- o.out :: e.msg.RequestVote? ==> e.msg.candidate == p && Claim(m, e.msg.term, e.msg.lastIndex, e.msg.lastTerm))
    && (forall t: nat, v: NodeId, q: NodeId :: Grant(t, v, q) in o.out ==>
          t in h.reigns || exists b <- cast :: IsBallot(b, t, v, q))
    && (forall b <- cast :: HonestBallot(c, h, p, n, m, b))
    && (m.role == Candidate && !(n.role == Candidate && n.term == m.term) ==>
          m.term in h.reigns || exists b <- cast :: IsBallot(b, m.term, p, p))
    && (m.role == Leader && m.term !in h.reigns ==>
          Chosen(h.(ballots := h.ballots + cast), m.term, Reign(p, m.votes, m.log, m.log)))
  }

  /** The history after the reaction. */
  function After(h: History, p: NodeId, m: Node, cast: set<Ballot>): History {
    History(Reigning(h, p, m), h.ballots + cast)
  }

  /** How the history changes: reigns and ballots stay, and only `p` may extend the log of its own term. */
  ghost predicate Advances(h: History, p: NodeId, m: Node, k: History) {
    && Extends(h, k) && h.ballots <= k.ballots
    && (forall t <- k.reigns :: t !in h.reigns || k.reigns[t].log != h.reigns[t].log ==>
          t == m.term && k.reigns[t].id == p && k.reigns[t].log == m.log)
  }

  lemma AfterAdvances(s: Setting, c: Cluster, h: History, p: NodeId, o: Outcome, cast: set<Ballot>)
    requires p in s.members && c.nodes.Keys == s.members && LeaderLogs(s, c, h) && LeadersReign(s, c, h)
    requires LawfulLog(h, p, c.nodes[p], o)
    ensures Advances(h, p, o.node, After(h, p, o.node, cast))
  {
    ExtendsReigning(h, p, c.nodes[p], o, h.ballots + cast);
  }

  // ------------------------------------------------------------- monotonicity

  lemma HoldsExtends(log: seq<Entry>, a: seq<Entry>, b: seq<Entry>, k: nat)
    requires a <= b && k <= |a|
    ensures Holds(log, a, k) <==> Holds(log, b, k)
  {
    assert a[..k] == b[..k];
  }

  lemma MissedExtends(h: History, k: History, t: nat, x: nat, u: nat)
    requires Extends(h, k) && t in h.reigns && x <= |h.reigns[t].log| && Missed(h, t, x, u)
    ensures Missed(k, t, x, u)
  {
    var v :| v in h.reigns && t < v <= u && !Holds(h.reigns[v].base, h.reigns[t].log, x);
    HoldsExtends(h.reigns[v].base, h.reigns[t].log, k.reigns[t].log, x);
    assert v in k.reigns;
  }

  lemma MissedLater(h: History, t: nat, x: nat, u: nat, w: nat)
    requires t in h.reigns && Missed(h, t, x, u) && u <= w
    ensures Missed(h, t, x, w)
  {}

  // ------------------------------------------------------------- preservation

  lemma KeepClaim(h: History, p: NodeId, n: Node, o: Outcome, t: nat, lastIndex: nat, lastTerm: nat)
    requires LawfulLog(h, p, n, o) && Claim(n, t, lastIndex, lastTerm)
    ensures Claim(o.node, t, lastIndex, lastTerm)
  {}

  lemma KeepRequests(c: Cluster, h: History, p: NodeId, o: Outcome, cast: set<Ballot>)
    requires p in c.nodes && Honest(c, h, p, o, cast) && RequestsClaim(c)
    ensures RequestsClaim(Update(c, p, o))
  {
    var d := Update(c, p, o);
    forall e <- d.net | e.msg.RequestVote?
      ensures e.msg.candidate in d.nodes && Claim(d.nodes[e.msg.candidate], e.msg.term, e.msg.lastIndex, e.msg.lastTerm)
    {
      if e in c.net && e.msg.candidate == p {
        KeepClaim(h, p, c.nodes[p], o, e.msg.term, e.msg.lastIndex, e.msg.lastTerm);
      }
    }
  }

  lemma KeepBallot(c: Cluster, h: History, p: NodeId, o: Outcome, k: History, b: Ballot)
    requires p in c.nodes && LawfulLog(h, p, c.nodes[p], o) && BallotSound(c, h, b) && Extends(h, k)
    ensures BallotSound(Update(c, p, o), k, b)
  {
    CanonicalExtends(h, k, b.log);
    if b.candidate == p {
      KeepClaim(h, p, c.nodes[p], o, b.term, b.lastIndex, b.lastTerm);
    }
  }

  lemma NewBallot(c: Cluster, h: History, p: NodeId, o: Outcome, k: History, b: Ballot)
    requires p in c.nodes && Canonical(h, c.nodes[p].log) && HonestBallot(c, h, p, c.nodes[p], o.node, b) && Extends(h, k)
    ensures BallotSound(Update(c, p, o), k, b)
  {
    CanonicalExtends(h, k, b.log);
  }

  lemma KeepBacked(h: History, k: History, t: nat, v: NodeId, q: NodeId)
    requires Backed(h, t, v, q) && h.ballots <= k.ballots
    ensures Backed(k, t, v, q)
  {}

  lemma KeepGrantsBacked(c: Cluster, h: History, p: NodeId, o: Outcome, cast: set<Ballot>)
    requires p in c.nodes && Honest(c, h, p, o, cast) && GrantsBacked(c, h)
    requires Extends(h, After(h, p, o.node, cast))
    ensures GrantsBacked(Update(c, p, o), After(h, p, o.node, cast))
  {
    var d, k := Update(c, p, o), After(h, p, o.node, cast);
    forall t: nat, v: NodeId, q: NodeId | Grant(t, v, q) in d.net && t !in k.reigns ensures Backed(k, t, v, q) {
      if Grant(t, v, q) in o.out {
        var b :| b in cast && IsBallot(b, t, v, q);
        assert b in k.ballots;
      } else {
        KeepBacked(h, k, t, v, q);
      }
    }
  }

  lemma KeepCandidatesBacked(c: Cluster, h: History, p: NodeId, o: Outcome, cast: set<Ballot>)
    requires p in c.nodes && Honest(c, h, p, o, cast) && CandidatesBacked(c, h)
    requires Extends(h, After(h, p, o.node, cast))
    ensures CandidatesBacked(Update(c, p, o), After(h, p, o.node, cast))
  {
    var d, k, m := Update(c, p, o), After(h, p, o.node, cast), o.node;
    forall q <- d.nodes | d.nodes[q].role == Candidate && d.nodes[q].term !in k.reigns
      ensures Backed(k, d.nodes[q].term, q, q)
    {
      if q == p && !(c.nodes[p].role == Candidate && c.nodes[p].term == m.term) {
        var b :| b in cast && IsBallot(b, m.term, p, p);
        assert b in k.ballots;
      } else {
        KeepBacked(h, k, d.nodes[q].term, q, q);
      }
    }
  }

  lemma KeepChosen(h: History, k: History, t: nat, r: Reign, q: Reign)
    requires Chosen(h, t, r) && h.ballots <= k.ballots && q.id == r.id && q.quorum == r.quorum && q.base == r.base
    ensures Chosen(k, t, q)
  {
    forall v <- q.quorum
      ensures exists b <- k.ballots :: IsBallot(b, t, v, q.id) && b.lastIndex == |q.base| && b.lastTerm == TermIn(q.base, |q.base|)
    {
      var b :| b in h.ballots && IsBallot(b, t, v, r.id) && b.lastIndex == |r.base| && b.lastTerm == TermIn(r.base, |r.base|);
      assert b in k.ballots;
    }
  }

  lemma KeepAllChosen(c: Cluster, h: History, p: NodeId, o: Outcome, cast: set<Ballot>)
    requires p in c.nodes && Honest(c, h, p, o, cast)
    requires forall t <- h.reigns :: Chosen(h, t, h.reigns[t])
    ensures
      var k := After(h, p, o.node, cast);
      forall t <- k.reigns :: Chosen(k, t, k.reigns[t])
  {
    var k := After(h, p, o.node, cast);
    forall t <- k.reigns ensures Chosen(k, t, k.reigns[t]) {
      if t in h.reigns {
        KeepChosen(h, k, t, h.reigns[t], k.reigns[t]);
      } else {
        var g := h.(ballots := h.ballots + cast);
        KeepChosen(g, k, t, k.reigns[t], k.reigns[t]);
      }
    }
  }

  lemma KeepAcksSound(c: Cluster, h: History, p: NodeId, o: Outcome, cast: set<Ballot>)
    requires p in c.nodes && Honest(c, h, p, o, cast) && AcksSound(c, h)
    requires Extends(h, After(h, p, o.node, cast))
    ensures AcksSound(Update(c, p, o), After(h, p, o.node, cast))
  {
    var d, k := Update(c, p, o), After(h, p, o.node, cast);
    forall e <- d.net | e.msg.AppendReply? && e.msg.success
      ensures e.msg.term in k.reigns && e.msg.matchIndex <= |k.reigns[e.msg.term].log|
    {
      if e in o.out { assert HonestAck(h, o.node, e); }
    }
  }

  /** An acknowledgement is either an old one or vouched for by the log of the replica that moved. */
  lemma AckedOrigin(c: Cluster, h: History, p: NodeId, o: Outcome, k: History, t: nat, w: NodeId, x: nat)
    requires p in c.nodes && Advances(h, p, o.node, k) && AcksSound(c, h)
    requires (forall e <- o.out :: HonestAck(h, o.node, e)) && (forall e <- o.out :: e.src == p)
    requires Acked(Update(c, p, o), k, t, w, x)
    ensures Acked(c, h, t, w, x) || (w == p && t == o.node.term && Holds(o.node.log, k.reigns[t].log, x))
  {
    var d := Update(c, p, o);
    if w == k.reigns[t].id {
      if t !in h.reigns || x > |h.reigns[t].log| {
        assert k.reigns[t].log == o.node.log;
      }
    } else {
      var e :| e in d.net && IsAck(e, t, w, x);
      if e in c.net {
        assert Acked(c, h, t, w, x);
      } else {
        assert HonestAck(h, o.node, e);
        assert Holds(o.node.log, h.reigns[t].log, x) by {
          var y, a, b := e.msg.matchIndex, o.node.log, h.reigns[t].log;
          assert a[..x] == a[..y][..x] && b[..x] == b[..y][..x];
        }
        HoldsExtends(o.node.log, h.reigns[t].log, k.reigns[t].log, x);
      }
    }
  }

  /** The replica that moved still holds what it vouched for, or a later leader lacked it. */
  lemma MovedHolds(h: History, n: Node, m: Node, t: nat, x: nat)
    requires AllReigns(h) && t in h.reigns && x <= |h.reigns[t].log|
    requires n.term >= t && m.term >= n.term
    requires n.log <= m.log || (m.term in h.reigns && KeepsLeader(n.log, m.log, h.reigns[m.term].log))
    requires Holds(n.log, h.reigns[t].log, x) || Missed(h, t, x, n.term)
    ensures Holds(m.log, h.reigns[t].log, x) || Missed(h, t, x, m.term)
  {
    var a := h.reigns[t].log;
    if !Holds(n.log, a, x) {
      MissedLater(h, t, x, n.term, m.term);
    } else if n.log <= m.log {
      assert m.log[..x] == n.log[..x];
    } else {
      var r := h.reigns[m.term];
      if m.term == t {
        assert Holds(m.log, a, x);
      } else if Holds(r.base, a, x) {
        assert ReignLog(h, m.term, r);
        assert r.log[..x] == r.base[..x];
        assert Holds(n.log, r.log, x);
        assert Holds(m.log, r.log, x);
      }
    }
  }

  lemma KeepAck(c: Cluster, h: History, p: NodeId, o: Outcome, k: History, t: nat, w: NodeId, x: nat)
    requires p in c.nodes && Advances(h, p, o.node, k) && AllReigns(h)
    requires o.node.term >= c.nodes[p].term
    requires
      var n, m := c.nodes[p], o.node;
      n.log <= m.log || (m.term in h.reigns && KeepsLeader(n.log, m.log, h.reigns[m.term].log))
    requires t in h.reigns && x <= |h.reigns[t].log| && AckHeld(c, h, t, w, x)
    ensures AckHeld(Update(c, p, o), k, t, w, x)
  {
    var d := Update(c, p, o);
    if w == p {
      MovedHolds(h, c.nodes[p], o.node, t, x);
    }
    HoldsExtends(d.nodes[w].log, h.reigns[t].log, k.reigns[t].log, x);
    if !Holds(d.nodes[w].log, h.reigns[t].log, x) {
      MissedExtends(h, k, t, x, d.nodes[w].term);
    }
  }

  lemma KeepAcksHeld(c: Cluster, h: History, p: NodeId, o: Outcome, cast: set<Ballot>)
    requires p in c.nodes && Honest(c, h, p, o, cast) && AcksSound(c, h) && AcksHeld(c, h) && AllReigns(h)
    requires Advances(h, p, o.node, After(h, p, o.node, cast))
    ensures AcksHeld(Update(c, p, o), After(h, p, o.node, cast))
  {
    var d, k := Update(c, p, o), After(h, p, o.node, cast);
    forall t: nat, w: NodeId, x: nat | Acked(d, k, t, w, x) ensures AckHeld(d, k, t, w, x) {
      AckedOrigin(c, h, p, o, k, t, w, x);
      if Acked(c, h, t, w, x) {
        KeepAck(c, h, p, o, k, t, w, x);
      }
    }
  }

  lemma KeepBallotHolds(h: History, k: History, b: Ballot, t: nat, x: nat)
    requires Extends(h, k) && t in h.reigns && b.term > t && x <= |h.reigns[t].log| && BallotHolds(h, b, t, x)
    ensures BallotHolds(k, b, t, x)
  {
    HoldsExtends(b.log, h.reigns[t].log, k.reigns[t].log, x);
    if !Holds(b.log, h.reigns[t].log, x) {
      MissedExtends(h, k, t, x, b.term - 1);
    }
  }

  lemma KeepBallotsHold(c: Cluster, h: History, p: NodeId, o: Outcome, cast: set<Ballot>)
    requires p in c.nodes && Honest(c, h, p, o, cast) && AcksSound(c, h) && AcksHeld(c, h) && BallotsHold(c, h)
    requires forall b <- h.ballots :: BallotSound(c, h, b)
    requires Advances(h, p, o.node, After(h, p, o.node, cast))
    ensures BallotsHold(Update(c, p, o), After(h, p, o.node, cast))
  {
    var d, k, m := Update(c, p, o), After(h, p, o.node, cast), o.node;
    forall t: nat, x: nat, b: Ballot | b in k.ballots && b.term > t && Acked(d, k, t, b.voter, x)
      ensures BallotHolds(k, b, t, x)
    {
      AckedOrigin(c, h, p, o, k, t, b.voter, x);
      if b in h.ballots {
        assert BallotSound(c, h, b);
        assert Acked(c, h, t, b.voter, x);
        KeepBallotHolds(h, k, b, t, x);
      } else {
        assert HonestBallot(c, h, p, c.nodes[p], m, b);
        assert AckHeld(c, h, t, p, x);
        if !Holds(b.log, h.reigns[t].log, x) {
          var v :| v in h.reigns && t < v <= c.nodes[p].term && !Holds(h.reigns[v].base, h.reigns[t].log, x);
          assert v <= b.term - 1;
        }
        KeepBallotHolds(h, k, b, t, x);
      }
    }
  }

  lemma KeepPromises(s: Setting, c: Cluster, h: History, p: NodeId, o: Outcome, cast: set<Ballot>)
    requires Promises(s, c, h) && Logs(s, c, h) && LeadersReign(s, c, h) && p in s.members
    requires Honest(c, h, p, o, cast)
    ensures Promises(s, Update(c, p, o), After(h, p, o.node, cast))
  {
    var k := After(h, p, o.node, cast);
    AfterAdvances(s, c, h, p, o, cast);
    KeepRequests(c, h, p, o, cast);
    forall b <- k.ballots ensures BallotSound(Update(c, p, o), k, b) {
      if b in h.ballots {
        KeepBallot(c, h, p, o, k, b);
      } else {
        NewBallot(c, h, p, o, k, b);
      }
    }
    KeepGrantsBacked(c, h, p, o, cast);
    KeepCandidatesBacked(c, h, p, o, cast);
    KeepAllChosen(c, h, p, o, cast);
    KeepAcksSound(c, h, p, o, cast);
    KeepAcksHeld(c, h, p, o, cast);
    KeepBallotsHold(c, h, p, o, cast);
  }
}
