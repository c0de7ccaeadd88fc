/**
 * What an acknowledgement and a vote certify, and leader completeness.
 *
 * All invariants here are unconditional facts about single acknowledgements and single votes: a
 * replica that acknowledged a prefix of the leader of term `t` still holds it, unless some later
 * term has a leader that was elected without it.  Leader completeness follows by induction on the
 * later term, because a commit quorum and an election quorum share a replica.
 */
module RaftCommit {
  import opened Options
  import opened Replication
  import opened RaftModel
  import opened RaftCluster
  import opened RaftElection
  import opened RaftLog

  predicate Holds(log: seq<Entry>, leader: seq<Entry>, k: nat) {
    k <= |log| && k <= |leader| && log[..k] == leader[..k]
  }

  /** `w` has vouched for the first `k` entries of the leader of term `t`, who vouches for itself. */
  predicate Acked(c: Cluster, h: History, t: nat, w: NodeId, k: nat) {
    t in h.reigns && k <= |h.reigns[t].log| && (w == h.reigns[t].id || exists e <- c.net :: IsAck(e, t, w, k))
  }

  /** Some leader of a term in `(t, u]` was elected without the first `k` entries of the leader of `t`. */
  predicate Missed(h: History, t: nat, k: nat, u: nat)
    requires t in h.reigns
  {
    exists v <- h.reigns :: t < v <= u && !Holds(h.reigns[v].base, h.reigns[t].log, k)
  }

  predicate LogUpToDate(lastIndex: nat, lastTerm: nat, log: seq<Entry>) {
    lastTerm > TermIn(log, |log|) || (lastTerm == TermIn(log, |log|) && lastIndex >= |log|)
  }

  predicate IsBallot(b: Ballot, t: nat, v: NodeId, q: NodeId) {
    b.term == t && b.voter == v && b.candidate == q
  }

  predicate Backed(h: History, t: nat, v: NodeId, q: NodeId) {
    exists b <- h.ballots :: IsBallot(b, t, v, q)
  }

  // --------------------------------------------------------------- invariants

  /** What a candidate says about its log in a term is true for as long as it is a candidate. */
  predicate Claim(n: Node, t: nat, lastIndex: nat, lastTerm: nat) {
    n.term >= t && (n.term == t && n.role == Candidate ==> lastIndex == |n.log| && lastTerm == TermIn(n.log, |n.log|))
  }

  predicate RequestsClaim(c: Cluster) {
    forall e <- c.net :: e.msg.RequestVote? ==>
      e.msg.candidate in c.nodes && Claim(c.nodes[e.msg.candidate], e.msg.term, e.msg.lastIndex, e.msg.lastTerm)
  }

  ghost predicate BallotSound(c: Cluster, h: History, b: Ballot) {
    && b.candidate in c.nodes && Claim(c.nodes[b.candidate], b.term, b.lastIndex, b.lastTerm)
    && b.voter in c.nodes && c.nodes[b.voter].term >= b.term
    && Canonical(h, b.log) && LogUpToDate(b.lastIndex, b.lastTerm, b.log)
  }

  ghost predicate GrantsBacked(c: Cluster, h: History) {
    forall t: nat, v: NodeId, q: NodeId :: Grant(t, v, q) in c.net ==> t in h.reigns || Backed(h, t, v, q)
  }

  predicate CandidatesBacked(c: Cluster, h: History) {
    forall p <- c.nodes :: c.nodes[p].role == Candidate ==> c.nodes[p].term in h.reigns || Backed(h, c.nodes[p].term, p, p)
  }

  /** Every vote that made a leader came from a replica whose log was not ahead of the leader's. */
  predicate Chosen(h: History, t: nat, r: Reign) {
    forall v <- r.quorum :: exists b <- h.ballots ::
      IsBallot(b, t, v, r.id) && b.lastIndex == |r.base| && b.lastTerm == TermIn(r.base, |r.base|)
  }

  predicate AcksSound(c: Cluster, h: History) {
    forall e <- c.net :: e.msg.AppendReply? && e.msg.success ==>
      e.msg.term in h.reigns && e.msg.matchIndex <= |h.reigns[e.msg.term].log|
  }

  ghost predicate AckHeld(c: Cluster, h: History, t: nat, w: NodeId, k: nat)
    requires t in h.reigns
  {
    && w in c.nodes && c.nodes[w].term >= t
    && (Holds(c.nodes[w].log, h.reigns[t].log, k) || Missed(h, t, k, c.nodes[w].term))
  }

  ghost predicate AcksHeld(c: Cluster, h: History) {
    forall t: nat, w: NodeId, k: nat :: Acked(c, h, t, w, k) ==> AckHeld(c, h, t, w, k)
  }

  predicate BallotHolds(h: History, b: Ballot, t: nat, k: nat)
    requires t in h.reigns && b.term > t
  {
    Holds(b.log, h.reigns[t].log, k) || Missed(h, t, k, b.term - 1)
  }

  ghost predicate BallotsHold(c: Cluster, h: History) {
    forall t: nat, k: nat, b: Ballot :: b in h.ballots && b.term > t && Acked(c, h, t, b.voter, k) ==> BallotHolds(h, b, t, k)
  }

  ghost predicate Promises(s: Setting, c: Cluster, h: History) {
    && RequestsClaim(c)
    && (forall b <- h.ballots :: BallotSound(c, h, b))
    && GrantsBacked(c, h) && CandidatesBacked(c, h)
    && (forall t <- h.reigns :: Chosen(h, t, h.reigns[t]))
    && AcksSound(c, h) && AcksHeld(c, h) && BallotsHold(c, h)
  }

  // ------------------------------------------------------ leader completeness

  /** A quorum vouches for the first `k` entries of the leader of `t`, the last of them its own. */
  ghost predicate Committed(s: Setting, c: Cluster, h: History, t: nat, k: nat) {
    && t in h.reigns && 0 < k <= |h.reigns[t].log| && h.reigns[t].log[k - 1].term == t
    && exists q: set<NodeId> :: IsCommitQuorum(s, c, h, t, k, q)
  }

  predicate IsCommitQuorum(s: Setting, c: Cluster, h: History, t: nat, k: nat, q: set<NodeId>) {
    q <= s.members && |q| > |s.members| / 2 && forall w <- q :: Acked(c, h, t, w, k)
  }

  ghost predicate AllReigns(h: History) {
    forall t <- h.reigns :: ReignLog(h, t, h.reigns[t])
  }

  /** A nonempty canonical log is a prefix of the log of the leader of its last term. */
  lemma LastTermPrefix(h: History, log: seq<Entry>)
    requires Canonical(h, log) && AllReigns(h) && log != []
    ensures
      var v := TermIn(log, |log|);
      v > 0 && v in h.reigns && |log| <= |h.reigns[v].log| && log == h.reigns[v].log[..|log|]
    ensures forall i :: 0 <= i < |log| ==> log[i].term <= TermIn(log, |log|)
  {
    var v := TermIn(log, |log|);
    assert Rooted(h, log, |log| - 1);
    assert log[..|log|] == log;
    assert ReignLog(h, v, h.reigns[v]);
    var r := h.reigns[v];
    forall i | 0 <= i < |log| ensures log[i].term <= v {
      assert log[i] == r.log[i];
      if i < |r.base| { assert r.log[i] == r.base[i]; }
    }
  }

  /** A log at least as up to date as one holding the prefix holds it too, if leaders in between do. */
  lemma UpToDateHolds(h: History, t: nat, k: nat, u: nat, b: Ballot)
    requires AllReigns(h) && t in h.reigns && u in h.reigns && t < u
    requires 0 < k <= |h.reigns[t].log| && h.reigns[t].log[k - 1].term == t
    requires forall v <- h.reigns :: t < v < u ==> Holds(h.reigns[v].base, h.reigns[t].log, k)
    requires Canonical(h, b.log) && Holds(b.log, h.reigns[t].log, k)
    requires
      var base := h.reigns[u].base;
      b.lastIndex == |base| && b.lastTerm == TermIn(base, |base|) && LogUpToDate(b.lastIndex, b.lastTerm, b.log)
    ensures Holds(h.reigns[u].base, h.reigns[t].log, k)
  {
    var base, log := h.reigns[u].base, b.log;
    assert ReignLog(h, u, h.reigns[u]);
    CanonicalPrefix(h, h.reigns[u].log, |base|);
    assert h.reigns[u].log[..|base|] == base;
    LastTermPrefix(h, log);
    assert log[k - 1] == log[..k][k - 1];
    assert TermIn(log, |log|) >= t;
    LastTermPrefix(h, base);
    var v, x := TermIn(log, |log|), TermIn(base, |base|);
    assert base[|base| - 1].term == x;
    if x == v {
      assert base[..k] == log[..k];
    } else {
      assert t < x < u;
      var r := h.reigns[x];
      assert ReignLog(h, x, r);
      assert |r.base| < |base|;
      assert base[..k] == r.base[..k];
    }
  }

  /**
   * Leader completeness: what a quorum vouched for in term `t` is in the log of the leader of every
   * later term from the moment it is elected.
   */
  lemma {:induction false} Completeness(s: Setting, c: Cluster, h: History, t: nat, k: nat, u: nat)
    requires Promises(s, c, h) && AllReigns(h) && Committed(s, c, h, t, k)
    requires c.nodes.Keys == s.members && ReignsElected(s, c, h)
    requires u in h.reigns && t < u
    ensures Holds(h.reigns[u].base, h.reigns[t].log, k)
    decreases u
  {
    forall v <- h.reigns | t < v < u ensures Holds(h.reigns[v].base, h.reigns[t].log, k) {
      Completeness(s, c, h, t, k, v);
    }
    var q: set<NodeId> :| IsCommitQuorum(s, c, h, t, k, q);
    var r := h.reigns[u];
    assert ReignElected(s, c, u, r);
    var w := QuorumsMeet(s, q, r.quorum);
    assert Chosen(h, u, r) && Acked(c, h, t, w, k);
    var b: Ballot :| b in h.ballots && IsBallot(b, u, w, r.id) && b.lastIndex == |r.base| && b.lastTerm == TermIn(r.base, |r.base|);
    assert BallotSound(c, h, b) && BallotHolds(h, b, t, k);
    UpToDateHolds(h, t, k, u, b);
  }
}
