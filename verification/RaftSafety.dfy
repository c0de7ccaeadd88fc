/**
 * State machine safety of disciplined runs: commit indexes only ever cover what a quorum has vouched
 * for, so no two replicas apply different commands at the same position.
 */
module RaftSafety {
  import opened Options
  import opened Replication
  import opened RaftModel
  import opened RaftCluster
  import opened RaftElection
  import opened RaftLog
  import opened RaftCommit
  import opened RaftPromises

  function Commands(log: seq<Entry>): seq<Command> {
    seq(|log|, i requires 0 <= i < |log| => log[i].command)
  }

  /** The first `x` entries are covered by what a quorum vouched for in a term up to `u`. */
  ghost predicate Covered(s: Setting, c: Cluster, h: History, log: seq<Entry>, x: nat, u: nat) {
    x == 0 || exists t: nat, k: nat :: Covers(s, c, h, t, k, log, x, u)
  }

  ghost predicate Covers(s: Setting, c: Cluster, h: History, t: nat, k: nat, log: seq<Entry>, x: nat, u: nat) {
    Committed(s, c, h, t, k) && t <= u && x <= k && Holds(log, h.reigns[t].log, x)
  }

  /** The state machine has applied exactly the committed prefix. */
  predicate Applied(n: Node) {
    && n.commit <= |n.log| && n.lastApplied == n.commit
    && n.applied == Commands(n.log[..n.commit])
    && n.docs == Replay(map[], n.applied)
  }

  ghost predicate ReplicaSafe(s: Setting, c: Cluster, h: History, n: Node) {
    Applied(n) && Covered(s, c, h, n.log, n.commit, n.term)
  }

  /** What the leader of `t` believes `f` to hold was there when it was elected, or was acknowledged since. */
  predicate Counted(c: Cluster, h: History, t: nat, f: NodeId, k: nat) {
    t in h.reigns && (k <= |h.reigns[t].base| || Acked(c, h, t, f, k))
  }

  /** Beyond what it was elected with, a leader's view of its followers rests on acknowledgements of its own term. */
  predicate ViewSound(c: Cluster, h: History, n: Node) {
    n.role == Leader ==>
      && (forall f <- n.match_ :: n.match_[f] > 0 ==> Counted(c, h, n.term, f, n.match_[f]))
      && (forall f <- n.next :: n.next[f] <= |n.log| + 1)
  }

  ghost predicate AppendSafe(s: Setting, c: Cluster, h: History, m: Message)
    requires m.Append?
  {
    && m.term in h.reigns && Carries(h.reigns[m.term].log, m)
    && m.commit <= m.prevIndex + |m.entries|
    && Covered(s, c, h, h.reigns[m.term].log, m.commit, m.term)
  }

  predicate RefusalSound(h: History, m: Message)
    requires m.AppendReply?
  {
    m.conflict > 0 ==> m.term in h.reigns && m.conflict <= |h.reigns[m.term].log|
  }

  ghost predicate TrafficSafe(s: Setting, c: Cluster, h: History, e: Envelope) {
    && (e.msg.Append? ==> AppendSafe(s, c, h, e.msg))
    && (e.msg.AppendReply? ==> RefusalSound(h, e.msg))
  }

  ghost predicate Safe(s: Setting, c: Cluster, h: History) {
    && c.nodes.Keys == s.members
    && (forall p <- s.members :: ReplicaSafe(s, c, h, c.nodes[p]) && ViewSound(c, h, c.nodes[p]))
    && (forall e <- c.net :: TrafficSafe(s, c, h, e))
  }

  // ------------------------------------------------------------- monotonicity

  /** The cluster and its history after more has happened. */
  predicate Later(c: Cluster, h: History, d: Cluster, k: History) {
    c.net <= d.net && Extends(h, k)
  }

  lemma AckedLater(c: Cluster, h: History, d: Cluster, k: History, t: nat, w: NodeId, x: nat)
    requires Later(c, h, d, k) && Acked(c, h, t, w, x)
    ensures Acked(d, k, t, w, x)
  {
    if w != h.reigns[t].id {
      var e :| e in c.net && IsAck(e, t, w, x);
      assert e in d.net;
    }
  }

  lemma CommittedLater(s: Setting, c: Cluster, h: History, d: Cluster, k: History, t: nat, x: nat)
    requires Later(c, h, d, k) && Committed(s, c, h, t, x)
    ensures Committed(s, d, k, t, x)
  {
    var q: set<NodeId> :| IsCommitQuorum(s, c, h, t, x, q);
    forall w <- q ensures Acked(d, k, t, w, x) {
      AckedLater(c, h, d, k, t, w, x);
    }
    assert IsCommitQuorum(s, d, k, t, x, q);
  }

  lemma CoveredLater(s: Setting, c: Cluster, h: History, d: Cluster, k: History, log: seq<Entry>, log': seq<Entry>, x: nat, u: nat, v: nat)
    requires Later(c, h, d, k) && Covered(s, c, h, log, x, u) && log <= log' && u <= v
    ensures Covered(s, d, k, log', x, v)
  {
    if x > 0 {
      var t: nat, y: nat :| Covers(s, c, h, t, y, log, x, u);
      CommittedLater(s, c, h, d, k, t, y);
      assert Holds(log', k.reigns[t].log, x) by {
        assert log'[..x] == log[..x] == h.reigns[t].log[..x] == k.reigns[t].log[..x];
      }
      assert Covers(s, d, k, t, y, log', x, v);
    }
  }

  lemma ViewLater(c: Cluster, h: History, d: Cluster, k: History, n: Node)
    requires Later(c, h, d, k) && ViewSound(c, h, n)
    ensures ViewSound(d, k, n)
  {
    if n.role == Leader {
      forall f <- n.match_ | n.match_[f] > 0 ensures Counted(d, k, n.term, f, n.match_[f]) {
        assert Counted(c, h, n.term, f, n.match_[f]);
        if n.match_[f] > |h.reigns[n.term].base| {
          AckedLater(c, h, d, k, n.term, f, n.match_[f]);
        }
      }
    }
  }

  lemma TrafficLater(s: Setting, c: Cluster, h: History, d: Cluster, k: History, e: Envelope)
    requires Later(c, h, d, k) && TrafficSafe(s, c, h, e)
    ensures TrafficSafe(s, d, k, e)
  {
    if e.msg.Append? {
      var t := e.msg.term;
      CarriesExtends(h.reigns[t].log, k.reigns[t].log, e.msg);
      CoveredLater(s, c, h, d, k, h.reigns[t].log, k.reigns[t].log, e.msg.commit, t, t);
    }
  }

  lemma KeepSafe(s: Setting, c: Cluster, h: History, p: NodeId, o: Outcome, k: History)
    requires Safe(s, c, h) && p in s.members && Extends(h, k)
    requires ReplicaSafe(s, Update(c, p, o), k, o.node) && ViewSound(Update(c, p, o), k, o.node)
    requires forall e <- o.out :: TrafficSafe(s, Update(c, p, o), k, e)
    ensures Safe(s, Update(c, p, o), k)
  {
    var d := Update(c, p, o);
    forall q <- s.members ensures ReplicaSafe(s, d, k, d.nodes[q]) && ViewSound(d, k, d.nodes[q]) {
      if q != p {
        var n := c.nodes[q];
        CoveredLater(s, c, h, d, k, n.log, n.log, n.commit, n.term, n.term);
        ViewLater(c, h, d, k, n);
      }
    }
    forall e <- d.net ensures TrafficSafe(s, d, k, e) {
      if e in c.net {
        TrafficLater(s, c, h, d, k, e);
      }
    }
  }

  // ------------------------------------------------------ the committed prefix

  /** Two logs that agree with a third up to `x` agree with each other. */
  lemma HoldsVia(log: seq<Entry>, a: seq<Entry>, b: seq<Entry>, x: nat, k: nat)
    requires Holds(log, a, x) && Holds(b, a, k) && x <= k
    ensures Holds(log, b, x) && Holds(b, a, x)
  {
    assert b[..x] == b[..k][..x] && a[..x] == a[..k][..x];
  }

  /** The logs of all later leaders hold what was committed. */
  lemma LeadersHold(s: Setting, c: Cluster, h: History, u: nat, k: nat, t: nat)
    requires Promises(s, c, h) && AllReigns(h) && c.nodes.Keys == s.members && ReignsElected(s, c, h)
    requires Committed(s, c, h, u, k) && u <= t && t in h.reigns
    ensures Holds(h.reigns[t].log, h.reigns[u].log, k)
  {
    if u < t {
      Completeness(s, c, h, u, k, t);
      assert ReignLog(h, t, h.reigns[t]);
      assert h.reigns[t].log[..k] == h.reigns[t].base[..k];
    }
  }

  /** A follower that adopts a leader's entries never loses a committed prefix. */
  lemma CoveredSurvives(s: Setting, c: Cluster, h: History, n: Node, t: nat, log: seq<Entry>, x: nat)
    requires Promises(s, c, h) && AllReigns(h) && c.nodes.Keys == s.members && ReignsElected(s, c, h)
    requires Covered(s, c, h, n.log, x, n.term) && n.term <= t && x <= |n.log|
    requires t in h.reigns && KeepsLeader(n.log, log, h.reigns[t].log)
    ensures Covered(s, c, h, log, x, t) && x <= |log| && log[..x] == n.log[..x]
  {
    if x > 0 {
      var u: nat, k: nat :| Covers(s, c, h, u, k, n.log, x, n.term);
      LeadersHold(s, c, h, u, k, t);
      HoldsVia(n.log, h.reigns[u].log, h.reigns[t].log, x, k);
      CoverMoves(s, c, h, u, k, n.log, log, x, n.term, t);
    }
  }

  lemma CoverMoves(s: Setting, c: Cluster, h: History, u: nat, k: nat, a: seq<Entry>, b: seq<Entry>, x: nat, v: nat, t: nat)
    requires Covers(s, c, h, u, k, a, x, v) && v <= t && t in h.reigns
    requires Holds(a, h.reigns[t].log, x) && Holds(b, h.reigns[t].log, x)
    ensures Covers(s, c, h, u, k, b, x, t) && b[..x] == a[..x]
  {}

  /** Applying committed entries one by one yields the commands of the committed prefix. */
  lemma {:induction false} ApplyResult(n: Node)
    requires n.snapIndex == 0 && Contiguous(n.log) && n.lastApplied <= n.commit <= |n.log|
    requires n.applied == Commands(n.log[..n.lastApplied]) && n.docs == Replay(map[], n.applied)
    ensures Applied(ApplyFrom(n))
    decreases n.commit - n.lastApplied
  {
    if n.lastApplied < n.commit {
      var i := n.lastApplied + 1;
      var e := n.log[i - 1];
      assert n.EntryAt(i) == Some(e);
      var m := n.(lastApplied := i, applied := n.applied + [e.command], docs := Apply(n.docs, e.command));
      assert n.log[..i] == n.log[..n.lastApplied] + [e];
      assert m.applied == Commands(n.log[..i]);
      assert m.applied[..|m.applied| - 1] == n.applied;
      ApplyFrame(n);
      ApplyResult(m);
    }
  }

  lemma CatchUpApplied(n: Node, log: seq<Entry>, commit: nat)
    requires n.snapIndex == 0 && Contiguous(log) && Applied(n)
    requires n.commit <= commit <= |log| && log[..n.commit] == n.log[..n.commit]
    ensures
      var m := ApplyCommitted(n.(log := log, commit := commit));
      Applied(m) && m.commit == commit && m.log == log
  {
    var m := n.(log := log, commit := commit);
    ApplyResult(m);
    ApplyCommittedFrame(m);
  }
}
