/**
 * Log matching and leader append-only, for the code as written.
 *
 * The central fact: an entry of term `t` at an index determines the whole log up to that index, for
 * it is the prefix of the one log that the leader of `t` ever had.
 */
module RaftLog {
  import opened Options
  import opened Replication
  import opened RaftModel
  import opened RaftCluster
  import opened RaftElection

  predicate Contiguous(log: seq<Entry>) {
    forall i :: 0 <= i < |log| ==> log[i].index == i + 1
  }

  function TermIn(log: seq<Entry>, index: nat): nat {
    if 0 < index <= |log| then log[index - 1].term else 0
  }

  /** Entry `i` sits on top of the same prefix as in the log of the leader of its term. */
  predicate Rooted(h: History, log: seq<Entry>, i: nat)
    requires i < |log|
  {
    && log[i].term in h.reigns
    && i < |h.reigns[log[i].term].log|
    && log[..i + 1] == h.reigns[log[i].term].log[..i + 1]
  }

  ghost predicate Canonical(h: History, log: seq<Entry>) {
    forall i: nat :: i < |log| ==> Rooted(h, log, i)
  }

  predicate TermsUpTo(log: seq<Entry>, t: nat) {
    forall i :: 0 <= i < |log| ==> log[i].term <= t
  }

  predicate TermsBelow(log: seq<Entry>, t: nat) {
    forall i :: 0 <= i < |log| ==> log[i].term < t
  }

  ghost predicate NodeLog(h: History, n: Node) {
    && Canonical(h, n.log) && Contiguous(n.log)
    && TermsUpTo(n.log, n.term)
    && (n.role == Candidate ==> TermsBelow(n.log, n.term))
  }

  ghost predicate ReignLog(h: History, t: nat, r: Reign) {
    && t > 0 && Canonical(h, r.log) && Contiguous(r.log)
    && r.base <= r.log && TermsBelow(r.base, t)
    && (forall i :: |r.base| <= i < |r.log| ==> r.log[i].term == t)
  }

  /** A leader's log is the log of its reign. */
  predicate LeaderLogs(s: Setting, c: Cluster, h: History)
    requires c.nodes.Keys == s.members
  {
    forall p <- s.members :: c.nodes[p].role == Leader ==>
      c.nodes[p].term in h.reigns && c.nodes[p].log == h.reigns[c.nodes[p].term].log
  }

  /** An append carries a contiguous part of its sender's log. */
  predicate Carries(log: seq<Entry>, m: Message)
    requires m.Append?
  {
    && m.prevIndex + |m.entries| <= |log|
    && m.entries == log[m.prevIndex..m.prevIndex + |m.entries|]
    && m.prevTerm == TermIn(log, m.prevIndex)
  }

  predicate CarriesAll(log: seq<Entry>, m: Message)
    requires m.Append?
  {
    Blind(m) || (Carries(log, m) && m.prevIndex + |m.entries| == |log|)
  }

  /** Or, if the sender believes the follower is ahead of it, nothing behind an index it lacks. */
  predicate Blind(m: Message)
    requires m.Append?
  {
    m.prevIndex > 0 && m.prevTerm == 0 && m.entries == []
  }

  /** What is carried reaches at least to the end of the log the sender was elected with. */
  predicate Ships(r: Reign, m: Message)
    requires m.Append?
  {
    Blind(m) || (Carries(r.log, m) && |r.base| <= m.prevIndex + |m.entries|)
  }

  predicate AppendsShip(c: Cluster, h: History) {
    forall e <- c.net :: e.msg.Append? ==> e.msg.term in h.reigns && Ships(h.reigns[e.msg.term], e.msg)
  }

  ghost predicate Logs(s: Setting, c: Cluster, h: History) {
    && c.nodes.Keys == s.members
    && (forall p <- s.members :: NodeLog(h, c.nodes[p]))
    && (forall t <- h.reigns :: ReignLog(h, t, h.reigns[t]))
    && LeaderLogs(s, c, h)
    && AppendsShip(c, h)
  }

  // ------------------------------------------------------------------ history

  /** History only grows: reigns stay, their logs are extended. */
  predicate Extends(h: History, k: History) {
    forall t <- h.reigns :: t in k.reigns
      && h.reigns[t].id == k.reigns[t].id && h.reigns[t].base == k.reigns[t].base
      && h.reigns[t].log <= k.reigns[t].log
  }

  lemma CanonicalExtends(h: History, k: History, log: seq<Entry>)
    requires Canonical(h, log) && Extends(h, k)
    ensures Canonical(k, log)
  {
    forall i: nat | i < |log| ensures Rooted(k, log, i) {
      assert Rooted(h, log, i);
      var a, b := h.reigns[log[i].term].log, k.reigns[log[i].term].log;
      assert a[..i + 1] == b[..i + 1];
    }
  }

  lemma CanonicalPrefix(h: History, log: seq<Entry>, k: nat)
    requires Canonical(h, log) && k <= |log|
    ensures Canonical(h, log[..k])
  {
    forall i: nat | i < k ensures Rooted(h, log[..k], i) {
      assert Rooted(h, log, i);
      assert log[..k][..i + 1] == log[..i + 1];
    }
  }

  /** Two canonical logs that hold an entry of one term at one index agree up to it. */
  lemma CanonicalMatch(h: History, a: seq<Entry>, b: seq<Entry>, i: nat)
    requires Canonical(h, a) && Canonical(h, b) && i < |a| && i < |b| && a[i].term == b[i].term
    ensures a[..i + 1] == b[..i + 1]
  {
    assert Rooted(h, a, i) && Rooted(h, b, i);
  }

  // ---------------------------------------------------------------- the merge

  lemma LogIndices(n: Node)
    requires n.snapIndex == 0 && n.snapTerm == 0 && Contiguous(n.log)
    ensures n.LastIndex() == |n.log| && n.LastTerm() == TermIn(n.log, |n.log|)
    ensures forall i: nat :: n.TermAt(i) == TermIn(n.log, i)
  {}

  /**
   * The follower's loop: if its log already covers the shipped range nothing changes, otherwise it
   * ends up with exactly the leader's log up to the end of the range.
   */
  lemma {:induction false} MergeResult(h: History, leader: seq<Entry>, log: seq<Entry>, prev: nat, entries: seq<Entry>)
    requires Canonical(h, leader) && Canonical(h, log) && Contiguous(leader)
    requires prev <= |log| && prev + |entries| <= |leader|
    requires log[..prev] == leader[..prev] && entries == leader[prev..prev + |entries|]
    ensures
      var end := prev + |entries|;
      MergeEntries(0, log, entries) == if leader[..end] <= log then log else leader[..end]
    decreases |entries|
  {
    if entries != [] {
      var e, end := entries[0], prev + |entries|;
      assert e == leader[prev];
      var log1 := MergeOne(0, log, e);
      if prev < |log| && log[prev].term == e.term {
        CanonicalMatch(h, log, leader, prev);
      } else {
        assert log1 == leader[..prev + 1];
        CanonicalPrefix(h, leader, prev + 1);
      }
      assert entries[1..] == leader[prev + 1..end];
      MergeResult(h, leader, log1, prev + 1, entries[1..]);
      if leader[..end] <= log {
        assert log[prev] == leader[..end][prev];
      } else if leader[..end] <= log1 {
        assert log1 == leader[..end];
      }
    }
  }

  /** What an accepted append leaves in the follower's log. */
  lemma AppendResult(h: History, leader: seq<Entry>, n: Node, m: Message)
    requires n.snapIndex == 0 && n.snapTerm == 0 && Contiguous(n.log) && Contiguous(leader)
    requires Canonical(h, leader) && Canonical(h, n.log) && 0 !in h.reigns
    requires m.Append? && PrefixMatches(n, m) && Carries(leader, m)
    ensures
      var end := m.prevIndex + |m.entries|;
      && (m.prevIndex > 0 ==> m.prevIndex <= |n.log| && n.log[..m.prevIndex] == leader[..m.prevIndex])
      && MergeEntries(0, n.log, m.entries) == (if leader[..end] <= n.log then n.log else leader[..end])
  {
    LogIndices(n);
    var prev := m.prevIndex;
    if prev > 0 {
      assert Rooted(h, leader, prev - 1);
      if prev <= |n.log| {
        CanonicalMatch(h, n.log, leader, prev - 1);
      }
    }
    MergeResult(h, leader, n.log, prev, m.entries);
  }

  // ------------------------------------------------------- steps of one replica

  /** How a reaction may change a replica's log. */
  ghost predicate Grows(h: History, n: Node, m: Node) {
    || m.log == n.log
    || (n.role == Leader && m.role == Leader && m.term == n.term && |m.log| == |n.log| + 1
        && n.log <= m.log && m.log[|n.log|].term == m.term && m.log[|n.log|].index == |n.log| + 1)
    || (m.role == Follower && m.term in h.reigns
        && |m.log| <= |h.reigns[m.term].log| && m.log == h.reigns[m.term].log[..|m.log|])
  }

  /** The replica has just been elected. */
  predicate Crowned(h: History, n: Node, m: Node) {
    m.log == n.log && m.term !in h.reigns && (m.term > n.term || n.role == Candidate)
  }

  ghost predicate LawfulLog(h: History, p: NodeId, n: Node, o: Outcome) {
    var m := o.node;
    && Grows(h, n, m)
    && m.term >= n.term
    && (m.role == Candidate && !(n.role == Candidate && m.term == n.term) ==> m.term > n.term)
    && (m.role == Candidate ==> m.log == n.log)
    && (m.role == Leader ==> m.term > 0 && ((n.role == Leader && m.term == n.term) || Crowned(h, n, m)))
    && (forall e <- o.out :: e.msg.Append? ==> m.role == Leader && e.msg.term == m.term && CarriesAll(m.log, e.msg))
  }

  lemma ExtendsReigning(h: History, p: NodeId, n: Node, o: Outcome, ballots: set<Ballot>)
    requires LawfulLog(h, p, n, o)
    requires n.role == Leader ==> n.term in h.reigns && n.log == h.reigns[n.term].log
    ensures Extends(h, History(Reigning(h, p, o.node), ballots))
  {}

  lemma KeepNodeLog(h: History, k: History, n: Node)
    requires NodeLog(h, n) && Extends(h, k)
    ensures NodeLog(k, n)
  {
    CanonicalExtends(h, k, n.log);
  }

  /** The log of the replica that moved. */
  lemma MovedNodeLog(h: History, p: NodeId, n: Node, o: Outcome, ballots: set<Ballot>)
    requires NodeLog(h, n) && LawfulLog(h, p, n, o)
    requires n.role == Leader ==> n.term in h.reigns && n.log == h.reigns[n.term].log
    requires forall t <- h.reigns :: ReignLog(h, t, h.reigns[t])
    ensures NodeLog(History(Reigning(h, p, o.node), ballots), o.node)
  {
    var k, m := History(Reigning(h, p, o.node), ballots), o.node;
    ExtendsReigning(h, p, n, o, ballots);
    if m.log == n.log {
      CanonicalExtends(h, k, m.log);
    } else if m.role == Leader {
      CanonicalExtends(h, k, n.log);
      forall i: nat | i < |m.log| ensures Rooted(k, m.log, i) {
        if i < |n.log| {
          assert Rooted(k, n.log, i);
          assert m.log[..i + 1] == n.log[..i + 1];
        }
      }
    } else {
      var r := h.reigns[m.term];
      assert ReignLog(h, m.term, r);
      CanonicalPrefix(h, r.log, |m.log|);
      CanonicalExtends(h, k, m.log);
    }
  }

  lemma KeepReignLog(h: History, p: NodeId, n: Node, o: Outcome, ballots: set<Ballot>, t: nat)
    requires NodeLog(h, n) && LawfulLog(h, p, n, o)
    requires n.role == Leader ==> n.term in h.reigns && n.log == h.reigns[n.term].log
    requires forall t <- h.reigns :: ReignLog(h, t, h.reigns[t])
    requires t in Reigning(h, p, o.node)
    ensures ReignLog(History(Reigning(h, p, o.node), ballots), t, Reigning(h, p, o.node)[t])
  {
    var k, m := History(Reigning(h, p, o.node), ballots), o.node;
    ExtendsReigning(h, p, n, o, ballots);
    if t in h.reigns {
      assert ReignLog(h, t, h.reigns[t]);
    }
    if m.role == Leader && m.term == t {
      MovedNodeLog(h, p, n, o, ballots);
    } else {
      CanonicalExtends(h, k, h.reigns[t].log);
    }
  }

  lemma KeepLeaderLogs(s: Setting, c: Cluster, h: History, p: NodeId, o: Outcome, ballots: set<Ballot>)
    requires c.nodes.Keys == s.members && LeaderLogs(s, c, h)
    requires p in s.members && LawfulLog(h, p, c.nodes[p], o)
    requires forall q <- s.members :: q != p && c.nodes[q].role == Leader && o.node.role == Leader ==> c.nodes[q].term != o.node.term
    ensures LeaderLogs(s, Update(c, p, o), History(Reigning(h, p, o.node), ballots))
  {}

  lemma KeepAppendsShip(s: Setting, c: Cluster, h: History, p: NodeId, o: Outcome, ballots: set<Ballot>)
    requires c.nodes.Keys == s.members && LeaderLogs(s, c, h) && AppendsShip(c, h)
    requires p in s.members && LawfulLog(h, p, c.nodes[p], o)
    requires forall t <- h.reigns :: ReignLog(h, t, h.reigns[t])
    ensures AppendsShip(Update(c, p, o), History(Reigning(h, p, o.node), ballots))
  {
    var d, k := Update(c, p, o), History(Reigning(h, p, o.node), ballots);
    ExtendsReigning(h, p, c.nodes[p], o, ballots);
    forall e <- d.net | e.msg.Append?
      ensures e.msg.term in k.reigns && Ships(k.reigns[e.msg.term], e.msg)
    {
      if e in c.net && !Blind(e.msg) {
        CarriesExtends(h.reigns[e.msg.term].log, k.reigns[e.msg.term].log, e.msg);
      }
    }
  }

  lemma CarriesExtends(a: seq<Entry>, b: seq<Entry>, m: Message)
    requires m.Append? && Carries(a, m) && a <= b
    ensures Carries(b, m)
  {}

  lemma KeepLogs(s: Setting, c: Cluster, h: History, p: NodeId, o: Outcome, ballots: set<Ballot>)
    requires Logs(s, c, h) && p in s.members && LawfulLog(h, p, c.nodes[p], o)
    requires forall q <- s.members :: q != p && c.nodes[q].role == Leader && o.node.role == Leader ==> c.nodes[q].term != o.node.term
    ensures Logs(s, Update(c, p, o), History(Reigning(h, p, o.node), ballots))
  {
    var d, k, n := Update(c, p, o), History(Reigning(h, p, o.node), ballots), c.nodes[p];
    ExtendsReigning(h, p, n, o, ballots);
    KeepLeaderLogs(s, c, h, p, o, ballots);
    KeepAppendsShip(s, c, h, p, o, ballots);
    forall q <- s.members ensures NodeLog(k, d.nodes[q]) {
      if q == p { MovedNodeLog(h, p, n, o, ballots); } else { KeepNodeLog(h, k, c.nodes[q]); }
    }
    forall t <- k.reigns ensures ReignLog(k, t, k.reigns[t]) {
      KeepReignLog(h, p, n, o, ballots, t);
    }
  }

  // ------------------------------------------------------------- each stimulus

  lemma SuffixCarried(cfg: Config, n: Node, q: NodeId)
    requires n.snapIndex == 0 && n.snapTerm == 0 && Contiguous(n.log) && (q in n.next ==> n.next[q] > 0)
    ensures
      var e := AppendTo(cfg, n, q);
      e.msg.Append? && e.msg.term == n.term && CarriesAll(n.log, e.msg)
  {
    LogIndices(n);
    var prev := NextOf(n, q) - 1;
    if prev <= |n.log| {
      assert n.log[prev..] == n.log[prev..prev + |n.log[prev..]|];
    }
  }

  lemma AppendToCarries(s: Setting, p: NodeId, n: Node, q: NodeId)
    requires NodeShape(s, p, n) && Contiguous(n.log) && q in s.members - {p}
    ensures
      var e := AppendTo(s.Of(p), n, q);
      e.msg.Append? && e.msg.term == n.term && CarriesAll(n.log, e.msg)
  {
    SuffixCarried(s.Of(p), n, q);
  }

  lemma BroadcastCarries(s: Setting, p: NodeId, n: Node)
    requires NodeShape(s, p, n) && Contiguous(n.log)
    ensures forall e <- Broadcast(s.Of(p), n) :: e.msg.Append? && e.msg.term == n.term && CarriesAll(n.log, e.msg)
  {
    forall q <- s.members - {p} {
      AppendToCarries(s, p, n, q);
    }
  }

  lemma LogTimeout(s: Setting, h: History, p: NodeId, n: Node)
    requires NodeShape(s, p, n) && n.role != Leader
    requires s.members == {p} ==> n.term + 1 !in h.reigns
    requires p in s.members
    ensures LawfulLog(h, p, n, StartElection(s.Of(p), n))
  {
    if s.Of(p).Peers() == {} {
      assert s.members == {p};
    }
  }

  lemma LogSubmit(s: Setting, h: History, p: NodeId, n: Node, command: Command)
    requires NodeShape(s, p, n) && Contiguous(n.log)
    ensures LawfulLog(h, p, n, Outcome(Propose(s.Of(p), n, command).0, {}))
  {
    var e := Entry(n.term, n.LastIndex() + 1, command);
    ApplyCommittedFrame(n.(log := n.log + [e], commit := e.index));
    LogIndices(n);
  }

  lemma LogVoteReply(s: Setting, c: Cluster, h: History, e: Envelope)
    requires Elections(s, c, h) && e in c.net && e.msg.VoteReply? && Contiguous(c.nodes[e.dst].log)
    ensures LawfulLog(h, e.dst, c.nodes[e.dst], OnVoteReply(s.Of(e.dst), c.nodes[e.dst], e.msg))
  {
    Soundness(s, c, h, e.dst);
    assert Routed(s, e);
    LawfulVoteReply(s, c, h, e);
    var n := c.nodes[e.dst];
    var o := OnVoteReply(s.Of(e.dst), n, e.msg);
    if o.node.role == Leader && n.role == Candidate {
      BroadcastCarries(s, e.dst, o.node);
    }
  }

  lemma LogAppend(s: Setting, h: History, p: NodeId, n: Node, src: NodeId, m: Message)
    requires NodeShape(s, p, n) && NodeLog(h, n) && 0 !in h.reigns
    requires m.Append? && m.term in h.reigns && ReignLog(h, m.term, h.reigns[m.term])
    requires Carries(h.reigns[m.term].log, m) || Blind(m)
    requires n.role == Leader ==> m.term != n.term
    ensures LawfulLog(h, p, n, OnAppend(s.Of(p), n, src, m))
  {
    if m.term >= n.term {
      var n1 := Recognise(n, m.term, m.leader);
      if PrefixMatches(n1, m) {
        LearnFrame(n1.(log := MergeEntries(n1.snapIndex, n1.log, m.entries)), m.commit);
        if Carries(h.reigns[m.term].log, m) {
          AppendResult(h, h.reigns[m.term].log, n1, m);
        }
      }
    }
  }

  lemma LogAppendReply(s: Setting, h: History, p: NodeId, n: Node, m: Message)
    requires NodeShape(s, p, n) && Contiguous(n.log) && m.AppendReply? && m.follower in s.members - {p}
    ensures LawfulLog(h, p, n, OnAppendReply(s.Of(p), n, m))
  {
    AdvanceFrame(s.Of(p), Progress(n, m.follower, m.matchIndex));
    if n.role == Leader {
      AppendToCarries(s, p, Retreat(n, m.follower, m.conflict), m.follower);
    }
  }

  lemma LogRequestVote(cfg: Config, h: History, p: NodeId, n: Node, src: NodeId, m: Message)
    requires m.RequestVote? && (n.role == Leader ==> n.term > 0)
    ensures LawfulLog(h, p, n, OnRequestVote(cfg, n, src, m))
  {}

  lemma LogAppendDelivered(s: Setting, c: Cluster, h: History, e: Envelope)
    requires Elections(s, c, h) && Logs(s, c, h) && e in c.net && e.msg.Append?
    ensures LawfulLog(h, e.dst, c.nodes[e.dst], OnAppend(s.Of(e.dst), c.nodes[e.dst], e.src, e.msg))
  {
    assert Routed(s, e);
    NoRivalAppend(s, c, h, e);
    LogAppend(s, h, e.dst, c.nodes[e.dst], e.src, e.msg);
  }

  lemma LogDeliver(s: Setting, c: Cluster, h: History, e: Envelope)
    requires Elections(s, c, h) && Logs(s, c, h) && e in c.net
    ensures LawfulLog(h, e.dst, c.nodes[e.dst], Handle(s.Of(e.dst), c.nodes[e.dst], e))
  {
    var p, n := e.dst, c.nodes[e.dst];
    assert Routed(s, e);
    match e.msg
    case RequestVote(_, _, _, _) => LogRequestVote(s.Of(p), h, p, n, e.src, e.msg);
    case VoteReply(_, _, _) => LogVoteReply(s, c, h, e);
    case Append(_, _, _, _, _, _) => LogAppendDelivered(s, c, h, e);
    case AppendReply(_, _, _, _, _) => LogAppendReply(s, h, p, n, e.msg);
  }

  lemma LogReact(s: Setting, c: Cluster, h: History, a: Action)
    requires Elections(s, c, h) && Logs(s, c, h) && Enabled(c, a)
    ensures LawfulLog(h, Actor(a), c.nodes[Actor(a)], React(s, c, a))
  {
    var p := Actor(a);
    var n := c.nodes[p];
    match a
    case Timeout(_) =>
      LawfulTimeout(s, c, h, p);
      LogTimeout(s, h, p, n);
    case Beat(_) => BroadcastCarries(s, p, n);
    case Submit(_, command) => LogSubmit(s, h, p, n, command);
    case Deliver(e) => LogDeliver(s, c, h, e);
  }

  lemma OneLeader(s: Setting, c: Cluster, h: History, p: NodeId)
    requires Elections(s, c, h) && p in s.members
    ensures forall q <- s.members ::
      q != p && c.nodes[q].role == Leader && c.nodes[p].role == Leader ==> c.nodes[q].term != c.nodes[p].term
  {}

  lemma {:induction false} LogsAlways(s: Setting, run: seq<Action>)
    ensures Logs(s, Exec(s, run), Chronicle(s, run))
    decreases |run|
  {
    if run != [] {
      var before, a := run[..|run| - 1], run[|run| - 1];
      LogsAlways(s, before);
      ElectionsAlways(s, before);
      ElectionsAlways(s, run);
      var c, h := Exec(s, before), Chronicle(s, before);
      if Enabled(c, a) {
        LogReact(s, c, h, a);
        OneLeader(s, Exec(s, run), Chronicle(s, run), Actor(a));
        KeepLogs(s, c, h, Actor(a), React(s, c, a), h.ballots + Cast(h, c, a));
      }
    }
  }

  lemma {:induction false} HistoryGrows(s: Setting, run: seq<Action>, i: nat)
    requires i <= |run|
    ensures Extends(Chronicle(s, run[..i]), Chronicle(s, run))
    decreases |run|
  {
    if i == |run| {
      assert run[..i] == run;
    } else {
      var before, a := run[..|run| - 1], run[|run| - 1];
      assert before[..i] == run[..i];
      HistoryGrows(s, before, i);
      ElectionsAlways(s, before);
      LogsAlways(s, before);
      var c, h := Exec(s, before), Chronicle(s, before);
      if Enabled(c, a) {
        LogReact(s, c, h, a);
        ExtendsReigning(h, Actor(a), c.nodes[Actor(a)], React(s, c, a), h.ballots + Cast(h, c, a));
      }
    }
  }

  // ----------------------------------------------------------------- theorems

  /**
   * Log matching, for every variant: if the log of one replica at one moment and the log of another
   * at any other moment hold an entry of the same index and term, they agree up to that index.
   */
  lemma LogMatching(s: Setting, run: seq<Action>, i: nat, j: nat, p: NodeId, q: NodeId, x: nat)
    requires i <= |run| && j <= |run| && p in s.members && q in s.members
    requires p in Exec(s, run[..i]).nodes && q in Exec(s, run[..j]).nodes
    requires
      var a, b := Exec(s, run[..i]).nodes[p].log, Exec(s, run[..j]).nodes[q].log;
      x < |a| && x < |b| && a[x].term == b[x].term
    ensures Exec(s, run[..i]).nodes[p].log[..x + 1] == Exec(s, run[..j]).nodes[q].log[..x + 1]
  {
    var a, b, h := Exec(s, run[..i]).nodes[p].log, Exec(s, run[..j]).nodes[q].log, Chronicle(s, run);
    LogsAlways(s, run[..i]);
    LogsAlways(s, run[..j]);
    HistoryGrows(s, run, i);
    HistoryGrows(s, run, j);
    CanonicalExtends(Chronicle(s, run[..i]), h, a);
    CanonicalExtends(Chronicle(s, run[..j]), h, b);
    CanonicalMatch(h, a, b, x);
  }

  /** A leader never removes or overwrites an entry of its own log during its term, in any variant. */
  lemma LeaderAppendOnly(s: Setting, run: seq<Action>, i: nat, j: nat, p: NodeId)
    requires i <= j <= |run| && p in s.members
    requires p in Exec(s, run[..i]).nodes && p in Exec(s, run[..j]).nodes
    requires
      var n, m := Exec(s, run[..i]).nodes[p], Exec(s, run[..j]).nodes[p];
      n.role == Leader && m.role == Leader && n.term == m.term
    ensures Exec(s, run[..i]).nodes[p].log <= Exec(s, run[..j]).nodes[p].log
  {
    LogsAlways(s, run[..i]);
    LogsAlways(s, run[..j]);
    assert run[..j][..i] == run[..i];
    HistoryGrows(s, run[..j], i);
  }
}
