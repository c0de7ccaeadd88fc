/**
 * Why both guards are needed: concrete runs of the code without them that break safety.
 */
module RaftDeviations {
  import opened Options
  import opened Replication
  import opened RaftModel
  import opened RaftCluster
  import opened RaftElection
  import opened RaftTheorems

  const X := Delete("x")
  const Y := Delete("y")
  const Z := Delete("z")

  const E1 := Entry(1, 1, X)
  const E2 := Entry(2, 1, Y)
  const E3 := Entry(3, 2, Z)

  lemma ExecMore(s: Setting, run: seq<Action>, a: Action)
    ensures Exec(s, run + [a]) == Step(s, Exec(s, run), a)
    ensures Disciplined(s, run + [a]) <==> Disciplined(s, run) && (Enabled(Exec(s, run), a) ==> Careful(s, Exec(s, run), a))
  {
    assert (run + [a])[..|run|] == run;
  }

  // ------------------------------------- acknowledging one's own last index

  function Trio(g: Guards): Setting { Setting({1, 2, 3}, g) }

  /** A replica that has neither compacted nor applied anything. */
  function Plain(role: Role, term: nat, votedFor: Option<NodeId>, votes: set<NodeId>, leader: Option<NodeId>, log: seq<Entry>): Node {
    FRESH.(role := role, term := term, votedFor := votedFor, votes := votes, leaderId := leader, log := log)
  }

  // -------------------------------------------- single actions of a known state

  lemma Stand(s: Setting, run: seq<Action>, c: Cluster, p: NodeId, v: NodeId) returns (next: seq<Action>, d: Cluster)
    requires c == Exec(s, run) && p in c.nodes && c.nodes[p].role != Leader && v in s.members && v != p
    ensures next == run + [Timeout(p)] && d == Exec(s, next) && c.net <= d.net
    ensures Disciplined(s, run) ==> Disciplined(s, next)
    ensures d.nodes == c.nodes[p := BecomeCandidate(s.Of(p), c.nodes[p])]
    ensures
      var n := c.nodes[p];
      Envelope(p, v, RequestVote(n.term + 1, p, n.LastIndex(), n.LastTerm())) in d.net
  {
    next, d := run + [Timeout(p)], Step(s, c, Timeout(p));
    ExecMore(s, run, Timeout(p));
    assert v in s.Of(p).Peers();
  }

  lemma Favour(s: Setting, run: seq<Action>, c: Cluster, e: Envelope) returns (next: seq<Action>, d: Cluster)
    requires c == Exec(s, run) && e in c.net && e.dst in c.nodes && e.msg.RequestVote? && e.msg.candidate == e.src
    requires e.msg.term > c.nodes[e.dst].term && UpToDate(e.msg.lastIndex, e.msg.lastTerm, c.nodes[e.dst])
    ensures next == run + [Deliver(e)] && d == Exec(s, next) && c.net <= d.net
    ensures Disciplined(s, run) ==> Disciplined(s, next)
    ensures d.nodes == c.nodes[e.dst := BecomeFollower(c.nodes[e.dst], e.msg.term).(votedFor := Some(e.src))]
    ensures Envelope(e.dst, e.src, VoteReply(e.msg.term, true, e.dst)) in d.net
  {
    next, d := run + [Deliver(e)], Step(s, c, Deliver(e));
    ExecMore(s, run, Deliver(e));
  }

  lemma Count(s: Setting, run: seq<Action>, c: Cluster, e: Envelope) returns (next: seq<Action>, d: Cluster)
    requires c == Exec(s, run) && e in c.net && e.dst in c.nodes && e.msg.VoteReply? && e.msg.granted && e.msg.term == c.nodes[e.dst].term
    requires c.nodes[e.dst].role == Candidate
    ensures next == run + [Deliver(e)] && d == Exec(s, next) && c.net <= d.net
    ensures Disciplined(s, run) ==> Disciplined(s, next)
    ensures
      var n := c.nodes[e.dst].(votes := c.nodes[e.dst].votes + {e.msg.voter});
      var m := if |n.votes| >= s.Of(e.dst).Quorum() then BecomeLeader(s.Of(e.dst), n) else n;
      && d.nodes == c.nodes[e.dst := m]
      && (m.role == Leader ==> forall q <- s.members - {e.dst} :: AppendTo(s.Of(e.dst), m, q) in d.net)
  {
    next, d := run + [Deliver(e)], Step(s, c, Deliver(e));
    ExecMore(s, run, Deliver(e));
  }

  lemma Log(s: Setting, run: seq<Action>, c: Cluster, p: NodeId, v: NodeId, command: Command) returns (next: seq<Action>, d: Cluster)
    requires c == Exec(s, run) && p in c.nodes && c.nodes[p].role == Leader && v in s.members && v != p
    ensures next == run + [Submit(p, command)] && d == Exec(s, next) && c.net == d.net
    ensures Disciplined(s, run) ==> Disciplined(s, next)
    ensures d.nodes == c.nodes[p := c.nodes[p].(log := c.nodes[p].log + [Entry(c.nodes[p].term, c.nodes[p].LastIndex() + 1, command)])]
  {
    next, d := run + [Submit(p, command)], Step(s, c, Submit(p, command));
    ExecMore(s, run, Submit(p, command));
    assert v in s.Of(p).Peers();
  }

  lemma Get(s: Setting, run: seq<Action>, c: Cluster, e: Envelope) returns (next: seq<Action>, d: Cluster)
    requires c == Exec(s, run) && e in c.net && e.dst in c.nodes
    ensures next == run + [Deliver(e)] && d == Exec(s, next)
    ensures Disciplined(s, run) && Careful(s, c, Deliver(e)) ==> Disciplined(s, next)
    ensures d == Update(c, e.dst, Handle(s.Of(e.dst), c.nodes[e.dst], e))
  {
    next, d := run + [Deliver(e)], Step(s, c, Deliver(e));
    ExecMore(s, run, Deliver(e));
  }

  lemma TrioQuorum(g: Guards, p: NodeId)
    ensures Trio(g).Of(p).Quorum() == 2
  {
    assert {1, 2, 3} == {1} + {2} + {3};
  }

  /** Replica `p` as the leader of its next term, elected by `v` alone. */
  function Elected(n: Node, p: NodeId, v: NodeId, u: NodeId): Node {
    n.(role := Leader, term := n.term + 1, votedFor := Some(p), votes := {p, v}, leaderId := Some(p),
       next := map[v := n.LastIndex() + 1, u := n.LastIndex() + 1], match_ := map[v := 0, u := 0])
  }

  lemma Others(g: Guards, p: NodeId, v: NodeId, u: NodeId)
    requires p != v && p != u && v != u && {p, v, u} == {1, 2, 3}
    ensures Trio(g).Of(p).Peers() == {v, u}
  {
    assert Trio(g).members == {p, v, u};
  }

  lemma Pair(p: NodeId, v: NodeId)
    requires p != v
    ensures {p} + {v} == {p, v} && |{p, v}| == 2
  {
    assert {p, v} == {p} + {v};
  }

  lemma LeaderTables(cfg: Config, n: Node, v: NodeId, u: NodeId)
    requires cfg.Peers() == {v, u} && v != u
    ensures
      var m := BecomeLeader(cfg, n);
      m.next == map[v := n.LastIndex() + 1, u := n.LastIndex() + 1] && m.match_ == map[v := 0, u := 0]
  {}

  lemma Win(g: Guards, n: Node, p: NodeId, v: NodeId, u: NodeId)
    requires p != v && p != u && v != u && {p, v, u} == {1, 2, 3}
    ensures
      var cfg := Trio(g).Of(p);
      var m := BecomeCandidate(cfg, n);
      var m1 := m.(votes := m.votes + {v});
      |m1.votes| >= cfg.Quorum() && BecomeLeader(cfg, m1) == Elected(n, p, v, u)
  {
    var cfg := Trio(g).Of(p);
    var m := BecomeCandidate(cfg, n);
    TrioQuorum(g, p);
    Others(g, p, v, u);
    Pair(p, v);
    LeaderTables(cfg, m.(votes := m.votes + {v}), v, u);
  }

  /** An election of three actions: `p` stands, `v` votes for it, `p` counts the vote. */
  lemma Elect(g: Guards, run: seq<Action>, c: Cluster, p: NodeId, v: NodeId, u: NodeId) returns (next: seq<Action>, d: Cluster)
    requires c == Exec(Trio(g), run) && c.nodes.Keys == {1, 2, 3}
    requires p != v && p != u && v != u && {p, v, u} == {1, 2, 3}
    requires
      var n, w := c.nodes[p], c.nodes[v];
      n.role != Leader && w.term <= n.term && UpToDate(n.LastIndex(), n.LastTerm(), w)
    ensures d == Exec(Trio(g), next) && d.nodes.Keys == {1, 2, 3} && c.net <= d.net
    ensures d.nodes[p] == Elected(c.nodes[p], p, v, u) && d.nodes[u] == c.nodes[u]
    ensures d.nodes[v] == BecomeFollower(c.nodes[v], c.nodes[p].term + 1).(votedFor := Some(p))
    ensures AppendTo(Trio(g).Of(p), d.nodes[p], v) in d.net && AppendTo(Trio(g).Of(p), d.nodes[p], u) in d.net
  {
    var s, n := Trio(g), c.nodes[p];
    assert v in s.members && u in s.members;
    next, d := Stand(s, run, c, p, v);
    next, d := Favour(s, next, d, Envelope(p, v, RequestVote(n.term + 1, p, n.LastIndex(), n.LastTerm())));
    next, d := Count(s, next, d, Envelope(v, p, VoteReply(n.term + 1, true, v)));
    Win(g, n, p, v, u);
  }

  lemma Booted(g: Guards) returns (c: Cluster)
    ensures c == Exec(Trio(g), []) && c.nodes.Keys == {1, 2, 3}
    ensures c.nodes[1] == FRESH && c.nodes[2] == FRESH && c.nodes[3] == FRESH
  {
    c := Boot(Trio(g));
  }

  lemma Overclaim0(g: Guards) returns (r: seq<Action>, c: Cluster)
    ensures c == Exec(Trio(g), r) && c.nodes.Keys == {1, 2, 3}
    ensures c.nodes[1] == Elected(FRESH, 1, 3, 2)
    ensures c.nodes[2] == FRESH && c.nodes[3] == BecomeFollower(FRESH, 1).(votedFor := Some(1))
  {
    c := Booted(g);
    r := [];
    r, c := Elect(g, r, c, 1, 3, 2);
  }

  lemma Overclaim1(g: Guards) returns (r: seq<Action>, c: Cluster)
    ensures c == Exec(Trio(g), r) && c.nodes.Keys == {1, 2, 3}
    ensures c.nodes[1] == Elected(FRESH, 1, 3, 2).(log := [E1])
    ensures c.nodes[2] == FRESH && c.nodes[3] == BecomeFollower(FRESH, 1).(votedFor := Some(1))
  {
    r, c := Overclaim0(g);
    r, c := Log(Trio(g), r, c, 1, 2, X);
  }

  /** Replica 2 has stood once in vain. */
  lemma Overclaim1b(g: Guards) returns (r: seq<Action>, c: Cluster)
    ensures c == Exec(Trio(g), r) && c.nodes.Keys == {1, 2, 3}
    ensures c.nodes[1] == Elected(FRESH, 1, 3, 2).(log := [E1])
    ensures c.nodes[2] == BecomeCandidate(Trio(g).Of(2), FRESH) && c.nodes[3] == BecomeFollower(FRESH, 1).(votedFor := Some(1))
  {
    r, c := Overclaim1(g);
    r, c := Stand(Trio(g), r, c, 2, 1);
  }

  /** The second time replica 3 votes for it. */
  lemma Overclaim1c(g: Guards) returns (r: seq<Action>, c: Cluster)
    ensures c == Exec(Trio(g), r) && c.nodes.Keys == {1, 2, 3}
    ensures c.nodes[1] == Elected(FRESH, 1, 3, 2).(log := [E1])
    ensures c.nodes[2] == Elected(BecomeCandidate(Trio(g).Of(2), FRESH), 2, 3, 1) && c.nodes[3] == FRESH.(term := 2, votedFor := Some(2))
    ensures AppendTo(Trio(g).Of(2), c.nodes[2], 1) in c.net
  {
    r, c := Overclaim1b(g);
    assert {2, 3, 1} == {1, 2, 3};
    r, c := Elect(g, r, c, 2, 3, 1);
  }

  lemma Overclaim2(g: Guards) returns (r: seq<Action>, c: Cluster)
    ensures c == Exec(Trio(g), r) && c.nodes.Keys == {1, 2, 3}
    ensures c.nodes[1] == Elected(FRESH, 1, 3, 2).(log := [E1])
    ensures
      var n := c.nodes[2];
      n.role == Leader && n.term == 2 && n.log == [] && n.commit == 0 && n.lastApplied == 0 && n.applied == []
      && n.snapIndex == 0 && n.snapTerm == 0 && n.match_ == map[3 := 0, 1 := 0] && n.next == map[3 := 1, 1 := 1]
    ensures c.nodes[3] == FRESH.(term := 2, votedFor := Some(2))
    ensures Envelope(2, 1, Append(2, 2, 0, 0, [], 0)) in c.net
  {
    r, c := Overclaim1c(g);
    SecondLeader(g, c.nodes[2]);
  }

  lemma SecondLeader(g: Guards, n: Node)
    requires n == Elected(BecomeCandidate(Trio(g).Of(2), FRESH), 2, 3, 1)
    ensures n.role == Leader && n.term == 2 && n.log == [] && n.commit == 0 && n.lastApplied == 0 && n.applied == []
    ensures n.snapIndex == 0 && n.snapTerm == 0 && n.match_ == map[3 := 0, 1 := 0] && n.next == map[3 := 1, 1 := 1]
    ensures AppendTo(Trio(g).Of(2), n, 1) == Envelope(2, 1, Append(2, 2, 0, 0, [], 0))
  {
    EmptyAppend(g, n);
  }

  lemma EmptyAppend(g: Guards, n: Node)
    requires n.term == 2 && n.log == [] && n.commit == 0 && n.snapIndex == 0 && n.snapTerm == 0 && n.next == map[3 := 1, 1 := 1]
    ensures AppendTo(Trio(g).Of(2), n, 1) == Envelope(2, 1, Append(2, 2, 0, 0, [], 0))
  {}

  /** Replica 1, still holding X, acknowledges index 1 of a leader whose log is empty. */
  lemma Overclaim3(g: Guards) returns (r: seq<Action>, c: Cluster)
    requires !g.ackPrefix
    ensures c == Exec(Trio(g), r) && c.nodes.Keys == {1, 2, 3}
    ensures c.nodes[1] == Elected(FRESH, 1, 3, 2).(log := [E1], role := Follower, term := 2, votedFor := None, votes := {}, leaderId := Some(2))
    ensures
      var n := c.nodes[2];
      n.role == Leader && n.term == 2 && n.log == [E2] && n.commit == 0 && n.lastApplied == 0 && n.applied == []
      && n.snapIndex == 0 && n.snapTerm == 0 && n.match_ == map[3 := 0, 1 := 0]
    ensures c.nodes[3] == FRESH.(term := 2, votedFor := Some(2))
    ensures Envelope(1, 2, AppendReply(2, true, 1, 1, 0)) in c.net
  {
    r, c := Overclaim2(g);
    var s, e := Trio(g), Envelope(2, 1, Append(2, 2, 0, 0, [], 0));
    r, c := Get(s, r, c, e);
    r, c := Log(s, r, c, 2, 1, Y);
  }

  lemma CommitAlone(g: Guards, n: Node)
    requires n.role == Leader && n.term == 2 && n.log == [E2] && n.commit == 0 && n.lastApplied == 0 && n.applied == []
    requires n.snapIndex == 0 && n.snapTerm == 0 && n.match_ == map[3 := 0, 1 := 0]
    ensures
      var m := Handle(Trio(g).Of(2), n, Envelope(1, 2, AppendReply(2, true, 1, 1, 0))).node;
      m.log == [E2] && m.commit == 1 && m.applied == [Y] && m.term == 2
  {
    TrioQuorum(g, 2);
    var n1 := Progress(n, 1, 1);
    assert Replicas(n1, 1) == {1};
    assert |{1 as NodeId}| == 1;
    assert n1.LastIndex() == 1 && n1.TermAt(1) == 2;
    assert QuorumIndex(Trio(g).Of(2), n1, 1) == 1;
    var k := n1.(commit := 1);
    assert k.EntryAt(1) == Some(E2);
    var k1 := k.(lastApplied := 1, applied := [] + [Y], docs := Apply(k.docs, Y));
    assert ApplyFrom(k) == ApplyFrom(k1) == k1;
  }

  /** Leader completeness fails: replica 2 has committed Y, replica 1 leads term 3 without it. */
  lemma OverclaimLosesCommit(g: Guards) returns (r: seq<Action>, c: Cluster)
    requires !g.ackPrefix
    ensures c == Exec(Trio(g), r) && c.nodes.Keys == {1, 2, 3}
    ensures c.nodes[2].applied == [Y] && Prefix(c.nodes[2]) == [E2] && c.nodes[2].term == 2
    ensures
      var n := c.nodes[1];
      n.role == Leader && n.term == 3 && n.log == [E1] && n.commit == 0 && n.lastApplied == 0 && n.applied == []
      && n.snapIndex == 0 && n.snapTerm == 0 && n.next == map[3 := 2, 2 := 2] && n.match_ == map[3 := 0, 2 := 0]
    ensures c.nodes[3] == FRESH.(term := 3, votedFor := Some(1))
    ensures Envelope(1, 3, Append(3, 1, 1, 1, [], 0)) in c.net
  {
    r, c := Overclaim3(g);
    var s, e := Trio(g), Envelope(1, 2, AppendReply(2, true, 1, 1, 0));
    CommitAlone(g, c.nodes[2]);
    r, c := Get(s, r, c, e);
    r, c := Elect(g, r, c, 1, 3, 2);
  }

  lemma Overclaim4(g: Guards) returns (r: seq<Action>, c: Cluster)
    requires !g.ackPrefix
    ensures c == Exec(Trio(g), r) && c.nodes.Keys == {1, 2, 3} && c.nodes[2].applied == [Y]
    ensures
      var n := c.nodes[1];
      n.role == Leader && n.term == 3 && n.log == [E1, E3] && n.commit == 0 && n.lastApplied == 0 && n.applied == []
      && n.snapIndex == 0 && n.snapTerm == 0 && n.match_ == map[3 := 0, 2 := 0]
    ensures c.nodes[3] == FRESH.(term := 3, votedFor := Some(1), leaderId := Some(1))
    ensures Envelope(1, 3, Append(3, 1, 0, 0, [E1, E3], 0)) in c.net
  {
    r, c := OverclaimLosesCommit(g);
    var s := Trio(g);
    r, c := Log(s, r, c, 1, 2, Z);
    var e := Envelope(1, 3, Append(3, 1, 1, 1, [], 0));
    RefuseGap(g, c.nodes[3]);
    r, c := Get(s, r, c, e);
    var f := Envelope(3, 1, AppendReply(3, false, 3, 0, 1));
    Retry(g, c.nodes[1]);
    r, c := Get(s, r, c, f);
  }

  lemma RefuseGap(g: Guards, n: Node)
    requires n == FRESH.(term := 3, votedFor := Some(1))
    ensures Handle(Trio(g).Of(3), n, Envelope(1, 3, Append(3, 1, 1, 1, [], 0))) ==
            Outcome(n.(leaderId := Some(1)), {Envelope(3, 1, AppendReply(3, false, 3, 0, 1))})
  {}

  lemma Retry(g: Guards, n: Node)
    requires n.role == Leader && n.term == 3 && n.log == [E1, E3] && n.commit == 0 && n.snapIndex == 0 && n.snapTerm == 0
    ensures
      var m := n.(next := n.next[3 := 1]);
      Handle(Trio(g).Of(1), n, Envelope(3, 1, AppendReply(3, false, 3, 0, 1))) ==
      Outcome(m, {Envelope(1, 3, Append(3, 1, 0, 0, [E1, E3], 0))})
  {
    FromFirst(g, n.(next := n.next[3 := 1]));
  }

  lemma FromFirst(g: Guards, n: Node)
    requires n.term == 3 && n.log == [E1, E3] && n.commit == 0 && n.snapIndex == 0 && n.snapTerm == 0 && 3 in n.next && n.next[3] == 1
    ensures AppendTo(Trio(g).Of(1), n, 3) == Envelope(1, 3, Append(3, 1, 0, 0, [E1, E3], 0))
  {
    assert n.log[0..] == n.log;
  }

  lemma CommitBoth(g: Guards, n: Node)
    requires n.role == Leader && n.term == 3 && n.log == [E1, E3] && n.commit == 0 && n.lastApplied == 0 && n.applied == []
    requires n.snapIndex == 0 && n.snapTerm == 0 && n.match_ == map[3 := 0, 2 := 0]
    ensures Handle(Trio(g).Of(1), n, Envelope(3, 1, AppendReply(3, true, 3, 2, 0))).node.applied == [X, Z]
  {
    TrioQuorum(g, 1);
    var n1 := Progress(n, 3, 2);
    assert Replicas(n1, 2) == {3};
    assert |{3 as NodeId}| == 1;
    assert n1.LastIndex() == 2 && n1.TermAt(2) == 3;
    assert QuorumIndex(Trio(g).Of(1), n1, 2) == 2;
    var k := n1.(commit := 2);
    assert k.EntryAt(1) == Some(E1) && k.EntryAt(2) == Some(E3);
    var k1 := k.(lastApplied := 1, applied := [] + [X], docs := Apply(k.docs, X));
    var k2 := k1.(lastApplied := 2, applied := [X] + [Z], docs := Apply(k1.docs, Z));
    assert ApplyFrom(k) == ApplyFrom(k1) == ApplyFrom(k2) == k2;
  }

  /** Without the first guard two replicas apply different commands at the first position. */
  lemma OverclaimUnsafe(g: Guards) returns (r: seq<Action>)
    requires !g.ackPrefix
    ensures
      var c := Exec(Trio(g), r);
      1 in c.nodes && 2 in c.nodes && c.nodes[1].applied == [X, Z] && c.nodes[2].applied == [Y]
  {
    var c;
    r, c := Overclaim4(g);
    var s, e := Trio(g), Envelope(1, 3, Append(3, 1, 0, 0, [E1, E3], 0));
    TwoEntries(g, c.nodes[3]);
    r, c := Get(s, r, c, e);
    var f := Envelope(3, 1, AppendReply(3, true, 3, 2, 0));
    CommitBoth(g, c.nodes[1]);
    r, c := Get(s, r, c, f);
  }

  lemma TwoEntries(g: Guards, n: Node)
    requires n == FRESH.(term := 3, votedFor := Some(1), leaderId := Some(1)) && !g.ackPrefix
    ensures
      var e := Envelope(1, 3, Append(3, 1, 0, 0, [E1, E3], 0));
      Handle(Trio(g).Of(3), n, e).out == {Envelope(3, 1, AppendReply(3, true, 3, 2, 0))}
  {
    assert [E1, E3][1..] == [E3] && [E3][1..] == [];
    assert MergeEntries(0, [E1, E3], []) == [E1, E3];
    assert MergeEntries(0, [E1], [E3]) == MergeEntries(0, [E1] + [E3], []);
    assert MergeEntries(0, [], [E1, E3]) == MergeEntries(0, [] + [E1], [E3]);
    assert [] + [E1] == [E1] && [E1] + [E3] == [E1, E3];
  }
}
