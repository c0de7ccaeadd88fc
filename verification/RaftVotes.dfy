/**
 * Votes within a term.  A replica may vote twice in one term: a candidate that steps down forgets the
 * vote it gave itself.  When that can happen, and why it does no harm.
 */
module RaftVotes {
  import opened Options
  import opened Replication
  import opened RaftModel
  import opened RaftCluster
  import opened RaftElection
  import opened RaftTheorems
  import opened RaftDeviations
  import opened RaftQuint

  // ------------------------------------------------- when a vote is forgotten

  /** The step makes a candidate or leader follow a leader of its own term. */
  predicate StepsDownWithin(n: Node, p: NodeId, a: Action) {
    a.Deliver? && a.envelope.dst == p && a.envelope.msg.Append? && a.envelope.msg.term == n.term && n.role != Follower
  }

  lemma VoteOnAppend(cfg: Config, n: Node, src: NodeId, m: Message)
    requires m.Append?
    ensures
      var o := OnAppend(cfg, n, src, m).node;
      && o.term == (if m.term > n.term then m.term else n.term)
      && (o.term == n.term ==> o.votedFor == if m.term == n.term && n.role != Follower then None else n.votedFor)
  {
    if m.term >= n.term {
      var n1 := Recognise(n, m.term, m.leader);
      LearnFrame(n1.(log := MergeEntries(n1.snapIndex, n1.log, m.entries)), m.commit);
    }
  }

  lemma VoteOnDeliver(s: Setting, c: Cluster, e: Envelope)
    requires Enabled(c, Deliver(e)) && Routed(s, e) && c.nodes[e.dst].votedFor != None
    ensures
      var n, m := c.nodes[e.dst], Handle(s.Of(e.dst), c.nodes[e.dst], e).node;
      m.term == n.term ==>
        m.votedFor == if e.msg.Append? && e.msg.term == n.term && n.role != Follower then None else n.votedFor
  {
    var n, cfg, m := c.nodes[e.dst], s.Of(e.dst), e.msg;
    match m
    case RequestVote(_, _, _, _) =>
    case VoteReply(_, _, _) =>
    case Append(_, _, _, _, _, _) => VoteOnAppend(cfg, n, e.src, m);
    case AppendReply(_, _, _, _, _) => AdvanceFrame(cfg, Progress(n, m.follower, m.matchIndex));
  }

  lemma VoteOnSubmit(cfg: Config, n: Node, command: Command)
    ensures Propose(cfg, n, command).0.votedFor == n.votedFor
  {
    var e := Entry(n.term, n.LastIndex() + 1, command);
    ApplyCommittedFrame(n.(log := n.log + [e], commit := e.index));
  }

  lemma VoteOnStep(s: Setting, c: Cluster, a: Action)
    requires Enabled(c, a) && (a.Deliver? ==> Routed(s, a.envelope)) && c.nodes[Actor(a)].votedFor != None
    ensures
      var n, m := c.nodes[Actor(a)], React(s, c, a).node;
      m.term == n.term ==> m.votedFor == if StepsDownWithin(n, Actor(a), a) then None else n.votedFor
  {
    match a
    case Timeout(p) =>
    case Beat(p) =>
    case Submit(p, command) => VoteOnSubmit(s.Of(p), c.nodes[p], command);
    case Deliver(e) => VoteOnDeliver(s, c, e);
  }

  /**
   * A vote is forgotten within its term in one way only.  In any run of any variant, a step that leaves
   * a replica in its term changes the vote it has given if and only if a candidate, or leader, follows
   * an append of its own term; then the vote is gone.
   */
  lemma VoteForgottenIff(s: Setting, run: seq<Action>, a: Action, p: NodeId)
    requires Enabled(Exec(s, run), a) && p in Exec(s, run).nodes && Exec(s, run).nodes[p].votedFor != None
    requires p in Exec(s, run + [a]).nodes && Exec(s, run + [a]).nodes[p].term == Exec(s, run).nodes[p].term
    ensures
      var n, m := Exec(s, run).nodes[p], Exec(s, run + [a]).nodes[p];
      && (m.votedFor != n.votedFor <==> StepsDownWithin(n, p, a))
      && (m.votedFor != n.votedFor ==> m.votedFor == None && n.role == Candidate && n.votedFor == Some(p))
  {
    var c, h := Exec(s, run), Chronicle(s, run);
    ExecMore(s, run, a);
    ElectionsAlways(s, run);
    assert a.Deliver? ==> Routed(s, a.envelope);
    if Actor(a) == p {
      VoteOnStep(s, c, a);
      if StepsDownWithin(c.nodes[p], p, a) {
        NoRivalAppend(s, c, h, a.envelope);
        assert NodeShape(s, p, c.nodes[p]);
      }
    }
  }

  // -------------------------------------- a second vote comes after the leader

  /** Some replica has led the term by the time of `run`. */
  ghost predicate HadLeader(s: Setting, run: seq<Action>, t: nat) {
    exists l: nat, r: NodeId :: LedAt(s, run, l, r, t)
  }

  predicate LedAt(s: Setting, run: seq<Action>, l: nat, r: NodeId, t: nat) {
    l <= |run| && r in s.members && At(s, run, l, r).role == Leader && At(s, run, l, r).term == t
  }

  lemma AtPrefix(s: Setting, run: seq<Action>, j: nat, l: nat, r: NodeId)
    requires l <= j <= |run|
    ensures At(s, run[..j], l, r) == At(s, run, l, r)
  {
    assert run[..j][..l] == run[..l];
  }

  /** The terms on record are those that had a leader. */
  lemma {:induction false} RecordedLed(s: Setting, run: seq<Action>, t: nat)
    requires t in Chronicle(s, run).reigns
    ensures HadLeader(s, run, t)
    decreases |run|
  {
    if run != [] {
      var before, a := run[..|run| - 1], run[|run| - 1];
      if t in Chronicle(s, before).reigns {
        RecordedLed(s, before, t);
        var l: nat, r: NodeId :| LedAt(s, before, l, r, t);
        AtPrefix(s, run, |run| - 1, l, r);
        assert LedAt(s, run, l, r, t);
      } else {
        NewlyLed(s, run, t);
      }
    }
  }

  lemma NewlyLed(s: Setting, run: seq<Action>, t: nat)
    requires run != [] && t in Chronicle(s, run).reigns && t !in Chronicle(s, run[..|run| - 1]).reigns
    ensures HadLeader(s, run, t)
  {
    var before, a := run[..|run| - 1], run[|run| - 1];
    ElectionsAlways(s, before);
    var c := Exec(s, before);
    assert run[..|run|] == run;
    assert a.Deliver? && Enabled(c, a) ==> Routed(s, a.envelope);
    assert LedAt(s, run, |run|, Actor(a), t);
  }

  /** As long as its term has no leader, a candidate stays one, keeps its own vote and grants no other. */
  ghost predicate Standing(s: Setting, c: Cluster, h: History, p: NodeId, t: nat) {
    && p in c.nodes && c.nodes[p].term >= t
    && (t in h.reigns
        || ((c.nodes[p].term == t ==> c.nodes[p].role == Candidate) && forall q: NodeId :: Grant(t, p, q) !in c.net))
  }

  /** A candidate grants nobody its vote in its own term. */
  lemma CandidateGrantsNothing(s: Setting, c: Cluster, a: Action)
    requires Enabled(c, a) && (a.Deliver? ==> Routed(s, a.envelope))
    requires c.nodes[Actor(a)].role == Candidate && c.nodes[Actor(a)].votedFor == Some(Actor(a))
    ensures forall q: NodeId :: Grant(c.nodes[Actor(a)].term, Actor(a), q) !in React(s, c, a).out
  {
    var p := Actor(a);
    match a
    case Timeout(_) =>
    case Beat(_) =>
    case Submit(_, _) =>
    case Deliver(e) =>
      forall q: NodeId ensures Grant(c.nodes[p].term, p, q) !in Handle(s.Of(p), c.nodes[p], e).out {
        assert Grant(c.nodes[p].term, p, q).msg.VoteReply?;
      }
  }

  lemma RoleOnVoteReply(cfg: Config, n: Node, m: Message)
    requires m.VoteReply? && n.role == Candidate
    ensures
      var o := OnVoteReply(cfg, n, m).node;
      o.term == n.term ==> o.role == Candidate || o.role == Leader
  {}

  lemma RoleOnDeliver(s: Setting, c: Cluster, e: Envelope)
    requires Enabled(c, Deliver(e)) && Routed(s, e) && c.nodes[e.dst].role == Candidate
    ensures
      var n, m := c.nodes[e.dst], Handle(s.Of(e.dst), c.nodes[e.dst], e).node;
      m.term == n.term ==> m.role == Candidate || m.role == Leader || (e.msg.Append? && e.msg.term == n.term)
  {
    var n, cfg, m := c.nodes[e.dst], s.Of(e.dst), e.msg;
    match m
    case RequestVote(_, _, _, _) =>
    case VoteReply(_, _, _) => RoleOnVoteReply(cfg, n, m);
    case Append(_, _, _, _, _, _) => VoteOnAppend(cfg, n, e.src, m);
    case AppendReply(_, _, _, _, _) =>
  }

  /** A candidate leaves its candidacy within its term only for a leader. */
  lemma StaysCandidate(s: Setting, c: Cluster, h: History, a: Action)
    requires Elections(s, c, h) && Enabled(c, a) && c.nodes[Actor(a)].role == Candidate
    requires c.nodes[Actor(a)].term !in h.reigns
    ensures
      var n, m := c.nodes[Actor(a)], React(s, c, a).node;
      m.term == n.term ==> m.role == Candidate || m.role == Leader
  {
    match a
    case Timeout(_) =>
    case Beat(_) =>
    case Submit(_, command) =>
    case Deliver(e) =>
      assert Routed(s, e);
      assert e.msg.Append? ==> e.msg.term in h.reigns;
      RoleOnDeliver(s, c, e);
  }

  lemma NoNewGrant(s: Setting, c: Cluster, h: History, a: Action, p: NodeId, t: nat, q: NodeId)
    requires Elections(s, c, h) && Enabled(c, a) && Standing(s, c, h, p, t) && p in s.members && t !in h.reigns
    ensures Grant(t, p, q) !in React(s, c, a).out
  {
    var o := React(s, c, a);
    LawfulReact(s, c, h, a);
    assert a.Deliver? ==> Routed(s, a.envelope);
    if Grant(t, p, q) in o.out {
      assert Grant(t, p, q).src == p;
      assert NodeShape(s, p, c.nodes[p]);
      if c.nodes[p].term == t {
        CandidateGrantsNothing(s, c, a);
      }
    }
  }

  lemma StandingStep(s: Setting, c: Cluster, h: History, a: Action, p: NodeId, t: nat, d: Cluster, k: History)
    requires Elections(s, c, h) && Enabled(c, a) && Standing(s, c, h, p, t) && p in s.members
    requires d == Update(c, Actor(a), React(s, c, a)) && k == Record(s, c, h, a)
    ensures Standing(s, d, k, p, t)
  {
    TermGrows(s, c, h, a);
    if t !in k.reigns {
      if Actor(a) == p && c.nodes[p].term == t {
        StaysCandidate(s, c, h, a);
      }
      forall q: NodeId ensures Grant(t, p, q) !in d.net {
        NoNewGrant(s, c, h, a, p, t, q);
      }
    }
  }

  lemma TermGrows(s: Setting, c: Cluster, h: History, a: Action)
    requires Elections(s, c, h) && Enabled(c, a)
    ensures React(s, c, a).node.term >= c.nodes[Actor(a)].term
    ensures forall t <- h.reigns :: t in Record(s, c, h, a).reigns
  {
    LawfulReact(s, c, h, a);
  }

  lemma {:induction false} StandingKept(s: Setting, run: seq<Action>, i: nat, p: NodeId, t: nat)
    requires i <= |run| && p in s.members && At(s, run, i, p).role == Candidate && At(s, run, i, p).term == t
    ensures Standing(s, Exec(s, run), Chronicle(s, run), p, t)
    decreases |run|
  {
    if i == |run| {
      assert run[..i] == run;
      ElectionsAlways(s, run);
      assert forall q: NodeId :: Grant(t, p, q) !in Exec(s, run).net;
    } else {
      var before, a := run[..|run| - 1], run[|run| - 1];
      AtPrefix(s, run, |run| - 1, i, p);
      StandingKept(s, before, i, p, t);
      ElectionsAlways(s, before);
      ElectionsAlways(s, run);
      if Enabled(Exec(s, before), a) {
        StandingStep(s, Exec(s, before), Chronicle(s, before), a, p, t, Exec(s, run), Chronicle(s, run));
      }
    }
  }

  /**
   * Why the second vote does no harm: in any run of any variant, a replica that has stood in a term
   * grants another candidate of that term its vote only after somebody has come to lead it.
   */
  lemma SecondVoteAfterLeader(s: Setting, run: seq<Action>, i: nat, p: NodeId, q: NodeId)
    requires i <= |run| && p in s.members && At(s, run, i, p).role == Candidate
    requires Grant(At(s, run, i, p).term, p, q) in Exec(s, run).net
    ensures HadLeader(s, run, At(s, run, i, p).term)
  {
    var t := At(s, run, i, p).term;
    StandingKept(s, run, i, p, t);
    RecordedLed(s, run, t);
  }

  // ------------------------------------------------------ voting twice, a run

  /** Replica 2 stands in term 1 and votes for itself. */
  lemma Twice1(g: Guards) returns (r: seq<Action>, c: Cluster)
    ensures Calm(g, r, c)
    ensures Looks(c.nodes[2], Candidate, 1, []) && c.nodes[2].votedFor == Some(2)
    ensures forall p :: p in FIVE && p != 2 ==> c.nodes[p] == FRESH
  {
    r, c := Started(g);
    r, c := Stand5(Quint(g), r, c, 2, 4, 3);
  }

  /** So does replica 1, which comes to lead the term. */
  lemma Twice2(g: Guards) returns (r0: seq<Action>, r: seq<Action>, c: Cluster)
    ensures Calm(g, r, c) && r0 <= r
    ensures At(Quint(g), r0, |r0|, 2).votedFor == Some(2) && At(Quint(g), r0, |r0|, 2).term == 1 && At(Quint(g), r0, |r0|, 2).role == Candidate
    ensures Crowned5(c.nodes[1], 1, 1, []) && Looks(c.nodes[2], Candidate, 1, []) && c.nodes[4] == FRESH
  {
    r0, c := Twice1(g);
    assert r0[..|r0|] == r0;
    r, c := Reign5(g, r0, c, 1, 3, 5);
  }

  /** Replica 2 steps down and forgets its vote. */
  lemma Twice3(g: Guards) returns (r0: seq<Action>, r: seq<Action>, c: Cluster)
    ensures Calm(g, r, c) && r0 <= r
    ensures At(Quint(g), r0, |r0|, 2).votedFor == Some(2) && At(Quint(g), r0, |r0|, 2).term == 1 && At(Quint(g), r0, |r0|, 2).role == Candidate
    ensures Looks(c.nodes[2], Follower, 1, []) && c.nodes[2].votedFor == None && c.nodes[4] == FRESH
  {
    r0, r, c := Twice2(g);
    NoEntry(g, 1, c.nodes[1], 2);
    r, c := Send(Quint(g), r, c, 1);
    assert 2 in Quint(g).members - {1};
    r, c := Get(Quint(g), r, c, Envelope(1, 2, Append(1, 1, 0, 0, [], 0)));
  }

  /**
   * One vote per term is not what the code keeps: a concrete run in which replica 2, in term 1, first
   * votes for itself and then for replica 4.
   */
  lemma VotesTwice(g: Guards) returns (r0: seq<Action>, r: seq<Action>)
    ensures r0 <= r
    ensures
      var n, m := At(Quint(g), r0, |r0|, 2), At(Quint(g), r, |r|, 2);
      && n.term == m.term == 1 && n.role == Candidate && n.votedFor == Some(2) && m.votedFor == Some(4)
      && Grant(1, 2, 4) in Exec(Quint(g), r).net
  {
    var c;
    r0, r, c := Twice3(g);
    r, c := Stand5(Quint(g), r, c, 4, 2, 3);
    r, c := Get(Quint(g), r, c, Envelope(4, 2, RequestVote(1, 4, 0, 0)));
    assert r[..|r|] == r;
  }
}
