/** Progress in the runs of a cluster: commits are not held back, proposals stay put, and followers' logs get repaired. */
module RaftRepair {
  import opened Options
  import opened Replication
  import opened RaftModel
  import opened RaftCluster
  import opened RaftElection
  import opened RaftLog
  import opened RaftCommit
  import opened RaftPromises
  import opened RaftSafety
  import opened RaftHonesty
  import opened RaftRuns
  import opened RaftProgress
  import opened RaftTheorems

  // ------------------------------------------------ commits are not held back

  /** A leader without entries of its own term has nothing to commit. */
  lemma NoneOwn(cfg: Config, n: Node)
    requires n.snapIndex == 0 && n.snapTerm == 0 && Contiguous(n.log) && TermsBelow(n.log, n.term)
    ensures NothingHeldBack(cfg, n)
  {
    LogIndices(n);
  }

  /** Nor has one that has only appended to its log beyond all match indexes. */
  lemma NoneMore(cfg: Config, n: Node, m: Node)
    requires n.snapIndex == 0 && n.snapTerm == 0 && m.snapIndex == 0 && m.snapTerm == 0 && Contiguous(n.log) && Contiguous(m.log)
    requires n.log <= m.log && m.term == n.term && m.commit == n.commit && m.match_ == n.match_
    requires NothingHeldBack(cfg, n) && cfg.Quorum() > 1 && forall f <- n.match_ :: n.match_[f] <= |n.log|
    ensures NothingHeldBack(cfg, m)
  {
    LogIndices(n);
    LogIndices(m);
    forall j | m.commit < j <= m.LastIndex() ensures !HeldByQuorum(cfg, m, j) {
      if j <= |n.log| {
        assert !HeldByQuorum(cfg, n, j) && Replicas(m, j) == Replicas(n, j);
      } else {
        assert Replicas(m, j) == {};
      }
    }
  }

  /** The commit rule looks at nothing else. */
  lemma SameView(cfg: Config, n: Node, m: Node)
    requires NothingHeldBack(cfg, n) && m.log == n.log && m.term == n.term && m.commit == n.commit && m.match_ == n.match_
    requires m.snapIndex == n.snapIndex && m.snapTerm == n.snapTerm
    ensures NothingHeldBack(cfg, m)
  {
    forall j | m.commit < j <= m.LastIndex() ensures !HeldByQuorum(cfg, m, j) {
      assert !HeldByQuorum(cfg, n, j) && Replicas(m, j) == Replicas(n, j) && m.TermAt(j) == n.TermAt(j);
    }
  }

  ghost predicate Prompt(s: Setting, p: NodeId, n: Node) {
    n.role == Leader ==> NothingHeldBack(s.Of(p), n)
  }

  lemma MatchWithin(c: Cluster, h: History, n: Node)
    requires n.role == Leader && ViewSound(c, h, n) && n.term in h.reigns && h.reigns[n.term].log == n.log
    requires ReignLog(h, n.term, h.reigns[n.term])
    ensures forall f <- n.match_ :: n.match_[f] <= |n.log|
  {
    forall f <- n.match_ ensures n.match_[f] <= |n.log| {
      if n.match_[f] > 0 {
        assert Counted(c, h, n.term, f, n.match_[f]);
      }
    }
  }

  lemma PromptSubmit(s: Setting, c: Cluster, h: History, p: NodeId, n: Node, command: Command)
    requires p in s.members && NodeShape(s, p, n) && NodeLog(h, n) && n.role == Leader && ViewSound(c, h, n)
    requires n.term in h.reigns && h.reigns[n.term].log == n.log && ReignLog(h, n.term, h.reigns[n.term])
    requires NothingHeldBack(s.Of(p), n)
    ensures NothingHeldBack(s.Of(p), Propose(s.Of(p), n, command).0)
  {
    var cfg, m := s.Of(p), Propose(s.Of(p), n, command).0;
    LogIndices(n);
    ProposeAt(cfg, n, command);
    if cfg.Peers() != {} {
      MatchWithin(c, h, n);
      ManyMembers(cfg, p);
      NoneMore(cfg, n, m);
    }
  }

  lemma ManyMembers(cfg: Config, p: NodeId)
    requires cfg.id == p && p in cfg.members && cfg.Peers() != {}
    ensures cfg.Quorum() > 1
  {
    assert cfg.members == cfg.Peers() + {p};
    assert |cfg.members| == |cfg.Peers()| + 1;
  }

  lemma PromptTimeout(s: Setting, h: History, p: NodeId, n: Node)
    requires NodeShape(s, p, n) && NodeLog(h, n)
    ensures Prompt(s, p, StartElection(s.Of(p), n).node)
  {
    if s.Of(p).Peers() == {} {
      NoneOwn(s.Of(p), StartElection(s.Of(p), n).node);
    }
  }

  lemma PromptVoteReply(s: Setting, h: History, p: NodeId, n: Node, m: Message)
    requires m.VoteReply? && NodeShape(s, p, n) && NodeLog(h, n) && Prompt(s, p, n)
    ensures Prompt(s, p, OnVoteReply(s.Of(p), n, m).node)
  {
    var o := OnVoteReply(s.Of(p), n, m).node;
    if o.role == Leader && n.role == Candidate {
      NoneOwn(s.Of(p), o);
    }
  }

  lemma PromptRequest(s: Setting, p: NodeId, n: Node, src: NodeId, m: Message)
    requires m.RequestVote? && Prompt(s, p, n)
    ensures Prompt(s, p, OnRequestVote(s.Of(p), n, src, m).node)
  {
    var o := OnRequestVote(s.Of(p), n, src, m).node;
    if o.role == Leader {
      SameView(s.Of(p), n, o);
    }
  }

  lemma PromptReply(s: Setting, p: NodeId, n: Node, m: Message)
    requires m.AppendReply? && Prompt(s, p, n)
    ensures Prompt(s, p, OnAppendReply(s.Of(p), n, m).node)
  {
    if m.term <= n.term && n.role == Leader && !Stale(s.guards, n, m.term) {
      if m.success {
        ReplyAdvances(s.Of(p), n, m);
      } else {
        SameView(s.Of(p), n, Retreat(n, m.follower, m.conflict));
      }
    }
  }

  lemma PromptAppend(s: Setting, p: NodeId, n: Node, src: NodeId, m: Message)
    requires m.Append? && Prompt(s, p, n)
    ensures Prompt(s, p, OnAppend(s.Of(p), n, src, m).node)
  {
    if m.term >= n.term {
      var n1 := Recognise(n, m.term, m.leader);
      LearnFrame(n1.(log := MergeEntries(n1.snapIndex, n1.log, m.entries)), m.commit);
    }
  }

  lemma PromptStep(s: Setting, c: Cluster, h: History, a: Action)
    requires Invariant(s, c, h) && Enabled(c, a) && Prompt(s, Actor(a), c.nodes[Actor(a)])
    ensures Prompt(s, Actor(a), React(s, c, a).node)
  {
    var p := Actor(a);
    var n := c.nodes[p];
    Readiness(s, c, h, p);
    match a
    case Timeout(_) => PromptTimeout(s, h, p, n);
    case Beat(_) =>
    case Submit(_, command) => PromptSubmit(s, c, h, p, n, command);
    case Deliver(e) =>
      assert Routed(s, e);
      match e.msg
      case RequestVote(_, _, _, _) => PromptRequest(s, p, n, e.src, e.msg);
      case VoteReply(_, _, _) => PromptVoteReply(s, h, p, n, e.msg);
      case Append(_, _, _, _, _, _) => PromptAppend(s, p, n, e.src, e.msg);
      case AppendReply(_, _, _, _, _) => PromptReply(s, p, n, e.msg);
  }

  lemma {:induction false} PromptAlways(s: Setting, run: seq<Action>, p: NodeId)
    requires Disciplined(s, run) && p in Exec(s, run).nodes
    ensures Prompt(s, p, Exec(s, run).nodes[p])
    decreases |run|
  {
    if run != [] {
      var before, a := run[..|run| - 1], run[|run| - 1];
      var c := Exec(s, before);
      InvariantAlways(s, before);
      if p in c.nodes {
        PromptAlways(s, before, p);
      }
      if Enabled(c, a) && Actor(a) == p {
        PromptStep(s, c, Chronicle(s, before), a);
      }
    }
  }

  /**
   * At every moment of every disciplined run, a leader has committed every index of its own term that
   * it and its match indexes put on a quorum: no commit waits for another message.
   */
  lemma NothingHeldBackAlways(s: Setting, run: seq<Action>, i: nat, p: NodeId)
    requires i <= |run| && Disciplined(s, run) && p in s.members
    ensures
      var n := At(s, run, i, p);
      n.role == Leader ==> NothingHeldBack(s.Of(p), n)
  {
    DisciplinedPrefix(s, run, i);
    InvariantAlways(s, run[..i]);
    PromptAlways(s, run[..i], p);
  }

  // ------------------------------------------------------- proposals stay put

  lemma SubmitTaken(s: Setting, run: seq<Action>, p: NodeId, command: Command)
    requires p in Exec(s, run).nodes && Exec(s, run).nodes[p].role == Leader
    ensures
      var after := Exec(s, run + [Submit(p, command)]);
      p in after.nodes && after.nodes[p] == Propose(s.Of(p), Exec(s, run).nodes[p], command).0
  {
    assert (run + [Submit(p, command)])[..|run|] == run;
  }

  lemma EntryPlaced(cfg: Config, n: Node, command: Command, index: nat)
    requires n.snapIndex == 0 && n.snapTerm == 0 && Contiguous(n.log) && n.role == Leader
    requires Propose(cfg, n, command).1 == Some(index)
    ensures
      var m := Propose(cfg, n, command).0;
      0 < index <= |m.log| && m.log[index - 1] == Entry(n.term, index, command)
  {
    LogIndices(n);
    ApplyCommittedFrame(n.(log := n.log + [Entry(n.term, index, command)], commit := index));
  }

  /** Right after the proposal the entry is where the client was told. */
  lemma ProposalPlaced(s: Setting, run: seq<Action>, p: NodeId, command: Command, index: nat)
    requires p in s.members && p in Exec(s, run).nodes && Exec(s, run).nodes[p].role == Leader
    requires Propose(s.Of(p), Exec(s, run).nodes[p], command).1 == Some(index)
    ensures
      var after := Exec(s, run + [Submit(p, command)]);
      && p in after.nodes && 0 < index <= |after.nodes[p].log|
      && after.nodes[p].log[index - 1] == Entry(Exec(s, run).nodes[p].term, index, command)
  {
    ElectionsAlways(s, run);
    LogsAlways(s, run);
    SubmitTaken(s, run, p, command);
    EntryPlaced(s.Of(p), Exec(s, run).nodes[p], command, index);
  }

  /**
   * Whatever any replica holds, at any moment of any run, at the index a client was told, in the term
   * the proposal was made: it is the command of that client.
   */
  lemma ProposalStays(s: Setting, run: seq<Action>, i: nat, j: nat, p: NodeId, command: Command, q: NodeId, index: nat)
    requires i < |run| && j <= |run| && p in s.members && q in s.members && run[i] == Submit(p, command)
    requires p in Exec(s, run[..i]).nodes && Exec(s, run[..i]).nodes[p].role == Leader
    requires Propose(s.Of(p), Exec(s, run[..i]).nodes[p], command).1 == Some(index)
    requires q in Exec(s, run[..j]).nodes && 0 < index <= |Exec(s, run[..j]).nodes[q].log|
    requires Exec(s, run[..j]).nodes[q].log[index - 1].term == Exec(s, run[..i]).nodes[p].term
    ensures Exec(s, run[..j]).nodes[q].log[index - 1].command == command
  {
    ProposalPlaced(s, run[..i], p, command, index);
    assert run[..i + 1] == run[..i] + [Submit(p, command)];
    LogMatching(s, run, j, i + 1, q, p, index - 1);
    var a, b := Exec(s, run[..j]).nodes[q].log, Exec(s, run[..i + 1]).nodes[p].log;
    assert a[..index][index - 1] == b[..index][index - 1];
  }

  // ------------------------------------------------------------------- repair

  /** A leader and one of its followers. */
  datatype Pair = Pair(leader: Node, follower: Node)

  /** The leader sends what it owes the follower, which answers, and the leader takes in the answer. */
  ghost predicate Round(lc: Config, fc: Config, x: Pair, y: Pair) {
    exists reply: Envelope ::
      && Handle(fc, x.follower, AppendTo(lc, x.leader, fc.id)) == Outcome(y.follower, {reply})
      && Handle(lc, x.leader, reply).node == y.leader
  }

  ghost predicate Rounds(lc: Config, fc: Config, x: Pair, y: Pair, k: nat)
    decreases k
  {
    if k == 0 then x == y else exists mid :: Round(lc, fc, x, mid) && Rounds(lc, fc, mid, y, k - 1)
  }

  /** What a run guarantees of a leader and a member that has not gone beyond its term. */
  ghost predicate Repairable(s: Setting, h: History, p: NodeId, q: NodeId, x: Pair) {
    var n, f := x.leader, x.follower;
    && p in s.members && q in s.members && p != q && 0 !in h.reigns
    && NodeShape(s, p, n) && NodeLog(h, n) && n.role == Leader
    && n.term in h.reigns && h.reigns[n.term].log == n.log && ReignLog(h, n.term, h.reigns[n.term])
    && NodeShape(s, q, f) && NodeLog(h, f) && f.term <= n.term
    && 0 < NextOf(n, q) <= |n.log| + 1
  }

  /** The follower holds all of the leader's log, has learnt its commit index, and the leader knows how far it holds it. */
  ghost predicate Repaired(s: Setting, p: NodeId, q: NodeId, x: Pair, y: Pair) {
    && y.leader.log == x.leader.log && y.leader.term == x.leader.term && y.leader.role == Leader
    && Holds(y.follower.log, x.leader.log, |x.leader.log|) && y.follower.term == x.leader.term
    && y.follower.commit == (if x.leader.commit > x.follower.commit then Min(x.leader.commit, |y.follower.log|) else x.follower.commit)
    && q in y.leader.match_ && y.leader.match_[q] >= |x.leader.log| && q in y.leader.next && y.leader.next[q] == y.leader.match_[q] + 1
    && NothingHeldBack(s.Of(p), y.leader)
  }

  lemma Owed(s: Setting, h: History, p: NodeId, q: NodeId, x: Pair)
    requires Repairable(s, h, p, q, x)
    ensures
      var e := AppendTo(s.Of(p), x.leader, q);
      && e.src == p && e.dst == q && e.msg.Append? && e.msg.term == x.leader.term && e.msg.leader == p
      && e.msg.prevIndex == NextOf(x.leader, q) - 1 && e.msg.commit == x.leader.commit
      && Carries(x.leader.log, e.msg) && e.msg.prevIndex + |e.msg.entries| == |x.leader.log|
  {
    LogIndices(x.leader);
    var prev := NextOf(x.leader, q) - 1;
    assert x.leader.log[prev..] == x.leader.log[prev..prev + |x.leader.log[prev..]|];
  }

  /** What a refusal says, and what the leader makes of it. */
  lemma Refusal(lc: Config, fc: Config, n: Node, f: Node, src: NodeId, m: Message)
    requires m.Append? && m.term == n.term && f.term <= n.term && !Accepts(f, m) && n.role == Leader
    ensures m.prevIndex > 0
    ensures
      var f1, hint := Recognise(f, m.term, m.leader), Conflict(Recognise(f, m.term, m.leader), m.prevIndex);
      var reply := Envelope(fc.id, src, AppendReply(m.term, false, fc.id, 0, hint));
      && 0 < hint <= m.prevIndex
      && Handle(fc, f, Envelope(src, fc.id, m)) == Outcome(f1, {reply})
      && Handle(lc, n, reply).node == n.(next := n.next[fc.id := hint])
  {
    ConflictIs(Recognise(f, m.term, m.leader), m.prevIndex);
  }

  lemma StillRepairable(s: Setting, h: History, p: NodeId, q: NodeId, x: Pair, m: Message, hint: nat)
    requires Repairable(s, h, p, q, x) && m.Append? && m.term == x.leader.term && 0 < hint <= |x.leader.log| + 1
    ensures Repairable(s, h, p, q, Pair(x.leader.(next := x.leader.next[q := hint]), Recognise(x.follower, m.term, m.leader)))
  {}

  /** A refusal moves the leader's next index for the follower down. */
  lemma RefusedRound(s: Setting, h: History, p: NodeId, q: NodeId, x: Pair)
    requires Repairable(s, h, p, q, x) && !Accepts(x.follower, AppendTo(s.Of(p), x.leader, q).msg)
    ensures exists y: Pair ::
      && Round(s.Of(p), s.Of(q), x, y) && Repairable(s, h, p, q, y)
      && NextOf(y.leader, q) < NextOf(x.leader, q)
      && y.leader == x.leader.(next := y.leader.next)
      && y.follower.commit == x.follower.commit
  {
    Owed(s, h, p, q, x);
    var e := AppendTo(s.Of(p), x.leader, q);
    var f := Recognise(x.follower, e.msg.term, e.msg.leader);
    var hint := Conflict(f, e.msg.prevIndex);
    Refusal(s.Of(p), s.Of(q), x.leader, x.follower, p, e.msg);
    var y := Pair(x.leader.(next := x.leader.next[q := hint]), f);
    StillRepairable(s, h, p, q, x, e.msg, hint);
    RoundBy(s.Of(p), s.Of(q), x, y, Envelope(q, p, AppendReply(e.msg.term, false, q, 0, hint)));
  }

  lemma RoundBy(lc: Config, fc: Config, x: Pair, y: Pair, reply: Envelope)
    requires Handle(fc, x.follower, AppendTo(lc, x.leader, fc.id)) == Outcome(y.follower, {reply})
    requires Handle(lc, x.leader, reply).node == y.leader
    ensures Round(lc, fc, x, y)
  {}

  /** An acceptance ends the repair. */
  lemma AcceptedRound(s: Setting, h: History, p: NodeId, q: NodeId, x: Pair)
    requires Repairable(s, h, p, q, x) && Accepts(x.follower, AppendTo(s.Of(p), x.leader, q).msg)
    ensures exists y: Pair :: Round(s.Of(p), s.Of(q), x, y) && Repaired(s, p, q, x, y)
  {
    Owed(s, h, p, q, x);
    var e := AppendTo(s.Of(p), x.leader, q);
    var f := OnAppend(s.Of(q), x.follower, p, e.msg).node;
    AppendOutcome(s, h, q, x.follower, p, e.msg);
    var reply := Envelope(q, p, AppendReply(e.msg.term, true, q, Acknowledged(s.guards, f, e.msg), 0));
    var y := Pair(OnAppendReply(s.Of(p), x.leader, reply.msg).node, f);
    ReplyAdvances(s.Of(p), x.leader, reply.msg);
    AdvanceFrame(s.Of(p), Progress(x.leader, q, reply.msg.matchIndex));
    AcceptedCommit(s, h, q, x.follower, p, e.msg);
    RoundBy(s.Of(p), s.Of(q), x, y, reply);
  }

  lemma AcceptedCommit(s: Setting, h: History, q: NodeId, n: Node, src: NodeId, m: Message)
    requires NodeShape(s, q, n) && NodeLog(h, n) && 0 !in h.reigns && m.Append? && Accepts(n, m)
    requires m.term in h.reigns && ReignLog(h, m.term, h.reigns[m.term]) && Carries(h.reigns[m.term].log, m)
    ensures
      var f := OnAppend(s.Of(q), n, src, m).node;
      && f.commit == (if m.commit > n.commit then Min(m.commit, |f.log|) else n.commit)
      && m.prevIndex + |m.entries| <= Acknowledged(s.guards, f, m)
  {
    var n1 := Recognise(n, m.term, m.leader);
    var n2 := n1.(log := MergeEntries(0, n1.log, m.entries));
    AppendOutcome(s, h, q, n, src, m);
    MergedIndices(h, n, m);
    LogIndices(n2);
    ApplyCommittedFrame(n2.(commit := Min(m.commit, n2.LastIndex())));
  }

  lemma MergedIndices(h: History, n: Node, m: Message)
    requires n.snapIndex == 0 && n.snapTerm == 0 && NodeLog(h, n) && 0 !in h.reigns && m.Append? && Accepts(n, m)
    requires m.term in h.reigns && ReignLog(h, m.term, h.reigns[m.term]) && Carries(h.reigns[m.term].log, m)
    ensures Contiguous(MergeEntries(0, n.log, m.entries))
  {
    AppendResult(h, h.reigns[m.term].log, Recognise(n, m.term, m.leader), m);
  }

  /**
   * Repair ends: however the follower's log differs from the leader's, at most as many rounds as the
   * leader's next index for it make the follower hold all of the leader's log.
   */
  lemma {:induction false} RepairEnds(s: Setting, h: History, p: NodeId, q: NodeId, x: Pair)
    requires Repairable(s, h, p, q, x)
    ensures exists y: Pair, k: nat ::
      k <= NextOf(x.leader, q) && Rounds(s.Of(p), s.Of(q), x, y, k) && Repaired(s, p, q, x, y)
    decreases NextOf(x.leader, q)
  {
    if Accepts(x.follower, AppendTo(s.Of(p), x.leader, q).msg) {
      AcceptedRound(s, h, p, q, x);
      var y: Pair :| Round(s.Of(p), s.Of(q), x, y) && Repaired(s, p, q, x, y);
      assert Rounds(s.Of(p), s.Of(q), y, y, 0);
      assert Rounds(s.Of(p), s.Of(q), x, y, 1);
    } else {
      RefusedRound(s, h, p, q, x);
      var z: Pair :|
        && Round(s.Of(p), s.Of(q), x, z) && Repairable(s, h, p, q, z) && NextOf(z.leader, q) < NextOf(x.leader, q)
        && z.leader == x.leader.(next := z.leader.next) && z.follower.commit == x.follower.commit;
      RepairEnds(s, h, p, q, z);
      var y: Pair, k: nat :| k <= NextOf(z.leader, q) && Rounds(s.Of(p), s.Of(q), z, y, k) && Repaired(s, p, q, z, y);
      assert Rounds(s.Of(p), s.Of(q), x, y, k + 1);
      assert Repaired(s, p, q, x, y);
    }
  }

  /** So it does from every moment of every disciplined run, for every leader and every member not beyond its term. */
  lemma RepairAlways(s: Setting, run: seq<Action>, p: NodeId, q: NodeId)
    requires Disciplined(s, run) && p in s.members && q in s.members && p != q
    requires p in Exec(s, run).nodes && q in Exec(s, run).nodes
    requires Exec(s, run).nodes[p].role == Leader && Exec(s, run).nodes[q].term <= Exec(s, run).nodes[p].term
    ensures
      var c := Exec(s, run);
      var x := Pair(c.nodes[p], c.nodes[q]);
      exists y: Pair, k: nat ::
        k <= NextOf(x.leader, q) && Rounds(s.Of(p), s.Of(q), x, y, k) && Repaired(s, p, q, x, y)
  {
    var c := Exec(s, run);
    RunRepairable(s, run, p, q);
    RepairEnds(s, Chronicle(s, run), p, q, Pair(c.nodes[p], c.nodes[q]));
  }

  lemma RunRepairable(s: Setting, run: seq<Action>, p: NodeId, q: NodeId)
    requires Disciplined(s, run) && p in s.members && q in s.members && p != q
    requires p in Exec(s, run).nodes && q in Exec(s, run).nodes
    requires Exec(s, run).nodes[p].role == Leader && Exec(s, run).nodes[q].term <= Exec(s, run).nodes[p].term
    ensures Repairable(s, Chronicle(s, run), p, q, Pair(Exec(s, run).nodes[p], Exec(s, run).nodes[q]))
  {
    var c, h := Exec(s, run), Chronicle(s, run);
    InvariantAlways(s, run);
    InvariantRepairable(s, c, h, p, q);
  }

  lemma InvariantRepairable(s: Setting, c: Cluster, h: History, p: NodeId, q: NodeId)
    requires Invariant(s, c, h) && p in s.members && q in s.members && p != q && c.nodes.Keys == s.members
    requires c.nodes[p].role == Leader && c.nodes[q].term <= c.nodes[p].term
    ensures Repairable(s, h, p, q, Pair(c.nodes[p], c.nodes[q]))
  {
    Readiness(s, c, h, p);
    Readiness(s, c, h, q);
    LogIndices(c.nodes[p]);
    ReignsPositive(s, c, h);
  }

  lemma ReignsPositive(s: Setting, c: Cluster, h: History)
    requires Logs(s, c, h)
    ensures 0 !in h.reigns
  {
    forall t <- h.reigns ensures t > 0 {
      assert ReignLog(h, t, h.reigns[t]);
    }
  }
}
