/**
 * The second deviation, first half: a leader that believes a success reply to an earlier term of
 * its own counts a replica that has since been overtaken, commits without a quorum, and loses the
 * entry.
 */
module RaftStaleReplies {
  import opened Options
  import opened Replication
  import opened RaftModel
  import opened RaftCluster
  import opened RaftTheorems
  import opened RaftDeviations
  import opened RaftQuint

  const A1 := Entry(1, 1, X)
  const A2 := Entry(1, 2, X)
  const B1 := Entry(2, 1, Y)
  const C2 := Entry(3, 2, Z)
  const W2 := Entry(4, 2, X)

  const STALE := Envelope(2, 1, AppendReply(1, true, 2, 2, 0))

  lemma Merges()
    ensures MergeEntries(0, [], [A1, A2]) == [A1, A2]
    ensures MergeEntries(0, [A1, A2], [B1]) == [B1] && MergeEntries(0, [], [B1]) == [B1]
    ensures MergeEntries(0, [B1], [C2]) == [B1, C2]
    ensures MergeEntries(0, [B1, C2], [W2]) == [B1, W2] && MergeEntries(0, [], [B1, W2]) == [B1, W2]
  {
    assert [A1, A2][1..] == [A2] && [A2][1..] == [] && [B1, W2][1..] == [W2] && [W2][1..] == [];
    assert [] + [A1] == [A1] && [A1] + [A2] == [A1, A2];
    assert MergeEntries(0, [], [A1, A2]) == MergeEntries(0, [A1], [A2]) == MergeEntries(0, [A1, A2], []);
    assert [B1][1..] == [] && [] + [B1] == [B1] && [A1, A2][..0] + [B1] == [B1];
    assert [C2][1..] == [] && [B1] + [C2] == [B1, C2];
    assert [B1, C2][..1] + [W2] == [B1, W2] && [B1] + [W2] == [B1, W2];
    assert MergeEntries(0, [], [B1, W2]) == MergeEntries(0, [B1], [W2]) == MergeEntries(0, [B1, W2], []);
  }

  /** Replica 1 leads term 1. */
  lemma Stale0(g: Guards) returns (r: seq<Action>, c: Cluster)
    ensures Calm(g, r, c)
    ensures Crowned5(c.nodes[1], 1, 1, [])
    ensures Looks(c.nodes[2], Follower, 0, []) && Looks(c.nodes[5], Follower, 0, [])
    ensures Looks(c.nodes[3], Follower, 1, []) && Looks(c.nodes[4], Follower, 1, [])
  {
    r, c := Started(g);
    r, c := Reign5(g, r, c, 1, 3, 4);
  }

  /** It logs X twice. */
  lemma Stale1(g: Guards) returns (r: seq<Action>, c: Cluster)
    ensures Calm(g, r, c)
    ensures Looks(c.nodes[1], Leader, 1, [A1, A2]) && 2 in c.nodes[1].next && c.nodes[1].next[2] == 1
    ensures Looks(c.nodes[2], Follower, 0, []) && Looks(c.nodes[5], Follower, 0, [])
    ensures Looks(c.nodes[3], Follower, 1, []) && Looks(c.nodes[4], Follower, 1, [])
  {
    r, c := Stale0(g);
    assert [] + [A1] == [A1] && [A1] + [A2] == [A1, A2];
    r, c := Log5(g, r, c, 1, 2, X, [A1]);
    r, c := Log5(g, r, c, 1, 2, X, [A1, A2]);
  }

  /** It sends both entries to replica 2. */
  lemma Stale1b(g: Guards) returns (r: seq<Action>, c: Cluster)
    ensures Calm(g, r, c) && Envelope(1, 2, Append(1, 1, 0, 0, [A1, A2], 0)) in c.net
    ensures Looks(c.nodes[1], Leader, 1, [A1, A2])
    ensures Looks(c.nodes[2], Follower, 0, []) && Looks(c.nodes[5], Follower, 0, [])
    ensures Looks(c.nodes[3], Follower, 1, []) && Looks(c.nodes[4], Follower, 1, [])
  {
    r, c := Stale1(g);
    r, c := Offer5(g, r, c, 1, 2);
  }

  /** Replica 2 acknowledges them; the reply is delayed. */
  lemma Stale2(g: Guards) returns (r: seq<Action>, c: Cluster)
    ensures Calm(g, r, c) && STALE in c.net
    ensures Looks(c.nodes[1], Leader, 1, [A1, A2]) && Looks(c.nodes[2], Follower, 1, [A1, A2])
    ensures Looks(c.nodes[3], Follower, 1, []) && Looks(c.nodes[4], Follower, 1, []) && Looks(c.nodes[5], Follower, 0, [])
  {
    r, c := Stale1b(g);
    Merges();
    r, c := Store5(g, r, c, Envelope(1, 2, Append(1, 1, 0, 0, [A1, A2], 0)), [A1, A2]);
  }

  /** Replica 3 leads term 2 with an empty log and logs Y. */
  lemma Stale3(g: Guards) returns (r: seq<Action>, c: Cluster)
    ensures Calm(g, r, c) && STALE in c.net
    ensures Looks(c.nodes[1], Leader, 1, [A1, A2]) && Looks(c.nodes[2], Follower, 1, [A1, A2])
    ensures Looks(c.nodes[3], Leader, 2, [B1]) && Looks(c.nodes[4], Follower, 2, []) && Looks(c.nodes[5], Follower, 2, [])
    ensures Envelope(3, 1, Append(2, 3, 0, 0, [B1], 0)) in c.net && Envelope(3, 4, Append(2, 3, 0, 0, [B1], 0)) in c.net
  {
    r, c := Stale2(g);
    r, c := Reign5(g, r, c, 3, 4, 5);
    assert [] + [B1] == [B1];
    r, c := Debut5(g, r, c, 3, 1, Y, B1);
  }

  /** Y replaces the entries of term 1 on replica 1 and reaches replica 4. */
  lemma Stale4(g: Guards) returns (r: seq<Action>, c: Cluster)
    ensures Calm(g, r, c) && STALE in c.net
    ensures Looks(c.nodes[1], Follower, 2, [B1]) && Looks(c.nodes[2], Follower, 1, [A1, A2])
    ensures Looks(c.nodes[3], Leader, 2, [B1]) && Looks(c.nodes[4], Follower, 2, [B1]) && Looks(c.nodes[5], Follower, 2, [])
  {
    r, c := Stale3(g);
    Merges();
    r, c := Store5(g, r, c, Envelope(3, 1, Append(2, 3, 0, 0, [B1], 0)), [B1]);
    r, c := Store5(g, r, c, Envelope(3, 4, Append(2, 3, 0, 0, [B1], 0)), [B1]);
  }

  /** Replica 1 leads term 3 and logs Z. */
  lemma Stale5(g: Guards) returns (r: seq<Action>, c: Cluster)
    ensures Calm(g, r, c) && STALE in c.net
    ensures Looks(c.nodes[1], Leader, 3, [B1, C2]) && c.nodes[1].match_ == Zeros(1)
    ensures Looks(c.nodes[2], Follower, 1, [A1, A2]) && Looks(c.nodes[3], Follower, 3, [B1])
    ensures Looks(c.nodes[4], Follower, 3, [B1]) && Looks(c.nodes[5], Follower, 2, [])
    ensures Envelope(1, 4, Append(3, 1, 1, 2, [C2], 0)) in c.net
  {
    r, c := Stale4(g);
    r, c := Reign5(g, r, c, 1, 4, 3);
    assert [B1] + [C2] == [B1, C2];
    r, c := Debut5(g, r, c, 1, 2, Z, C2);
  }

  /** Replica 4 stores Z and says so; that is one replica short of a quorum. */
  lemma Stale6(g: Guards) returns (r: seq<Action>, c: Cluster)
    ensures Calm(g, r, c) && STALE in c.net
    ensures Looks(c.nodes[1], Leader, 3, [B1, C2]) && c.nodes[1].match_ == Zeros(1)[4 := 2]
    ensures Looks(c.nodes[2], Follower, 1, [A1, A2]) && Looks(c.nodes[3], Follower, 3, [B1])
    ensures Looks(c.nodes[4], Follower, 3, [B1, C2]) && Looks(c.nodes[5], Follower, 2, [])
  {
    r, c := Stale5(g);
    Merges();
    r, c := Store5(g, r, c, Envelope(1, 4, Append(3, 1, 1, 2, [C2], 0)), [B1, C2]);
    r, c := Hear5(g, r, c, 1, 4, B1, C2);
  }

  /** The stale reply makes replica 1 commit Z, which only replicas 1 and 4 hold. */
  lemma Stale7(g: Guards) returns (r: seq<Action>, q: seq<Action>, c: Cluster)
    requires !g.dropStale
    ensures Disciplined(Quint(g), r) && q == r + [Deliver(STALE)] && c == Exec(Quint(g), q) && c.nodes.Keys == FIVE
    ensures c.nodes[1].term == 3 && c.nodes[1].log == [B1, C2] && c.nodes[1].commit == 2 && c.nodes[1].applied == [Y, Z]
    ensures Looks(c.nodes[2], Follower, 1, [A1, A2]) && Looks(c.nodes[3], Follower, 3, [B1])
    ensures Looks(c.nodes[4], Follower, 3, [B1, C2]) && Looks(c.nodes[5], Follower, 2, [])
  {
    r, c := Stale6(g);
    q, c := Decide5(g, r, c, 1, 4, STALE, B1, C2);
  }

  /** Replica 3 leads term 4 without Z. */
  lemma Stale8(g: Guards) returns (r: seq<Action>, q: seq<Action>, c: Cluster)
    requires !g.dropStale
    ensures Disciplined(Quint(g), r) && r + [Deliver(STALE)] <= q && c == Exec(Quint(g), q) && c.nodes.Keys == FIVE
    ensures c.nodes[1].term == 3 && c.nodes[1].log == [B1, C2] && c.nodes[1].commit == 2 && c.nodes[1].applied == [Y, Z]
    ensures Crowned5(c.nodes[3], 3, 4, [B1])
    ensures Looks(c.nodes[4], Follower, 3, [B1, C2]) && Looks(c.nodes[5], Follower, 4, [])
  {
    r, q, c := Stale7(g);
    NewLeader(g, c.nodes[3], 3, 5, 2);
    q, c := Elect5(g, q, c, 3, 5, 2);
    assert 1 in FIVE - {3, 5, 2} && 4 in FIVE - {3, 5, 2};
  }

  /**
   * Leader completeness fails without the second guard: after a run with no careless step but one
   * stale success, replica 1 has committed Z in term 3, and replica 3 leads term 4 without it.
   */
  lemma StaleReplyLosesCommit(g: Guards) returns (r: seq<Action>, q: seq<Action>)
    requires !g.dropStale
    ensures Disciplined(Quint(g), r) && r + [Deliver(STALE)] <= q
    ensures
      var n, m := At(Quint(g), q, |q|, 1), At(Quint(g), q, |q|, 3);
      n.term == 3 && n.applied == [Y, Z] && m.role == Leader && m.term == 4 && !(Prefix(n) <= m.log)
  {
    var c;
    r, q, c := Stale8(g);
    assert q[..|q|] == q;
    assert c.nodes[1].log[..2] == [B1, C2];
  }

  /** Replica 3 logs X over Z. */
  lemma Stale9(g: Guards) returns (r: seq<Action>, q: seq<Action>, c: Cluster)
    requires !g.dropStale
    ensures Disciplined(Quint(g), r) && r + [Deliver(STALE)] <= q && c == Exec(Quint(g), q) && c.nodes.Keys == FIVE
    ensures c.nodes[1].applied == [Y, Z]
    ensures Looks(c.nodes[3], Leader, 4, [B1, W2]) && c.nodes[3].match_ == Zeros(3)
    ensures Looks(c.nodes[4], Follower, 3, [B1, C2]) && Looks(c.nodes[5], Follower, 4, [])
    ensures Envelope(3, 4, Append(4, 3, 1, 2, [W2], 0)) in c.net && Envelope(3, 5, Append(4, 3, 1, 2, [W2], 0)) in c.net
  {
    r, q, c := Stale8(g);
    assert [B1] + [W2] == [B1, W2];
    q, c := Debut5(g, q, c, 3, 4, X, W2);
  }

  /** Replica 4 drops Z for it. */
  lemma Stale9b(g: Guards) returns (r: seq<Action>, q: seq<Action>, c: Cluster)
    requires !g.dropStale
    ensures Disciplined(Quint(g), r) && r + [Deliver(STALE)] <= q && c == Exec(Quint(g), q) && c.nodes.Keys == FIVE
    ensures c.nodes[1].applied == [Y, Z]
    ensures Looks(c.nodes[3], Leader, 4, [B1, W2]) && c.nodes[3].match_ == Zeros(3)
    ensures Looks(c.nodes[5], Follower, 4, []) && Envelope(3, 5, Append(4, 3, 1, 2, [W2], 0)) in c.net
    ensures Envelope(4, 3, AppendReply(4, true, 4, 2, 0)) in c.net
  {
    r, q, c := Stale9(g);
    Merges();
    q, c := Store(g, q, c, Envelope(3, 4, Append(4, 3, 1, 2, [W2], 0)), [B1, W2]);
  }

  /** Replica 3 hears of it. */
  lemma Stale10(g: Guards) returns (r: seq<Action>, q: seq<Action>, c: Cluster)
    requires !g.dropStale
    ensures Disciplined(Quint(g), r) && r + [Deliver(STALE)] <= q && c == Exec(Quint(g), q) && c.nodes.Keys == FIVE
    ensures c.nodes[1].applied == [Y, Z]
    ensures Looks(c.nodes[3], Leader, 4, [B1, W2]) && c.nodes[3].match_ == Zeros(3)[4 := 2]
    ensures Looks(c.nodes[5], Follower, 4, []) && Envelope(3, 5, Append(4, 3, 1, 2, [W2], 0)) in c.net
  {
    r, q, c := Stale9b(g);
    q, c := Hear5(g, q, c, 3, 4, B1, W2);
  }

  lemma Resend(g: Guards, n: Node)
    requires Looks(n, Leader, 4, [B1, W2])
    ensures
      var e := AppendReply(4, false, 5, 0, 1);
      OnAppendReply(Quint(g).Of(3), n, e) == Outcome(n.(next := n.next[5 := 1]), {Envelope(3, 5, Append(4, 3, 0, 0, [B1, W2], 0))})
  {
    Everything(g, n.(next := n.next[5 := 1]));
  }

  lemma Everything(g: Guards, n: Node)
    requires Looks(n, Leader, 4, [B1, W2]) && 5 in n.next && n.next[5] == 1
    ensures AppendTo(Quint(g).Of(3), n, 5) == Envelope(3, 5, Append(4, 3, 0, 0, [B1, W2], 0))
  {
    assert n.log[0..] == n.log;
  }

  /** Replica 5 asks for what it lacks. */
  lemma Stale10b(g: Guards) returns (r: seq<Action>, q: seq<Action>, c: Cluster)
    requires !g.dropStale
    ensures Disciplined(Quint(g), r) && r + [Deliver(STALE)] <= q && c == Exec(Quint(g), q) && c.nodes.Keys == FIVE
    ensures c.nodes[1].applied == [Y, Z]
    ensures Looks(c.nodes[3], Leader, 4, [B1, W2]) && c.nodes[3].match_ == Zeros(3)[4 := 2]
    ensures Looks(c.nodes[5], Follower, 4, []) && Envelope(5, 3, AppendReply(4, false, 5, 0, 1)) in c.net
  {
    r, q, c := Stale10(g);
    q, c := Refuse(g, q, c, Envelope(3, 5, Append(4, 3, 1, 2, [W2], 0)));
  }

  /** Replica 3 sends it everything. */
  lemma Stale11(g: Guards) returns (r: seq<Action>, q: seq<Action>, c: Cluster)
    requires !g.dropStale
    ensures Disciplined(Quint(g), r) && r + [Deliver(STALE)] <= q && c == Exec(Quint(g), q) && c.nodes.Keys == FIVE
    ensures c.nodes[1].applied == [Y, Z]
    ensures Looks(c.nodes[3], Leader, 4, [B1, W2]) && c.nodes[3].match_ == Zeros(3)[4 := 2]
    ensures Looks(c.nodes[5], Follower, 4, []) && Envelope(3, 5, Append(4, 3, 0, 0, [B1, W2], 0)) in c.net
  {
    r, q, c := Stale10b(g);
    Resend(g, c.nodes[3]);
    q, c := Get(Quint(g), q, c, Envelope(5, 3, AppendReply(4, false, 5, 0, 1)));
  }

  /** Replica 5 stores it. */
  lemma Stale12(g: Guards) returns (r: seq<Action>, q: seq<Action>, c: Cluster)
    requires !g.dropStale
    ensures Disciplined(Quint(g), r) && r + [Deliver(STALE)] <= q && c == Exec(Quint(g), q) && c.nodes.Keys == FIVE
    ensures c.nodes[1].applied == [Y, Z]
    ensures Looks(c.nodes[3], Leader, 4, [B1, W2]) && c.nodes[3].match_ == Zeros(3)[4 := 2]
    ensures Envelope(5, 3, AppendReply(4, true, 5, 2, 0)) in c.net
  {
    r, q, c := Stale11(g);
    Merges();
    q, c := Store(g, q, c, Envelope(3, 5, Append(4, 3, 0, 0, [B1, W2], 0)), [B1, W2]);
  }

  /** So does state machine safety: replica 1 has applied Y and Z, replica 3 commits and applies Y and X. */
  lemma StaleReplyUnsafe(g: Guards) returns (r: seq<Action>, q: seq<Action>)
    requires !g.dropStale
    ensures Disciplined(Quint(g), r) && r + [Deliver(STALE)] <= q
    ensures At(Quint(g), q, |q|, 1).applied == [Y, Z] && At(Quint(g), q, |q|, 3).applied == [Y, X]
  {
    var c;
    r, q, c := Stale12(g);
    q, c := Decide5(g, q, c, 3, 4, Envelope(5, 3, AppendReply(4, true, 5, 2, 0)), B1, W2);
    assert q[..|q|] == q;
  }
}
