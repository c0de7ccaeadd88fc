/**
 * The second deviation, second half: a leader that follows the back-off hint of a refusal to an
 * earlier term of its own may look beyond the end of its log, which has been cut since.  It then
 * sends a blind append, which a follower with a short log accepts unchecked, and the follower
 * commits entries that the leader never had.
 */
module RaftStaleRefusals {
  import opened Options
  import opened Replication
  import opened RaftModel
  import opened RaftCluster
  import opened RaftTheorems
  import opened RaftDeviations
  import opened RaftQuint

  const A1 := Entry(1, 1, X)
  const A2 := Entry(1, 2, X)
  const A3 := Entry(1, 3, X)
  const A4 := Entry(1, 4, X)
  const P1 := Entry(4, 1, Y)
  const D2 := Entry(5, 2, X)
  const F2 := Entry(6, 2, Z)

  const THREE := [A1, A2, A3]
  const FOUR := [A1, A2, A3, A4]

  const REFUSAL := Envelope(2, 1, AppendReply(3, false, 2, 0, 4))
  const BLIND := Envelope(1, 2, Append(6, 1, 3, 0, [], 2))

  lemma Logs()
    ensures [] + [A1] == [A1] && [A1] + [A2] == [A1, A2] && [A1, A2] + [A3] == THREE && THREE + [A4] == FOUR
    ensures [] + [P1] == [P1] && [P1] + [D2] == [P1, D2] && [P1] + [F2] == [P1, F2] && THREE[0..] == THREE
  {}

  lemma Merges()
    ensures MergeEntries(0, [], THREE) == THREE
    ensures MergeEntries(0, THREE, [P1]) == [P1] && MergeEntries(0, FOUR, [P1]) == [P1] && MergeEntries(0, [], [P1]) == [P1]
    ensures MergeEntries(0, [P1], [F2]) == [P1, F2]
  {
    Logs();
    assert THREE[1..] == [A2, A3] && [A2, A3][1..] == [A3] && [A3][1..] == [];
    assert MergeEntries(0, [A1], [A2, A3]) == MergeEntries(0, [A1, A2], [A3]) == MergeEntries(0, THREE, []);
    assert MergeEntries(0, [], THREE) == MergeEntries(0, [A1], [A2, A3]);
    assert [P1][1..] == [] && [F2][1..] == [];
    assert THREE[..0] + [P1] == [P1] && FOUR[..0] + [P1] == [P1];
  }

  /** Replica 1 leads term 1. */
  lemma Refused0(g: Guards) returns (r: seq<Action>, c: Cluster)
    ensures Calm(g, r, c)
    ensures Crowned5(c.nodes[1], 1, 1, [])
    ensures Looks(c.nodes[2], Follower, 0, []) && Looks(c.nodes[5], Follower, 0, [])
    ensures Looks(c.nodes[3], Follower, 1, []) && Looks(c.nodes[4], Follower, 1, [])
  {
    r, c := Started(g);
    r, c := Reign5(g, r, c, 1, 3, 4);
  }

  /** It logs X twice. */
  lemma Refused0b(g: Guards) returns (r: seq<Action>, c: Cluster)
    ensures Calm(g, r, c)
    ensures Looks(c.nodes[1], Leader, 1, [A1, A2]) && 2 in c.nodes[1].next && c.nodes[1].next[2] == 1
    ensures Looks(c.nodes[2], Follower, 0, []) && Looks(c.nodes[5], Follower, 0, [])
    ensures Looks(c.nodes[3], Follower, 1, []) && Looks(c.nodes[4], Follower, 1, [])
  {
    r, c := Refused0(g);
    Logs();
    r, c := Log5(g, r, c, 1, 2, X, [A1]);
    r, c := Log5(g, r, c, 1, 2, X, [A1, A2]);
  }

  /** It logs X once more and sends the three entries to replica 2. */
  lemma Refused1(g: Guards) returns (r: seq<Action>, c: Cluster)
    ensures Calm(g, r, c) && Envelope(1, 2, Append(1, 1, 0, 0, THREE, 0)) in c.net
    ensures Looks(c.nodes[1], Leader, 1, THREE)
    ensures Looks(c.nodes[2], Follower, 0, []) && Looks(c.nodes[5], Follower, 0, [])
    ensures Looks(c.nodes[3], Follower, 1, []) && Looks(c.nodes[4], Follower, 1, [])
  {
    r, c := Refused0b(g);
    Logs();
    r, c := Log5(g, r, c, 1, 2, X, THREE);
    r, c := Offer5(g, r, c, 1, 2);
  }

  /** Replica 2 stores them; replica 1 logs X once more. */
  lemma Refused2(g: Guards) returns (r: seq<Action>, c: Cluster)
    ensures Calm(g, r, c)
    ensures Looks(c.nodes[1], Leader, 1, FOUR) && Looks(c.nodes[2], Follower, 1, THREE)
    ensures Looks(c.nodes[3], Follower, 1, []) && Looks(c.nodes[4], Follower, 1, []) && Looks(c.nodes[5], Follower, 0, [])
  {
    r, c := Refused1(g);
    Merges();
    Logs();
    r, c := Store5(g, r, c, Envelope(1, 2, Append(1, 1, 0, 0, THREE, 0)), THREE);
    r, c := Log5(g, r, c, 1, 2, X, FOUR);
  }

  /** Replica 2 stands in vain, which ends the reign of replica 1. */
  lemma Refused3(g: Guards) returns (r: seq<Action>, c: Cluster)
    ensures Calm(g, r, c)
    ensures Looks(c.nodes[1], Follower, 2, FOUR) && Looks(c.nodes[2], Candidate, 2, THREE)
    ensures Looks(c.nodes[3], Follower, 1, []) && Looks(c.nodes[4], Follower, 1, []) && Looks(c.nodes[5], Follower, 0, [])
  {
    r, c := Refused2(g);
    r, c := Stand5(Quint(g), r, c, 2, 1, 3);
    r, c := Get(Quint(g), r, c, Envelope(2, 1, RequestVote(2, 2, 3, 1)));
  }

  /** Replica 1 leads term 3 and expects replica 2 to have all four entries. */
  lemma Refused4(g: Guards) returns (r: seq<Action>, c: Cluster)
    ensures Calm(g, r, c) && Envelope(1, 2, Append(3, 1, 4, 1, [], 0)) in c.net
    ensures Looks(c.nodes[1], Leader, 3, FOUR) && Looks(c.nodes[2], Candidate, 2, THREE)
    ensures Looks(c.nodes[3], Follower, 3, []) && Looks(c.nodes[4], Follower, 3, []) && Looks(c.nodes[5], Follower, 0, [])
  {
    r, c := Refused3(g);
    r, c := Reign5(g, r, c, 1, 3, 4);
    NoEntry(g, 1, c.nodes[1], 2);
    r, c := Send(Quint(g), r, c, 1);
    assert 2 in Quint(g).members - {1};
  }

  /** Replica 2 refuses and asks for the fourth; the reply is delayed. */
  lemma Refused5(g: Guards) returns (r: seq<Action>, c: Cluster)
    ensures Calm(g, r, c) && REFUSAL in c.net
    ensures Looks(c.nodes[1], Leader, 3, FOUR) && Looks(c.nodes[2], Follower, 3, THREE)
    ensures Looks(c.nodes[3], Follower, 3, []) && Looks(c.nodes[4], Follower, 3, []) && Looks(c.nodes[5], Follower, 0, [])
  {
    r, c := Refused4(g);
    r, c := Refuse(g, r, c, Envelope(1, 2, Append(3, 1, 4, 1, [], 0)));
  }

  /** Replica 3 leads term 4 with an empty log and logs Y. */
  lemma Refused6(g: Guards) returns (r: seq<Action>, c: Cluster)
    ensures Calm(g, r, c) && REFUSAL in c.net
    ensures Looks(c.nodes[1], Leader, 3, FOUR) && Looks(c.nodes[2], Follower, 3, THREE)
    ensures Looks(c.nodes[3], Leader, 4, [P1]) && Looks(c.nodes[4], Follower, 4, []) && Looks(c.nodes[5], Follower, 4, [])
    ensures Envelope(3, 1, Append(4, 3, 0, 0, [P1], 0)) in c.net
    ensures Envelope(3, 2, Append(4, 3, 0, 0, [P1], 0)) in c.net && Envelope(3, 4, Append(4, 3, 0, 0, [P1], 0)) in c.net
  {
    r, c := Refused5(g);
    r, c := Reign5(g, r, c, 3, 4, 5);
    Logs();
    r, c := Debut5(g, r, c, 3, 1, Y, P1);
  }

  /** Y replaces what the replicas 1 and 2 have, and reaches replica 4. */
  lemma Refused7(g: Guards) returns (r: seq<Action>, c: Cluster)
    ensures Calm(g, r, c) && REFUSAL in c.net
    ensures Looks(c.nodes[1], Follower, 4, [P1]) && Looks(c.nodes[2], Follower, 4, [P1])
    ensures Looks(c.nodes[3], Leader, 4, [P1]) && Looks(c.nodes[4], Follower, 4, [P1]) && Looks(c.nodes[5], Follower, 4, [])
  {
    r, c := Refused6(g);
    Merges();
    r, c := Store5(g, r, c, Envelope(3, 1, Append(4, 3, 0, 0, [P1], 0)), [P1]);
    r, c := Store5(g, r, c, Envelope(3, 2, Append(4, 3, 0, 0, [P1], 0)), [P1]);
    r, c := Store5(g, r, c, Envelope(3, 4, Append(4, 3, 0, 0, [P1], 0)), [P1]);
  }

  /** Replica 2 leads term 5 and logs X, which nobody else ever gets. */
  lemma Refused7b(g: Guards) returns (r: seq<Action>, c: Cluster)
    ensures Calm(g, r, c) && REFUSAL in c.net
    ensures Looks(c.nodes[1], Follower, 4, [P1]) && Looks(c.nodes[2], Leader, 5, [P1, D2])
    ensures Looks(c.nodes[3], Leader, 4, [P1]) && Looks(c.nodes[4], Follower, 5, [P1]) && Looks(c.nodes[5], Follower, 5, [])
  {
    r, c := Refused7(g);
    r, c := Reign5(g, r, c, 2, 4, 5);
    Logs();
    r, c := Log5(g, r, c, 2, 1, X, [P1, D2]);
  }

  /** Replica 1 stands for the same term. */
  lemma Refused8(g: Guards) returns (r: seq<Action>, c: Cluster)
    ensures Calm(g, r, c) && REFUSAL in c.net
    ensures Looks(c.nodes[1], Candidate, 5, [P1]) && Looks(c.nodes[2], Leader, 5, [P1, D2])
    ensures Looks(c.nodes[3], Leader, 4, [P1]) && Looks(c.nodes[4], Follower, 5, [P1]) && Looks(c.nodes[5], Follower, 5, [])
  {
    r, c := Refused7b(g);
    r, c := Stand5(Quint(g), r, c, 1, 3, 4);
  }

  /** Replica 1 leads term 6 and logs Z. */
  lemma Refused9(g: Guards) returns (r: seq<Action>, c: Cluster)
    ensures Calm(g, r, c) && REFUSAL in c.net
    ensures Looks(c.nodes[1], Leader, 6, [P1, F2]) && c.nodes[1].match_ == Zeros(1)
    ensures Looks(c.nodes[2], Leader, 5, [P1, D2])
    ensures Looks(c.nodes[3], Follower, 6, [P1]) && Looks(c.nodes[4], Follower, 6, [P1])
    ensures Envelope(1, 3, Append(6, 1, 1, 4, [F2], 0)) in c.net && Envelope(1, 4, Append(6, 1, 1, 4, [F2], 0)) in c.net
  {
    r, c := Refused8(g);
    r, c := Reign5(g, r, c, 1, 3, 4);
    Logs();
    r, c := Debut5(g, r, c, 1, 2, Z, F2);
  }

  /** The replicas 3 and 4 store Z. */
  lemma Refused9b(g: Guards) returns (r: seq<Action>, c: Cluster)
    ensures Calm(g, r, c) && REFUSAL in c.net
    ensures Envelope(3, 1, AppendReply(6, true, 3, 2, 0)) in c.net && Envelope(4, 1, AppendReply(6, true, 4, 2, 0)) in c.net
    ensures Looks(c.nodes[1], Leader, 6, [P1, F2]) && c.nodes[1].match_ == Zeros(1)
    ensures Looks(c.nodes[2], Leader, 5, [P1, D2])
  {
    r, c := Refused9(g);
    Merges();
    r, c := Store5(g, r, c, Envelope(1, 3, Append(6, 1, 1, 4, [F2], 0)), [P1, F2]);
    r, c := Store5(g, r, c, Envelope(1, 4, Append(6, 1, 1, 4, [F2], 0)), [P1, F2]);
  }

  /** The first acknowledgement arrives. */
  lemma Refused10(g: Guards) returns (r: seq<Action>, c: Cluster)
    ensures Calm(g, r, c) && REFUSAL in c.net && Envelope(4, 1, AppendReply(6, true, 4, 2, 0)) in c.net
    ensures Looks(c.nodes[1], Leader, 6, [P1, F2]) && c.nodes[1].match_ == Zeros(1)[3 := 2]
    ensures Looks(c.nodes[2], Leader, 5, [P1, D2])
  {
    r, c := Refused9b(g);
    r, c := Hear5(g, r, c, 1, 3, P1, F2);
  }

  /** The second one commits Y and Z. */
  lemma Refused11(g: Guards) returns (r: seq<Action>, c: Cluster)
    ensures c == Exec(Quint(g), r) && c.nodes.Keys == FIVE && Disciplined(Quint(g), r) && REFUSAL in c.net
    ensures
      var n := c.nodes[1];
      && n.role == Leader && n.term == 6 && n.log == [P1, F2] && n.commit == 2 && n.applied == [Y, Z]
      && n.snapIndex == 0 && n.snapTerm == 0
    ensures Looks(c.nodes[2], Leader, 5, [P1, D2])
  {
    r, c := Refused10(g);
    r, c := Decide5(g, r, c, 1, 3, Envelope(4, 1, AppendReply(6, true, 4, 2, 0)), P1, F2);
  }

  lemma Misled(g: Guards, n: Node)
    requires n.role == Leader && n.term == 6 && n.log == [P1, F2] && n.commit == 2 && n.snapIndex == 0 && n.snapTerm == 0
    requires !g.dropStale
    ensures OnAppendReply(Quint(g).Of(1), n, REFUSAL.msg) == Outcome(n.(next := n.next[2 := 4]), {BLIND})
  {}

  lemma Blinded(g: Guards, n: Node)
    requires Looks(n, Leader, 5, [P1, D2])
    ensures OnAppend(Quint(g).Of(2), n, 1, BLIND.msg).node.applied == [Y, X]
  {
    var n1 := Recognise(n, 6, 1);
    assert MergeEntries(0, n1.log, []) == n1.log;
    ApplyBoth(n1.(commit := 2), P1, D2);
  }

  /**
   * State machine safety fails although no success reply is stale: after a run with no careless step
   * at all, one stale refusal and the blind append it provokes make replica 2 apply X at the
   * position where replica 1 has applied Z.
   */
  lemma StaleRefusalUnsafe(g: Guards) returns (r: seq<Action>, q: seq<Action>)
    requires !g.dropStale
    ensures Disciplined(Quint(g), r) && q == r + [Deliver(REFUSAL)] + [Deliver(BLIND)]
    ensures At(Quint(g), q, |q|, 1).applied == [Y, Z] && At(Quint(g), q, |q|, 2).applied == [Y, X]
  {
    var c;
    r, c := Refused11(g);
    Misled(g, c.nodes[1]);
    q, c := Get(Quint(g), r, c, REFUSAL);
    Blinded(g, c.nodes[2]);
    q, c := Get(Quint(g), q, c, BLIND);
    assert q[..|q|] == q;
  }
}
