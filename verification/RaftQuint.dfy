/** A cluster of five replicas and a few of its moves, for the runs that break safety. */
module RaftQuint {
  import opened Options
  import opened Replication
  import opened RaftModel
  import opened RaftCluster
  import opened RaftDeviations

  const FIVE: set<NodeId> := {1, 2, 3, 4, 5}

  function Quint(g: Guards): Setting { Setting(FIVE, g) }

  lemma QuintQuorum(g: Guards, p: NodeId)
    ensures Quint(g).Of(p).Quorum() == 3
  {
    assert FIVE == {1} + {2} + {3} + {4} + {5};
  }

  /** A replica that has committed and compacted nothing. */
  predicate Young(n: Node) {
    n.commit == 0 && n.lastApplied == 0 && n.applied == [] && n.snapIndex == 0 && n.snapTerm == 0
  }

  predicate Looks(n: Node, role: Role, term: nat, log: seq<Entry>) {
    Young(n) && n.role == role && n.term == term && n.log == log
  }

  /** A new leader: everybody is expected to hold its log, and to have acknowledged nothing. */
  predicate Crowned5(n: Node, p: NodeId, term: nat, log: seq<Entry>) {
    && Looks(n, Leader, term, log)
    && n.next.Keys == FIVE - {p} && (forall q <- n.next :: n.next[q] == |log| + 1)
    && n.match_ == Zeros(p)
  }

  function Zeros(p: NodeId): map<NodeId, nat> {
    map q | q in FIVE - {p} :: 0
  }

  /** Five replicas that have committed nothing, after a run without a careless step. */
  predicate Calm(g: Guards, r: seq<Action>, c: Cluster) {
    c == Exec(Quint(g), r) && c.nodes.Keys == FIVE && Disciplined(Quint(g), r) && forall p <- FIVE :: Young(c.nodes[p])
  }

  lemma Started(g: Guards) returns (r: seq<Action>, c: Cluster)
    ensures Calm(g, r, c) && forall p <- FIVE :: c.nodes[p] == FRESH && Looks(c.nodes[p], Follower, 0, [])
  {
    r, c := [], Boot(Quint(g));
  }

  // ---------------------------------------------------------------- elections

  lemma Stand5(s: Setting, run: seq<Action>, c: Cluster, p: NodeId, v: NodeId, w: NodeId) returns (next: seq<Action>, d: Cluster)
    requires c == Exec(s, run) && p in c.nodes && c.nodes[p].role != Leader && v in s.members && v != p && w in s.members && w != p
    ensures next == run + [Timeout(p)] && d == Exec(s, next) && c.net <= d.net
    ensures Disciplined(s, run) ==> Disciplined(s, next)
    ensures d.nodes == c.nodes[p := BecomeCandidate(s.Of(p), c.nodes[p])]
    ensures
      var n := c.nodes[p];
      var ask := RequestVote(n.term + 1, p, n.LastIndex(), n.LastTerm());
      Envelope(p, v, ask) in d.net && Envelope(p, w, ask) in d.net
  {
    next, d := Stand(s, run, c, p, v);
    assert w in s.Of(p).Peers();
  }

  /** Replica `p` as the leader of its next term, elected by `v` and `w`. */
  function Elected5(g: Guards, n: Node, p: NodeId, v: NodeId, w: NodeId): Node {
    var cfg := Quint(g).Of(p);
    BecomeLeader(cfg, BecomeCandidate(cfg, n).(votes := {p, v, w}))
  }

  lemma ThreeVotes(p: NodeId, v: NodeId, w: NodeId)
    requires p != v && p != w && v != w
    ensures {p} + {v} == {p, v} && {p, v} + {w} == {p, v, w} && |{p, v}| == 2 && |{p, v, w}| == 3
  {
    assert {p, v} == {p} + {v} && {p, v, w} == {p} + {v} + {w};
  }

  /** The first vote of another replica is not enough. */
  lemma CountOne(g: Guards, run: seq<Action>, c: Cluster, p: NodeId, v: NodeId, w: NodeId) returns (next: seq<Action>, d: Cluster)
    requires c == Exec(Quint(g), run) && p in c.nodes && p != v && p != w && v != w
    requires c.nodes[p].role == Candidate && c.nodes[p].votes == {p}
    requires Envelope(v, p, VoteReply(c.nodes[p].term, true, v)) in c.net
    ensures d == Exec(Quint(g), next) && c.net <= d.net && run <= next
    ensures Disciplined(Quint(g), run) ==> Disciplined(Quint(g), next)
    ensures d.nodes == c.nodes[p := c.nodes[p].(votes := {p, v})]
  {
    QuintQuorum(g, p);
    ThreeVotes(p, v, w);
    next, d := Count(Quint(g), run, c, Envelope(v, p, VoteReply(c.nodes[p].term, true, v)));
  }

  lemma CountTwo(g: Guards, run: seq<Action>, c: Cluster, p: NodeId, v: NodeId, w: NodeId) returns (next: seq<Action>, d: Cluster)
    requires c == Exec(Quint(g), run) && p in c.nodes && p != v && p != w && v != w
    requires c.nodes[p].role == Candidate && c.nodes[p].votes == {p}
    requires Envelope(v, p, VoteReply(c.nodes[p].term, true, v)) in c.net && Envelope(w, p, VoteReply(c.nodes[p].term, true, w)) in c.net
    ensures d == Exec(Quint(g), next) && c.net <= d.net && run <= next
    ensures Disciplined(Quint(g), run) ==> Disciplined(Quint(g), next)
    ensures d.nodes == c.nodes[p := BecomeLeader(Quint(g).Of(p), c.nodes[p].(votes := {p, v, w}))]
  {
    next, d := CountOne(g, run, c, p, v, w);
    QuintQuorum(g, p);
    ThreeVotes(p, v, w);
    next, d := Count(Quint(g), next, d, Envelope(w, p, VoteReply(c.nodes[p].term, true, w)));
  }

  /** An election of five actions: `p` stands, `v` and `w` vote for it, `p` counts the votes. */
  lemma Elect5(g: Guards, run: seq<Action>, c: Cluster, p: NodeId, v: NodeId, w: NodeId) returns (next: seq<Action>, d: Cluster)
    requires c == Exec(Quint(g), run) && c.nodes.Keys == FIVE
    requires p in FIVE && v in FIVE && w in FIVE && p != v && p != w && v != w
    requires
      var n := c.nodes[p];
      && n.role != Leader && c.nodes[v].term <= n.term && c.nodes[w].term <= n.term
      && UpToDate(n.LastIndex(), n.LastTerm(), c.nodes[v]) && UpToDate(n.LastIndex(), n.LastTerm(), c.nodes[w])
    ensures d == Exec(Quint(g), next) && d.nodes.Keys == FIVE && c.net <= d.net && run <= next
    ensures Disciplined(Quint(g), run) ==> Disciplined(Quint(g), next)
    ensures d.nodes[p] == Elected5(g, c.nodes[p], p, v, w)
    ensures d.nodes[v] == BecomeFollower(c.nodes[v], c.nodes[p].term + 1).(votedFor := Some(p))
    ensures d.nodes[w] == BecomeFollower(c.nodes[w], c.nodes[p].term + 1).(votedFor := Some(p))
    ensures forall q <- FIVE - {p, v, w} :: d.nodes[q] == c.nodes[q]
  {
    var s, n := Quint(g), c.nodes[p];
    var ask := RequestVote(n.term + 1, p, n.LastIndex(), n.LastTerm());
    next, d := Stand5(s, run, c, p, v, w);
    next, d := Favour(s, next, d, Envelope(p, v, ask));
    next, d := Favour(s, next, d, Envelope(p, w, ask));
    next, d := CountTwo(g, next, d, p, v, w);
  }

  lemma NewLeader(g: Guards, n: Node, p: NodeId, v: NodeId, w: NodeId)
    requires Young(n) && n.LastIndex() == |n.log|
    ensures Crowned5(Elected5(g, n, p, v, w), p, n.term + 1, n.log)
  {}

  /** The same, of replicas that have committed nothing. */
  lemma Reign5(g: Guards, run: seq<Action>, c: Cluster, p: NodeId, v: NodeId, w: NodeId) returns (next: seq<Action>, d: Cluster)
    requires Calm(g, run, c) && p in FIVE && v in FIVE && w in FIVE && p != v && p != w && v != w
    requires
      var n := c.nodes[p];
      && n.LastIndex() == |n.log|
      && n.role != Leader && c.nodes[v].term <= n.term && c.nodes[w].term <= n.term
      && UpToDate(n.LastIndex(), n.LastTerm(), c.nodes[v]) && UpToDate(n.LastIndex(), n.LastTerm(), c.nodes[w])
    ensures Calm(g, next, d) && c.net <= d.net && run <= next
    ensures Crowned5(d.nodes[p], p, c.nodes[p].term + 1, c.nodes[p].log)
    ensures Looks(d.nodes[v], Follower, c.nodes[p].term + 1, c.nodes[v].log)
    ensures Looks(d.nodes[w], Follower, c.nodes[p].term + 1, c.nodes[w].log)
    ensures forall q :: q in FIVE && q != p && q != v && q != w ==> d.nodes[q] == c.nodes[q]
  {
    next, d := Elect5(g, run, c, p, v, w);
    NewLeader(g, c.nodes[p], p, v, w);
    forall q | q in FIVE && q != p && q != v && q != w ensures d.nodes[q] == c.nodes[q] {
      assert q in FIVE - {p, v, w};
    }
  }

  // -------------------------------------------------------------- replication

  /** A leader's heartbeat puts an append to everybody on the wire. */
  lemma Send(s: Setting, run: seq<Action>, c: Cluster, p: NodeId) returns (next: seq<Action>, d: Cluster)
    requires c == Exec(s, run) && p in c.nodes && c.nodes[p].role == Leader
    ensures next == run + [Beat(p)] && d == Exec(s, next) && d.nodes == c.nodes && c.net <= d.net
    ensures Disciplined(s, run) ==> Disciplined(s, next)
    ensures forall q <- s.members - {p} :: AppendTo(s.Of(p), c.nodes[p], q) in d.net
  {
    next, d := run + [Beat(p)], Step(s, c, Beat(p));
    ExecMore(s, run, Beat(p));
    assert c.nodes[p := c.nodes[p]] == c.nodes;
  }

  /** A leader logs a command and sends it to everybody. */
  lemma Publish(g: Guards, run: seq<Action>, c: Cluster, p: NodeId, v: NodeId, command: Command) returns (next: seq<Action>, d: Cluster)
    requires c == Exec(Quint(g), run) && p in c.nodes && c.nodes[p].role == Leader && v in FIVE && v != p
    ensures d == Exec(Quint(g), next) && c.net <= d.net && run <= next
    ensures Disciplined(Quint(g), run) ==> Disciplined(Quint(g), next)
    ensures
      var n := c.nodes[p];
      d.nodes == c.nodes[p := n.(log := n.log + [Entry(n.term, n.LastIndex() + 1, command)])]
    ensures forall q <- FIVE - {p} :: AppendTo(Quint(g).Of(p), d.nodes[p], q) in d.net
  {
    next, d := Log(Quint(g), run, c, p, v, command);
    next, d := Send(Quint(g), next, d, p);
  }

  /** What a new leader sends for the one entry it has logged since its election. */
  lemma FirstEntry(g: Guards, p: NodeId, n: Node, q: NodeId, command: Command)
    requires Crowned5(n, p, n.term, n.log) && n.LastIndex() == |n.log| && q in FIVE && q != p
    ensures
      var e := Entry(n.term, |n.log| + 1, command);
      var m := n.(log := n.log + [e]);
      && Looks(m, Leader, n.term, n.log + [e])
      && AppendTo(Quint(g).Of(p), m, q) == Envelope(p, q, Append(n.term, p, |n.log|, n.LastTerm(), [e], 0))
  {
    assert q in n.next;
    var e := Entry(n.term, |n.log| + 1, command);
    assert (n.log + [e])[|n.log|..] == [e];
  }

  lemma FirstEntries(g: Guards, p: NodeId, n: Node, command: Command, net: set<Envelope>)
    requires Crowned5(n, p, n.term, n.log) && n.LastIndex() == |n.log| && p in FIVE
    requires
      var m := n.(log := n.log + [Entry(n.term, |n.log| + 1, command)]);
      forall q <- FIVE - {p} :: AppendTo(Quint(g).Of(p), m, q) in net
    ensures
      var e, m := Entry(n.term, |n.log| + 1, command), n.(log := n.log + [Entry(n.term, |n.log| + 1, command)]);
      && Looks(m, Leader, n.term, n.log + [e])
      && forall q :: q in FIVE && q != p ==> Envelope(p, q, Append(n.term, p, |n.log|, n.LastTerm(), [e], 0)) in net
  {
    var e := Entry(n.term, |n.log| + 1, command);
    forall q | q in FIVE && q != p ensures Envelope(p, q, Append(n.term, p, |n.log|, n.LastTerm(), [e], 0)) in net {
      FirstEntry(g, p, n, q, command);
      assert q in FIVE - {p};
    }
  }

  /** A new leader logs its first command and sends it to everybody. */
  lemma Debut5(g: Guards, run: seq<Action>, c: Cluster, p: NodeId, v: NodeId, command: Command, e: Entry)
      returns (next: seq<Action>, d: Cluster)
    requires c == Exec(Quint(g), run) && c.nodes.Keys == FIVE && p in FIVE && v in FIVE && v != p
    requires
      var n := c.nodes[p];
      Crowned5(n, p, n.term, n.log) && n.LastIndex() == |n.log| && e == Entry(n.term, |n.log| + 1, command)
    ensures d == Exec(Quint(g), next) && d.nodes.Keys == FIVE && c.net <= d.net && run <= next
    ensures Disciplined(Quint(g), run) ==> Disciplined(Quint(g), next)
    ensures Looks(d.nodes[p], Leader, e.term, c.nodes[p].log + [e]) && d.nodes[p].match_ == Zeros(p)
    ensures forall q :: q in FIVE && q != p ==> d.nodes[q] == c.nodes[q]
    ensures
      var n := c.nodes[p];
      forall q :: q in FIVE && q != p ==> Envelope(p, q, Append(n.term, p, |n.log|, n.LastTerm(), [e], 0)) in d.net
  {
    next, d := Publish(g, run, c, p, v, command);
    FirstEntries(g, p, c.nodes[p], command, d.net);
  }

  /** A leader logs a command and does not send it yet. */
  lemma Log5(g: Guards, run: seq<Action>, c: Cluster, p: NodeId, v: NodeId, command: Command, log: seq<Entry>)
      returns (next: seq<Action>, d: Cluster)
    requires c == Exec(Quint(g), run) && c.nodes.Keys == FIVE && p in FIVE && v in FIVE && v != p
    requires Looks(c.nodes[p], Leader, c.nodes[p].term, c.nodes[p].log) && c.nodes[p].LastIndex() == |c.nodes[p].log|
    requires log == c.nodes[p].log + [Entry(c.nodes[p].term, |c.nodes[p].log| + 1, command)]
    ensures d == Exec(Quint(g), next) && d.nodes.Keys == FIVE && c.net <= d.net && run <= next
    ensures Disciplined(Quint(g), run) ==> Disciplined(Quint(g), next)
    ensures Looks(d.nodes[p], Leader, c.nodes[p].term, log) && d.nodes[p].next == c.nodes[p].next
    ensures forall q :: q in FIVE && q != p ==> d.nodes[q] == c.nodes[q]
  {
    next, d := Log(Quint(g), run, c, p, v, command);
  }

  lemma WholeLog(g: Guards, p: NodeId, n: Node, q: NodeId)
    requires Young(n) && q in n.next && n.next[q] == 1
    ensures AppendTo(Quint(g).Of(p), n, q) == Envelope(p, q, Append(n.term, p, 0, 0, n.log, 0))
  {
    assert n.log[0..] == n.log;
  }

  /** A leader sends its whole log. */
  lemma Offer5(g: Guards, run: seq<Action>, c: Cluster, p: NodeId, q: NodeId) returns (next: seq<Action>, d: Cluster)
    requires c == Exec(Quint(g), run) && p in c.nodes && q in FIVE && q != p
    requires c.nodes[p].role == Leader && Young(c.nodes[p]) && q in c.nodes[p].next && c.nodes[p].next[q] == 1
    ensures d == Exec(Quint(g), next) && d.nodes == c.nodes && c.net <= d.net && run <= next
    ensures Disciplined(Quint(g), run) ==> Disciplined(Quint(g), next)
    ensures Envelope(p, q, Append(c.nodes[p].term, p, 0, 0, c.nodes[p].log, 0)) in d.net
  {
    next, d := Send(Quint(g), run, c, p);
    WholeLog(g, p, c.nodes[p], q);
    assert q in FIVE - {p};
  }

  /** A follower that has committed nothing takes over what is shipped to it. */
  lemma Take(g: Guards, p: NodeId, n: Node, e: Envelope, log: seq<Entry>)
    requires Young(n) && e.msg.Append? && e.msg.commit == 0 && (e.msg.term > n.term || (e.msg.term == n.term && n.role == Follower))
    requires e.msg.prevIndex > 0 ==> n.TermAt(e.msg.prevIndex) == e.msg.prevTerm
    requires MergeEntries(0, n.log, e.msg.entries) == log && log != [] && log[|log| - 1].index == e.msg.prevIndex + |e.msg.entries|
    ensures
      var o := OnAppend(Quint(g).Of(p), n, e.src, e.msg);
      && Looks(o.node, Follower, e.msg.term, log) && CarefulAck(g, o.node, e.msg)
      && o.out == {Envelope(p, e.src, AppendReply(e.msg.term, true, p, e.msg.prevIndex + |e.msg.entries|, 0))}
  {}

  lemma Store(g: Guards, run: seq<Action>, c: Cluster, e: Envelope, log: seq<Entry>) returns (next: seq<Action>, d: Cluster)
    requires c == Exec(Quint(g), run) && e in c.net && e.dst in c.nodes
    requires
      var n := c.nodes[e.dst];
      && Young(n) && e.msg.Append? && e.msg.commit == 0 && (e.msg.term > n.term || (e.msg.term == n.term && n.role == Follower))
      && (e.msg.prevIndex > 0 ==> n.TermAt(e.msg.prevIndex) == e.msg.prevTerm)
      && MergeEntries(0, n.log, e.msg.entries) == log && log != [] && log[|log| - 1].index == e.msg.prevIndex + |e.msg.entries|
    ensures d == Exec(Quint(g), next) && d.nodes.Keys == c.nodes.Keys && c.net <= d.net && run <= next
    ensures Disciplined(Quint(g), run) ==> Disciplined(Quint(g), next)
    ensures Looks(d.nodes[e.dst], Follower, e.msg.term, log)
    ensures forall q <- c.nodes :: q != e.dst ==> d.nodes[q] == c.nodes[q]
    ensures Envelope(e.dst, e.src, AppendReply(e.msg.term, true, e.dst, e.msg.prevIndex + |e.msg.entries|, 0)) in d.net
  {
    Take(g, e.dst, c.nodes[e.dst], e, log);
    next, d := Get(Quint(g), run, c, e);
  }

  lemma Store5(g: Guards, run: seq<Action>, c: Cluster, e: Envelope, log: seq<Entry>) returns (next: seq<Action>, d: Cluster)
    requires Calm(g, run, c) && e in c.net && e.dst in FIVE
    requires
      var n := c.nodes[e.dst];
      && e.msg.Append? && e.msg.commit == 0 && (e.msg.term > n.term || (e.msg.term == n.term && n.role == Follower))
      && (e.msg.prevIndex > 0 ==> n.TermAt(e.msg.prevIndex) == e.msg.prevTerm)
      && MergeEntries(0, n.log, e.msg.entries) == log && log != [] && log[|log| - 1].index == e.msg.prevIndex + |e.msg.entries|
    ensures Calm(g, next, d) && c.net <= d.net
    ensures Looks(d.nodes[e.dst], Follower, e.msg.term, log)
    ensures forall q :: q in FIVE && q != e.dst ==> d.nodes[q] == c.nodes[q]
    ensures Envelope(e.dst, e.src, AppendReply(e.msg.term, true, e.dst, e.msg.prevIndex + |e.msg.entries|, 0)) in d.net
  {
    next, d := Store(g, run, c, e, log);
  }

  /** A leader learns that a follower has its log of two entries, the second of its own term. */
  lemma Tally(g: Guards, p: NodeId, n: Node, e: Envelope, a: Entry, b: Entry, holders: set<NodeId>)
    requires Looks(n, Leader, b.term, [a, b]) && a.term != b.term && a.index == 1 && b.index == 2
    requires e.msg.AppendReply? && e.msg.success && e.msg.matchIndex == 2 && (e.msg.term == n.term || (e.msg.term < n.term && !g.dropStale))
    requires holders == Replicas(Progress(n, e.msg.follower, 2), 2)
    ensures
      var m := OnAppendReply(Quint(g).Of(p), n, e.msg).node;
      && m.role == Leader && m.term == n.term && m.log == n.log && m.snapIndex == 0 && m.snapTerm == 0
      && m.next == n.next[e.msg.follower := 3] && m.match_ == n.match_[e.msg.follower := 2]
      && (|holders| >= 2 ==> m.commit == 2 && m.lastApplied == 2 && m.applied == [a.command, b.command])
      && (|holders| < 2 ==> Young(m))
  {
    QuintQuorum(g, p);
    var n1 := Progress(n, e.msg.follower, 2);
    assert n1.LastIndex() == 2 && n1.TermAt(2) == n.term && n1.TermAt(1) == a.term;
    if |holders| >= 2 {
      assert QuorumIndex(Quint(g).Of(p), n1, 2) == 2;
      ApplyBoth(n1.(commit := 2), a, b);
    } else {
      assert QuorumIndex(Quint(g).Of(p), n1, 0) == 0;
      assert QuorumIndex(Quint(g).Of(p), n1, 1) == 0;
      assert QuorumIndex(Quint(g).Of(p), n1, 2) == 0;
    }
  }

  lemma OneHolder(n: Node, p: NodeId, f: NodeId)
    requires n.match_ == Zeros(p) && f in FIVE - {p}
    ensures Replicas(Progress(n, f, 2), 2) == {f} && |{f}| == 1
  {}

  lemma TwoHolders(n: Node, p: NodeId, e: NodeId, f: NodeId)
    requires n.match_ == Zeros(p)[e := 2] && e in FIVE - {p} && f in FIVE - {p} && e != f
    ensures Replicas(Progress(n, f, 2), 2) == {f, e} && |{f, e}| == 2
  {}

  /** The first follower to confirm both entries does not make a quorum. */
  lemma Hear5(g: Guards, run: seq<Action>, c: Cluster, p: NodeId, f: NodeId, a: Entry, b: Entry)
      returns (next: seq<Action>, d: Cluster)
    requires c == Exec(Quint(g), run) && c.nodes.Keys == FIVE && p in FIVE && f in FIVE && f != p
    requires Looks(c.nodes[p], Leader, b.term, [a, b]) && a.term != b.term && a.index == 1 && b.index == 2
    requires c.nodes[p].match_ == Zeros(p) && Envelope(f, p, AppendReply(b.term, true, f, 2, 0)) in c.net
    ensures d == Exec(Quint(g), next) && d.nodes.Keys == FIVE && c.net <= d.net && run <= next
    ensures Disciplined(Quint(g), run) ==> Disciplined(Quint(g), next)
    ensures Looks(d.nodes[p], Leader, b.term, [a, b]) && d.nodes[p].match_ == Zeros(p)[f := 2]
    ensures forall q :: q in FIVE && q != p ==> d.nodes[q] == c.nodes[q]
  {
    var ack := Envelope(f, p, AppendReply(b.term, true, f, 2, 0));
    OneHolder(c.nodes[p], p, f);
    Tally(g, p, c.nodes[p], ack, a, b, {f});
    next, d := Get(Quint(g), run, c, ack);
  }

  /** The second one does, or what passes for one. */
  lemma Decide5(g: Guards, run: seq<Action>, c: Cluster, p: NodeId, e: NodeId, ack: Envelope, a: Entry, b: Entry)
      returns (next: seq<Action>, d: Cluster)
    requires c == Exec(Quint(g), run) && c.nodes.Keys == FIVE && p in FIVE && e in FIVE && e != p
    requires Looks(c.nodes[p], Leader, b.term, [a, b]) && a.term != b.term && a.index == 1 && b.index == 2
    requires c.nodes[p].match_ == Zeros(p)[e := 2] && ack in c.net && ack.dst == p
    requires
      var m := ack.msg;
      && m.AppendReply? && m.success && m.matchIndex == 2 && m.follower in FIVE && m.follower != p && m.follower != e
      && (m.term == b.term || (m.term < b.term && !g.dropStale))
    ensures next == run + [Deliver(ack)] && d == Exec(Quint(g), next) && d.nodes.Keys == FIVE && c.net <= d.net
    ensures Disciplined(Quint(g), run) && ack.msg.term == b.term ==> Disciplined(Quint(g), next)
    ensures
      var n := d.nodes[p];
      && n.role == Leader && n.term == b.term && n.log == [a, b] && n.snapIndex == 0 && n.snapTerm == 0
      && n.commit == 2 && n.applied == [a.command, b.command]
    ensures forall q :: q in FIVE && q != p ==> d.nodes[q] == c.nodes[q]
  {
    TwoHolders(c.nodes[p], p, e, ack.msg.follower);
    Tally(g, p, c.nodes[p], ack, a, b, {ack.msg.follower, e});
    next, d := Get(Quint(g), run, c, ack);
  }

  lemma ApplyBoth(n: Node, a: Entry, b: Entry)
    requires n.log == [a, b] && n.snapIndex == 0 && n.commit == 2 && n.lastApplied == 0 && n.applied == []
    ensures
      var m := ApplyCommitted(n);
      && m == n.(lastApplied := 2, applied := [a.command, b.command], docs := m.docs)
  {
    assert n.EntryAt(1) == Some(a) && n.EntryAt(2) == Some(b);
    var k1 := n.(lastApplied := 1, applied := [] + [a.command], docs := Apply(n.docs, a.command));
    var k2 := k1.(lastApplied := 2, applied := [a.command] + [b.command], docs := Apply(k1.docs, b.command));
    assert ApplyFrom(n) == ApplyFrom(k1) == ApplyFrom(k2) == k2;
  }

  /** What a new leader that has logged nothing sends. */
  lemma NoEntry(g: Guards, p: NodeId, n: Node, q: NodeId)
    requires Crowned5(n, p, n.term, n.log) && n.LastIndex() == |n.log| && q in FIVE && q != p
    ensures AppendTo(Quint(g).Of(p), n, q) == Envelope(p, q, Append(n.term, p, |n.log|, n.LastTerm(), [], 0))
  {
    assert q in n.next;
    assert n.log[|n.log|..] == [];
  }

  /** A follower whose log is too short refuses, and asks for what follows its log. */
  lemma RefuseShort(g: Guards, p: NodeId, n: Node, e: Envelope)
    requires n.snapIndex == 0 && n.snapTerm == 0 && n.LastIndex() == |n.log|
    requires e.msg.Append? && e.msg.term >= n.term && e.msg.prevIndex > |n.log| && e.msg.prevTerm > 0
    ensures
      var o := OnAppend(Quint(g).Of(p), n, e.src, e.msg);
      && !Accepts(n, e.msg) && o.node == Recognise(n, e.msg.term, e.msg.leader)
      && o.out == {Envelope(p, e.src, AppendReply(e.msg.term, false, p, 0, |n.log| + 1))}
  {}

  /** An append that a replica's log is too short for is refused. */
  lemma Refuse(g: Guards, run: seq<Action>, c: Cluster, e: Envelope) returns (next: seq<Action>, d: Cluster)
    requires c == Exec(Quint(g), run) && e in c.net && e.dst in c.nodes
    requires
      var n := c.nodes[e.dst];
      && Young(n) && n.LastIndex() == |n.log|
      && e.msg.Append? && (e.msg.term > n.term || (e.msg.term == n.term && n.role == Follower))
      && e.msg.prevIndex > |n.log| && e.msg.prevTerm > 0
    ensures d == Exec(Quint(g), next) && d.nodes.Keys == c.nodes.Keys && c.net <= d.net && run <= next
    ensures Disciplined(Quint(g), run) ==> Disciplined(Quint(g), next)
    ensures Looks(d.nodes[e.dst], Follower, e.msg.term, c.nodes[e.dst].log)
    ensures forall q <- c.nodes :: q != e.dst ==> d.nodes[q] == c.nodes[q]
    ensures Envelope(e.dst, e.src, AppendReply(e.msg.term, false, e.dst, 0, |c.nodes[e.dst].log| + 1)) in d.net
  {
    RefuseShort(g, e.dst, c.nodes[e.dst], e);
    next, d := Get(Quint(g), run, c, e);
  }
}
