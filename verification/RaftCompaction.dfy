/** Log compaction on one replica: the retained window, and why the cut is invisible. */
module RaftCompaction {
  import opened Options
  import opened Replication
  import opened RaftModel
  import opened RaftSafety

  /** The log holds exactly the indexes after the snapshot, and everything applied is covered. */
  predicate Window(n: Node) {
    && (forall i :: 0 <= i < |n.log| ==> n.log[i].index == n.snapIndex + 1 + i)
    && n.snapIndex <= n.lastApplied <= n.commit <= n.LastIndex()
  }

  lemma WindowIndexes(n: Node)
    requires Window(n)
    ensures n.LastIndex() == n.snapIndex + |n.log|
    ensures forall i: nat :: n.EntryAt(i).Some? <==> n.snapIndex < i <= n.LastIndex()
  {}

  /** The replica without its first `cut` log entries. */
  lemma CutWindow(n: Node, m: Node, cut: nat)
    requires Window(n) && 0 < cut <= |n.log| && n.snapIndex + cut <= n.lastApplied
    requires m.log == n.log[cut..] && m.snapIndex == n.snapIndex + cut && m.snapTerm == n.TermAt(m.snapIndex)
    requires m.lastApplied == n.lastApplied && m.commit == n.commit
    ensures Window(m) && m.LastIndex() == n.LastIndex() && m.LastTerm() == n.LastTerm()
  {
    assert forall i | 0 <= i < |m.log| :: m.log[i] == n.log[cut + i];
  }

  lemma CutTerms(n: Node, m: Node, cut: nat, i: nat)
    requires Window(n) && 0 < cut <= |n.log| && i >= m.snapIndex
    requires m.log == n.log[cut..] && m.snapIndex == n.snapIndex + cut && m.snapTerm == n.TermAt(m.snapIndex)
    ensures m.TermAt(i) == n.TermAt(i) && (i > m.snapIndex ==> m.EntryAt(i) == n.EntryAt(i))
  {}

  /** Within the window the cut never goes beyond the log. */
  lemma CompactCuts(n: Node, upTo: Option<nat>) returns (cut: nat)
    requires Window(n) && CompactTarget(n, upTo) > n.snapIndex
    ensures 0 < cut <= |n.log| && n.snapIndex + cut == CompactTarget(n, upTo) <= n.lastApplied
    ensures Compact(n, upTo) == n.(log := n.log[cut..], snapIndex := n.snapIndex + cut, snapTerm := n.TermAt(n.snapIndex + cut),
                                   snapData := Some(n.docs))
  {
    WindowIndexes(n);
    cut := CompactTarget(n, upTo) - n.snapIndex;
  }

  lemma CompactEnds(n: Node, upTo: Option<nat>)
    requires Window(n)
    ensures
      var m := Compact(n, upTo);
      && Window(m) && m.LastIndex() == n.LastIndex() && m.LastTerm() == n.LastTerm()
      && m.snapIndex == Max(n.snapIndex, CompactTarget(n, upTo)) && m.applied == n.applied && m.docs == n.docs
  {
    if CompactTarget(n, upTo) > n.snapIndex {
      var cut := CompactCuts(n, upTo);
      CutWindow(n, Compact(n, upTo), cut);
    }
  }

  lemma CompactTermAt(n: Node, upTo: Option<nat>, i: nat)
    requires Window(n) && i >= Compact(n, upTo).snapIndex
    ensures
      var m := Compact(n, upTo);
      m.TermAt(i) == n.TermAt(i) && (i > m.snapIndex ==> m.EntryAt(i) == n.EntryAt(i))
  {
    if CompactTarget(n, upTo) > n.snapIndex {
      var cut := CompactCuts(n, upTo);
      CutTerms(n, Compact(n, upTo), cut, i);
    }
  }

  /** Compaction changes neither the end of the log nor any term at or above the cut. */
  lemma CompactInvisible(n: Node, upTo: Option<nat>)
    requires Window(n)
    ensures
      var m := Compact(n, upTo);
      && Window(m) && m.LastIndex() == n.LastIndex() && m.LastTerm() == n.LastTerm()
      && m.snapIndex == Max(n.snapIndex, CompactTarget(n, upTo)) && m.applied == n.applied && m.docs == n.docs
    ensures upTo == None ==> Compact(n, upTo).snapIndex == n.lastApplied
    ensures upTo.Some? ==> Compact(n, upTo).snapIndex == Max(n.snapIndex, Min(upTo.value, n.lastApplied))
    ensures Compact(n, upTo).snapIndex > n.snapIndex ==> Compact(n, upTo).snapData == Some(n.docs)
    ensures forall i: nat | i >= Compact(n, upTo).snapIndex :: Compact(n, upTo).TermAt(i) == n.TermAt(i)
    ensures forall i: nat | i > Compact(n, upTo).snapIndex :: Compact(n, upTo).EntryAt(i) == n.EntryAt(i)
  {
    var m := Compact(n, upTo);
    CompactEnds(n, upTo);
    forall i: nat | i >= m.snapIndex ensures m.TermAt(i) == n.TermAt(i) && (i > m.snapIndex ==> m.EntryAt(i) == n.EntryAt(i)) {
      CompactTermAt(n, upTo, i);
    }
  }

  /** If the replica has applied more than it retains, compaction moves the end of its log. */
  lemma CompactVisibleBeyond(n: Node)
    requires (forall i :: 0 <= i < |n.log| ==> n.log[i].index == n.snapIndex + 1 + i) && n.snapIndex <= n.lastApplied
    ensures Compact(n, None).LastIndex() == n.LastIndex() <==> n.lastApplied <= n.LastIndex()
  {}

  lemma {:induction false} ApplyFromBounds(n: Node)
    requires Window(n)
    ensures Window(ApplyFrom(n)) && ApplyFrom(n) == n.(lastApplied := ApplyFrom(n).lastApplied, applied := ApplyFrom(n).applied, docs := ApplyFrom(n).docs)
    ensures ApplyFrom(n).lastApplied == n.commit
    decreases n.commit - n.lastApplied
  {
    WindowIndexes(n);
    if n.lastApplied < n.commit {
      var i := n.lastApplied + 1;
      var e := n.EntryAt(i).value;
      ApplyFromBounds(n.(lastApplied := i, applied := n.applied + [e.command], docs := Apply(n.docs, e.command)));
    }
  }

  lemma ProposeWindow(cfg: Config, n: Node, command: Command)
    requires Window(n)
    ensures Window(Propose(cfg, n, command).0)
  {
    WindowIndexes(n);
    var e := Entry(n.term, n.LastIndex() + 1, command);
    ApplyFromBounds(n.(log := n.log + [e], commit := e.index));
  }

  lemma {:induction false} BeyondSuffix(log: seq<Entry>, first: nat, index: nat)
    requires forall i :: 0 <= i < |log| ==> log[i].index == first + i
    requires first <= index + 1
    ensures Beyond(log, index) == if index + 1 - first <= |log| then log[index + 1 - first..] else []
    decreases |log|
  {
    if log != [] {
      var rest, cut := log[..|log| - 1], index + 1 - first;
      BeyondSuffix(rest, first, index);
      if cut <= |rest| {
        assert log[cut..] == rest[cut..] + [log[|log| - 1]];
      }
    }
  }

  lemma InstallKeeps(n: Node, m: Message)
    requires Window(n) && m.InstallSnapshot? && m.lastIndex > n.snapIndex && m.lastTerm > 0
    requires m.lastIndex <= n.commit ==> n.TermAt(m.lastIndex) == m.lastTerm
    ensures
      var o := Install(n, m);
      && Window(o) && o.snapIndex == m.lastIndex
      && o.log == if n.TermAt(m.lastIndex) == m.lastTerm then n.log[m.lastIndex - n.snapIndex..] else []
  {
    WindowIndexes(n);
    if n.TermAt(m.lastIndex) == m.lastTerm {
      var cut := m.lastIndex - n.snapIndex;
      assert cut <= |n.log|;
      BeyondSuffix(n.log, n.snapIndex + 1, m.lastIndex);
      SuffixWindow(n, Install(n, m), cut);
    }
  }

  /** What is left of the log after `cut` entries, with the commit and apply indexes not behind. */
  lemma SuffixWindow(n: Node, o: Node, cut: nat)
    requires Window(n) && 0 < cut <= |n.log| && o.log == n.log[cut..] && o.snapIndex == n.snapIndex + cut
    requires o.commit == Max(n.commit, o.snapIndex) && o.lastApplied == Max(n.lastApplied, o.snapIndex)
    ensures Window(o)
  {
    assert forall i | 0 <= i < |o.log| :: o.log[i] == n.log[cut + i];
  }

  /** Installing a snapshot keeps the window, unless it contradicts what the replica has committed. */
  lemma InstallWindow(cfg: Config, n: Node, src: NodeId, m: Message)
    requires Window(n) && m.InstallSnapshot? && m.lastTerm > 0
    requires n.snapIndex < m.lastIndex <= n.commit ==> n.TermAt(m.lastIndex) == m.lastTerm
    ensures Window(OnInstallSnapshot(cfg, n, src, m).node)
  {
    if m.term >= n.term {
      var n1 := Recognise(n, m.term, m.leader);
      assert Window(n1);
      if m.lastIndex > n1.snapIndex {
        assert n1.TermAt(m.lastIndex) == n.TermAt(m.lastIndex);
        InstallKeeps(n1, m);
      }
    }
  }

  /** Entries as a leader ships them: consecutive from the index after the checked prefix. */
  predicate WellFormed(m: Message)
    requires m.Append?
  {
    && (forall i :: 0 <= i < |m.entries| ==> m.entries[i].index == m.prevIndex + 1 + i)
    && (m.prevIndex > 0 && m.prevTerm == 0 ==> m.entries == [])
  }

  /** No entry conflicts with one the replica has committed. */
  predicate Respects(n: Node, entries: seq<Entry>) {
    forall e <- entries :: n.snapIndex < e.index <= n.commit ==> n.TermAt(e.index) == e.term
  }

  /** One shipped entry at most adds to the log or replaces what is beyond the commit index. */
  lemma MergeOneWindow(n: Node, e: Entry)
    requires Window(n) && 0 < e.index <= n.LastIndex() + 1
    requires n.snapIndex < e.index <= n.commit ==> n.TermAt(e.index) == e.term
    ensures
      var n1 := n.(log := MergeOne(n.snapIndex, n.log, e));
      && Window(n1) && n1.LastIndex() >= e.index
      && forall i: nat | n.snapIndex < i <= n.commit :: n1.TermAt(i) == n.TermAt(i)
  {
    WindowIndexes(n);
    if e.index > n.snapIndex {
      var pos := e.index - n.snapIndex - 1;
      var log := MergeOne(n.snapIndex, n.log, e);
      assert forall i | 0 <= i < pos :: log[i] == n.log[i];
    }
  }

  lemma {:induction false} MergeWindow(n: Node, entries: seq<Entry>, first: nat)
    requires Window(n) && 0 < first <= n.LastIndex() + 1 && Respects(n, entries)
    requires forall i :: 0 <= i < |entries| ==> entries[i].index == first + i
    ensures Window(n.(log := MergeEntries(n.snapIndex, n.log, entries)))
    decreases |entries|
  {
    if entries != [] {
      var e := entries[0];
      assert e in entries;
      MergeOneWindow(n, e);
      var n1 := n.(log := MergeOne(n.snapIndex, n.log, e));
      forall x <- entries[1..] | n1.snapIndex < x.index <= n1.commit ensures n1.TermAt(x.index) == x.term {
        assert x in entries;
      }
      MergeWindow(n1, entries[1..], first + 1);
    }
  }

  lemma AcceptedWindow(n: Node, m: Message)
    requires Window(n) && m.Append? && WellFormed(m) && Respects(n, m.entries) && PrefixMatches(n, m)
    ensures Window(n.(log := MergeEntries(n.snapIndex, n.log, m.entries)))
  {
    WindowIndexes(n);
    if m.entries != [] {
      MergeWindow(n, m.entries, m.prevIndex + 1);
    }
  }

  lemma LearnWindow(n: Node, commit: nat)
    requires Window(n)
    ensures Window(LearnCommit(n, commit))
  {
    if commit > n.commit {
      ApplyFromBounds(n.(commit := Min(commit, n.LastIndex())));
    }
  }

  lemma RecognisedWindow(n: Node, m: Message)
    requires Window(n) && m.Append? && Respects(n, m.entries)
    ensures Window(Recognise(n, m.term, m.leader)) && Respects(Recognise(n, m.term, m.leader), m.entries)
  {
    var n1 := Recognise(n, m.term, m.leader);
    forall e <- m.entries | n1.snapIndex < e.index <= n1.commit ensures n1.TermAt(e.index) == e.term {
      assert n1.TermAt(e.index) == n.TermAt(e.index);
    }
  }

  lemma AppendWindow(cfg: Config, n: Node, src: NodeId, m: Message)
    requires Window(n) && m.Append? && WellFormed(m) && Respects(n, m.entries)
    ensures Window(OnAppend(cfg, n, src, m).node)
  {
    if m.term >= n.term {
      RecognisedWindow(n, m);
      var n1 := Recognise(n, m.term, m.leader);
      if PrefixMatches(n1, m) {
        AcceptedWindow(n1, m);
        LearnWindow(n1.(log := MergeEntries(n1.snapIndex, n1.log, m.entries)), m.commit);
      }
    }
  }

  lemma ReplayFirst(docs: Documents, log: seq<Entry>, from: nat, to: nat)
    requires from < to <= |log|
    ensures Replay(docs, Commands(log[from..to])) == Replay(Apply(docs, log[from].command), Commands(log[from + 1..to]))
  {
    var e, all, rest := log[from], log[from..to], log[from + 1..to];
    assert all == [e] + rest;
    assert Commands(all) == [e.command] + Commands(rest);
    ReplayAppend(docs, [e.command], Commands(rest));
    assert Replay(docs, [e.command]) == Apply(Replay(docs, []), e.command);
  }

  /** Documents depend on the committed part of the log only. */
  function Pending(n: Node): seq<Entry>
    requires Window(n)
  {
    WindowIndexes(n);
    n.log[n.lastApplied - n.snapIndex..n.commit - n.snapIndex]
  }

  lemma PendingNext(n: Node, n1: Node)
    requires Window(n) && Window(n1) && n.lastApplied < n.commit
    requires n1.log == n.log && n1.commit == n.commit && n1.snapIndex == n.snapIndex && n1.lastApplied == n.lastApplied + 1
    requires n.lastApplied - n.snapIndex < |n.log| && n1.docs == Apply(n.docs, n.log[n.lastApplied - n.snapIndex].command)
    ensures Replay(n.docs, Commands(Pending(n))) == Replay(n1.docs, Commands(Pending(n1)))
  {
    var from, to := n.lastApplied - n.snapIndex, n.commit - n.snapIndex;
    assert to <= |n.log| by { WindowIndexes(n); }
    ReplayFirst(n.docs, n.log, from, to);
    assert Pending(n) == n.log[from..to] && Pending(n1) == n.log[from + 1..to];
  }

  lemma {:induction false} ApplyFromDocs(n: Node)
    requires Window(n)
    ensures ApplyFrom(n).docs == Replay(n.docs, Commands(Pending(n)))
    decreases n.commit - n.lastApplied
  {
    if n.lastApplied < n.commit {
      var n1 := ApplyOne(n);
      ApplyFromDocs(n1);
      PendingNext(n, n1);
    } else {
      assert Commands([]) == [];
    }
  }

  lemma ApplyOne(n: Node) returns (m: Node)
    requires Window(n) && n.lastApplied < n.commit
    ensures Window(m) && ApplyFrom(n) == ApplyFrom(m)
    ensures m.log == n.log && m.commit == n.commit && m.snapIndex == n.snapIndex && m.lastApplied == n.lastApplied + 1
    ensures n.lastApplied - n.snapIndex < |n.log| && m.docs == Apply(n.docs, n.log[n.lastApplied - n.snapIndex].command)
  {
    WindowIndexes(n);
    var i := n.lastApplied + 1;
    var e := n.EntryAt(i).value;
    m := n.(lastApplied := i, applied := n.applied + [e.command], docs := Apply(n.docs, e.command));
  }

  /**
   * A follower brought up by a snapshot converges.  The snapshot was cut at `t` but holds the state
   * after `a` commands; once the follower has applied everything up to `n >= a`, its documents are
   * those of replaying the first `n` commands from the start.
   */
  lemma InstalledConverges(f: Node, history: seq<Command>, a: nat)
    requires Window(f) && f.lastApplied == f.snapIndex <= a <= f.commit <= |history|
    requires f.docs == Replay(map[], history[..a])
    requires Commands(Pending(f)) == history[f.snapIndex..f.commit]
    ensures ApplyCommitted(f).docs == Replay(map[], history[..f.commit])
  {
    WindowIndexes(f);
    var cs := history[..f.commit];
    assert cs[..a] == history[..a] && cs[f.snapIndex..] == history[f.snapIndex..f.commit];
    ApplyFromDocs(f);
    SnapshotReplay(map[], cs, f.snapIndex, a);
  }

  // --------------------------------------------------------- every stimulus

  /** What can happen to a replica: a timer, a client, an operator, or a message. */
  datatype Stimulus = Timeout | Beat | Submit(command: Command) | Fold(upTo: Option<nat>) | Receive(envelope: Envelope)

  function Respond(cfg: Config, n: Node, x: Stimulus): Node {
    match x
    case Timeout => if n.role == Leader then n else StartElection(cfg, n).node
    case Beat => Heartbeat(cfg, n).node
    case Submit(command) => Propose(cfg, n, command).0
    case Fold(upTo) => Compact(n, upTo)
    case Receive(e) => Handle(cfg, n, e).node
  }

  /** A message that does not contradict what the replica has committed. */
  predicate Compatible(n: Node, x: Stimulus) {
    x.Receive? ==>
      var m := x.envelope.msg;
      && (m.Append? ==> WellFormed(m) && Respects(n, m.entries))
      && (m.InstallSnapshot? ==>
            m.lastTerm > 0 && (n.snapIndex < m.lastIndex <= n.commit ==> n.TermAt(m.lastIndex) == m.lastTerm))
  }

  /** The commit rule never looks beyond the log. */
  lemma {:induction false} QuorumIndexBounds(cfg: Config, n: Node, index: nat)
    ensures n.commit <= QuorumIndex(cfg, n, index) <= Max(n.commit, index)
    decreases index
  {
    if index > n.commit {
      QuorumIndexBounds(cfg, n, index - 1);
    }
  }

  lemma AdvanceWindow(cfg: Config, n: Node)
    requires Window(n)
    ensures Window(AdvanceCommit(cfg, n))
    ensures
      var o := AdvanceCommit(cfg, n);
      o == n.(commit := o.commit, lastApplied := o.lastApplied, applied := o.applied, docs := o.docs) && n.commit <= o.commit
  {
    WindowIndexes(n);
    QuorumIndexBounds(cfg, n, n.LastIndex());
    var k := QuorumIndex(cfg, n, n.LastIndex());
    if k > n.commit {
      ApplyFromBounds(n.(commit := k));
    }
  }

  lemma ReplyWindow(cfg: Config, n: Node, m: Message)
    requires Window(n) && (m.AppendReply? || m.InstallReply?)
    ensures Window(if m.AppendReply? then OnAppendReply(cfg, n, m).node else OnInstallReply(cfg, n, m).node)
  {
    var n1 := Progress(n, m.follower, m.matchIndex);
    assert Window(n1);
    AdvanceWindow(cfg, n1);
  }

  lemma MessageWindow(cfg: Config, n: Node, e: Envelope)
    requires Window(n) && Compatible(n, Receive(e))
    ensures Window(Handle(cfg, n, e).node)
  {
    match e.msg
    case RequestVote(_, _, _, _) =>
    case VoteReply(_, _, _) => VoteWindow(cfg, n, e.msg);
    case Append(_, _, _, _, _, _) => AppendWindow(cfg, n, e.src, e.msg);
    case AppendReply(_, _, _, _, _) => ReplyWindow(cfg, n, e.msg);
    case InstallSnapshot(_, _, _, _, _) => InstallWindow(cfg, n, e.src, e.msg);
    case InstallReply(_, _, _) => ReplyWindow(cfg, n, e.msg);
  }

  lemma VoteWindow(cfg: Config, n: Node, m: Message)
    requires Window(n) && m.VoteReply?
    ensures Window(OnVoteReply(cfg, n, m).node)
  {}

  lemma StimulusWindow(cfg: Config, n: Node, x: Stimulus)
    requires Window(n) && Compatible(n, x)
    ensures Window(Respond(cfg, n, x))
  {
    match x
    case Timeout =>
    case Beat =>
    case Submit(command) => ProposeWindow(cfg, n, command);
    case Fold(upTo) => CompactEnds(n, upTo);
    case Receive(e) => MessageWindow(cfg, n, e);
  }

  /** A replica after a life of stimuli. */
  function Lifetime(cfg: Config, xs: seq<Stimulus>): Node {
    if xs == [] then FRESH else Respond(cfg, Lifetime(cfg, xs[..|xs| - 1]), xs[|xs| - 1])
  }

  predicate CompatibleLife(cfg: Config, xs: seq<Stimulus>) {
    xs == [] || (CompatibleLife(cfg, xs[..|xs| - 1]) && Compatible(Lifetime(cfg, xs[..|xs| - 1]), xs[|xs| - 1]))
  }

  /**
   * The window holds at every moment of a replica's life, whatever timers, clients, operators and
   * messages do to it, as long as no message contradicts what the replica has committed.
   */
  lemma {:induction false} WindowAlways(cfg: Config, xs: seq<Stimulus>)
    requires CompatibleLife(cfg, xs)
    ensures Window(Lifetime(cfg, xs))
    decreases |xs|
  {
    if xs != [] {
      WindowAlways(cfg, xs[..|xs| - 1]);
      StimulusWindow(cfg, Lifetime(cfg, xs[..|xs| - 1]), xs[|xs| - 1]);
    }
  }

  // ------------------------------------------ from compaction to convergence

  /** The replica's log and documents are those of a history of commands. */
  predicate Tells(n: Node, history: seq<Command>) {
    && Window(n) && |history| == n.snapIndex + |n.log|
    && (forall i :: 0 <= i < |n.log| ==> n.log[i].command == history[n.snapIndex + i])
    && n.lastApplied <= |history| && n.docs == Replay(map[], history[..n.lastApplied])
  }

  /** Log matching: an entry of the same index and term is the same entry. */
  predicate Matches(f: Node, n: Node) {
    forall x <- f.log ::
      n.EntryAt(x.index).Some? && n.EntryAt(x.index).value.term == x.term ==> n.EntryAt(x.index).value == x
  }

  /** The compacted leader still tells the history, but for its documents, which are saved beside. */
  lemma CompactTells(n: Node, upTo: Option<nat>, history: seq<Command>)
    requires Tells(n, history) && CompactTarget(n, upTo) > n.snapIndex
    ensures
      var l := Compact(n, upTo);
      && Tells(l, history) && l.snapData == Some(n.docs) && l.snapIndex == CompactTarget(n, upTo) <= n.lastApplied
      && l.role == n.role && l.term == n.term && l.next == n.next && l.lastApplied == n.lastApplied
  {
    var cut := CompactCuts(n, upTo);
    CompactEnds(n, upTo);
    var l := Compact(n, upTo);
    forall i | 0 <= i < |l.log| ensures l.log[i].command == history[l.snapIndex + i] {
      assert l.log[i] == n.log[cut + i];
    }
  }

  /** A follower behind the cut takes over the snapshot. */
  lemma InstallFresh(cfg: Config, f: Node, src: NodeId, m: Message, docs: Documents)
    requires Window(f) && m.InstallSnapshot? && m.data == Some(docs) && m.term >= f.term && m.lastTerm > 0
    requires f.snapIndex < m.lastIndex && f.commit < m.lastIndex
    ensures
      var o := OnInstallSnapshot(cfg, f, src, m);
      && Window(o.node) && o.node.snapIndex == o.node.lastApplied == o.node.commit == m.lastIndex
      && o.node.snapTerm == m.lastTerm && o.node.docs == docs && o.node.term == m.term && o.node.role == Follower
      && (forall x <- o.node.log :: x in f.log)
      && o.out == {Envelope(cfg.id, src, InstallReply(m.term, cfg.id, m.lastIndex))}
  {
    var f1 := Recognise(f, m.term, m.leader);
    assert Window(f1) && f1.log == f.log && f1.snapIndex == f.snapIndex && f1.TermAt(m.lastIndex) == f.TermAt(m.lastIndex);
    InstallKeeps(f1, m);
  }

  predicate Numbered(snapIndex: nat, log: seq<Entry>) {
    forall i :: 0 <= i < |log| ==> log[i].index == snapIndex + 1 + i
  }

  /** The leader's entries replace whatever differs from them. */
  lemma {:induction false} MergeTakes(snapIndex: nat, log: seq<Entry>, leader: seq<Entry>, done: nat)
    requires done <= |leader| && done <= |log| && log[..done] == leader[..done]
    requires Numbered(snapIndex, leader) && Numbered(snapIndex, log)
    requires forall i :: done <= i < |log| && i < |leader| && log[i].term == leader[i].term ==> log[i] == leader[i]
    ensures
      var merged := MergeEntries(snapIndex, log, leader[done..]);
      |leader| <= |merged| && merged[..|leader|] == leader && Numbered(snapIndex, merged)
    decreases |leader| - done
  {
    if done < |leader| {
      var log1 := MergeOne(snapIndex, log, leader[done]);
      assert leader[done..][1..] == leader[done + 1..];
      assert log1[..done + 1] == leader[..done + 1];
      MergeTakes(snapIndex, log1, leader, done + 1);
    }
  }

  lemma SameTermSameEntry(f: Node, f1: Node, l: Node, i: nat)
    requires Window(f1) && Window(l) && Matches(f, l) && l.snapIndex == f1.snapIndex && forall x <- f1.log :: x in f.log
    requires i < |f1.log| && i < |l.log| && f1.log[i].term == l.log[i].term
    ensures f1.log[i] == l.log[i]
  {
    var x := f1.log[i];
    assert x in f.log && x.index == l.snapIndex + 1 + i;
    assert l.EntryAt(x.index) == Some(l.log[i]);
  }

  /** The leader's log tells the history beyond its snapshot, and it has committed at least `a` of it. */
  predicate Leading(l: Node, history: seq<Command>, a: nat) {
    && Window(l) && l.snapIndex <= a <= l.commit <= |history| && |history| == l.snapIndex + |l.log|
    && forall i :: 0 <= i < |l.log| ==> l.log[i].command == history[l.snapIndex + i]
  }

  /** The append that follows the snapshot brings the follower up to the leader's commit index. */
  lemma CaughtUp(cfg: Config, f: Node, f1: Node, src: NodeId, l: Node, history: seq<Command>, a: nat, m: Message)
    requires Window(f1) && Leading(l, history, a) && Matches(f, l) && forall x <- f1.log :: x in f.log
    requires f1.snapIndex == f1.lastApplied == f1.commit == l.snapIndex && f1.snapTerm == l.snapTerm
    requires f1.docs == Replay(map[], history[..a])
    requires m == Append(l.term, src, l.snapIndex, l.snapTerm, l.log, l.commit) && f1.term == l.term && f1.role == Follower
    ensures
      var o := OnAppend(cfg, f1, src, m).node;
      o.commit == o.lastApplied == l.commit && o.docs == Replay(map[], history[..l.commit])
  {
    var f2 := Recognise(f1, m.term, src);
    assert f2 == f1.(leaderId := Some(src)) && PrefixMatches(f2, m);
    forall i | 0 <= i < |f1.log| && i < |l.log| && f1.log[i].term == l.log[i].term ensures f1.log[i] == l.log[i] {
      SameTermSameEntry(f, f1, l, i);
    }
    assert l.log[0..] == l.log;
    MergeTakes(l.snapIndex, f1.log, l.log, 0);
    var log := MergeEntries(l.snapIndex, f1.log, l.log);
    Learns(f2.(log := log), l, history, a);
  }

  /** Learning the leader's commit index from a log that begins with the leader's. */
  lemma Learns(f: Node, l: Node, history: seq<Command>, a: nat)
    requires Leading(l, history, a) && f.snapIndex == f.lastApplied == f.commit == l.snapIndex
    requires |l.log| <= |f.log| && f.log[..|l.log|] == l.log
    requires f.docs == Replay(map[], history[..a])
    requires Numbered(f.snapIndex, f.log)
    ensures
      var o := LearnCommit(f, l.commit);
      o.commit == o.lastApplied == l.commit && o.docs == Replay(map[], history[..l.commit])
  {
    WindowIndexes(l);
    if l.commit > f.commit {
      var g := f.(commit := l.commit);
      var k := l.commit - l.snapIndex;
      assert Window(g) && f.LastIndex() >= l.commit;
      assert Pending(g) == g.log[0..k] == l.log[..k];
      assert Commands(Pending(g)) == history[g.snapIndex..g.commit];
      InstalledConverges(g, history, a);
      ApplyFromBounds(g);
    }
  }

  /** What is owed to a follower that has the snapshot. */
  lemma OwedAtCut(cfg: Config, m: Node, q: NodeId)
    requires q in m.next && m.next[q] == m.snapIndex + 1
    ensures AppendTo(cfg, m, q) == Envelope(cfg.id, q, Append(m.term, cfg.id, m.snapIndex, m.snapTerm, m.log, m.commit))
  {
    assert m.log[0..] == m.log;
  }

  /** What the leader does with the follower's reply to the snapshot. */
  lemma Onward(cfg: Config, l: Node, q: NodeId)
    requires Window(l) && l.role == Leader
    ensures
      var o := OnInstallReply(cfg, l, InstallReply(l.term, q, l.snapIndex));
      var m := o.node;
      && Window(m) && m.log == l.log && m.snapIndex == l.snapIndex && m.snapTerm == l.snapTerm && m.term == l.term
      && l.commit <= m.commit
      && o.out == {Envelope(cfg.id, q, Append(l.term, cfg.id, l.snapIndex, l.snapTerm, l.log, m.commit))}
  {
    var p := Progress(l, q, l.snapIndex);
    assert Window(p);
    AdvanceWindow(cfg, p);
    OwedAtCut(cfg, AdvanceCommit(cfg, p), q);
  }

  lemma OnwardLeads(cfg: Config, l: Node, q: NodeId, f: Node, history: seq<Command>, a: nat)
    requires Tells(l, history) && l.role == Leader && l.snapIndex <= a <= l.commit && Matches(f, l)
    ensures
      var m := OnInstallReply(cfg, l, InstallReply(l.term, q, l.snapIndex)).node;
      Leading(m, history, a) && Matches(f, m)
  {
    Onward(cfg, l, q);
    var m := OnInstallReply(cfg, l, InstallReply(l.term, q, l.snapIndex)).node;
    WindowIndexes(m);
    SameEntries(f, l, m);
  }

  lemma SameEntries(f: Node, l: Node, m: Node)
    requires Matches(f, l) && m.log == l.log && m.snapIndex == l.snapIndex
    ensures Matches(f, m)
  {
    forall x <- f.log ensures m.EntryAt(x.index) == l.EntryAt(x.index) {}
  }

  /** What the leader sends a follower that is behind the cut. */
  lemma Offer(cfg: Config, n: Node, upTo: Option<nat>, q: NodeId, history: seq<Command>)
    requires Tells(n, history) && CompactTarget(n, upTo) > n.snapIndex && 0 < NextOf(n, q) <= CompactTarget(n, upTo)
    ensures
      var l := Compact(n, upTo);
      AppendTo(cfg, l, q) == Envelope(cfg.id, q, InstallSnapshot(n.term, cfg.id, l.snapIndex, l.snapTerm, Some(n.docs)))
  {
    CompactTells(n, upTo, history);
    CompactEnds(n, upTo);
    WindowIndexes(n);
    assert NextOf(Compact(n, upTo), q) == NextOf(n, q);
  }

  /**
   * The exchange that brings a follower up: it installs the snapshot, the leader answers the reply
   * with an append, and the follower takes that.  In the end it has committed and applied what the
   * leader has committed, and its documents are those of the history up to there.
   */
  predicate BroughtUp(cfg: Config, l: Node, q: NodeId, fcfg: Config, f: Node, history: seq<Command>, docs: Documents) {
    var snap := InstallSnapshot(l.term, cfg.id, l.snapIndex, l.snapTerm, Some(docs));
    var reply := InstallReply(l.term, q, l.snapIndex);
    var f1, l1 := OnInstallSnapshot(fcfg, f, cfg.id, snap), OnInstallReply(cfg, l, reply);
    var app := Append(l.term, cfg.id, l.snapIndex, l.snapTerm, l.log, l1.node.commit);
    var f2 := OnAppend(fcfg, f1.node, cfg.id, app).node;
    && f1.out == {Envelope(q, cfg.id, reply)} && l1.out == {Envelope(cfg.id, q, app)}
    && f2.commit == f2.lastApplied == l1.node.commit <= |history|
    && f2.docs == Replay(map[], history[..f2.commit])
  }

  lemma Exchange(cfg: Config, l: Node, q: NodeId, fcfg: Config, f: Node, history: seq<Command>, a: nat, docs: Documents)
    requires Tells(l, history) && l.role == Leader && l.snapTerm > 0 && l.snapIndex <= a <= l.commit
    requires a <= |history| && docs == Replay(map[], history[..a])
    requires Window(f) && f.term <= l.term && fcfg.id == q && Matches(f, l) && f.snapIndex < l.snapIndex && f.commit < l.snapIndex
    ensures BroughtUp(cfg, l, q, fcfg, f, history, docs)
  {
    var snap := InstallSnapshot(l.term, cfg.id, l.snapIndex, l.snapTerm, Some(docs));
    InstallFresh(fcfg, f, cfg.id, snap, docs);
    Onward(cfg, l, q);
    OnwardLeads(cfg, l, q, f, history, a);
    var f1 := OnInstallSnapshot(fcfg, f, cfg.id, snap).node;
    var l1 := OnInstallReply(cfg, l, InstallReply(l.term, q, l.snapIndex)).node;
    CaughtUp(fcfg, f, f1, cfg.id, l1, history, a, Append(l.term, cfg.id, l.snapIndex, l.snapTerm, l.log, l1.commit));
  }

  /**
   * The whole way from compaction to convergence.  A leader folds its log away up to some index at
   * or below what it has applied, saving the documents as they are; a follower that is behind the cut
   * is sent the snapshot and brought up to the leader's commit index, with the documents of replaying
   * the history up to there from the start.
   */
  lemma SnapshotConverges(cfg: Config, n: Node, upTo: Option<nat>, q: NodeId, fcfg: Config, f: Node, history: seq<Command>)
    requires Tells(n, history) && n.role == Leader && CompactTarget(n, upTo) > n.snapIndex
    requires n.TermAt(CompactTarget(n, upTo)) > 0 && 0 < NextOf(n, q) <= CompactTarget(n, upTo)
    requires Window(f) && f.term <= n.term && fcfg.id == q && Matches(f, n)
    requires f.snapIndex < CompactTarget(n, upTo) && f.commit < CompactTarget(n, upTo)
    ensures
      var l := Compact(n, upTo);
      && AppendTo(cfg, l, q) == Envelope(cfg.id, q, InstallSnapshot(l.term, cfg.id, l.snapIndex, l.snapTerm, Some(n.docs)))
      && BroughtUp(cfg, l, q, fcfg, f, history, n.docs)
  {
    CompactTells(n, upTo, history);
    CompactEnds(n, upTo);
    Offer(cfg, n, upTo, q, history);
    CompactMatches(n, upTo, f);
    SnapTerm(n, upTo);
    Exchange(cfg, Compact(n, upTo), q, fcfg, f, history, n.lastApplied, n.docs);
  }

  lemma SnapTerm(n: Node, upTo: Option<nat>)
    requires Window(n) && CompactTarget(n, upTo) > n.snapIndex
    ensures Compact(n, upTo).snapTerm == n.TermAt(CompactTarget(n, upTo)) && n.lastApplied <= Compact(n, upTo).commit
  {
    var cut := CompactCuts(n, upTo);
  }

  lemma CompactMatches(n: Node, upTo: Option<nat>, f: Node)
    requires Window(n) && Matches(f, n)
    ensures Matches(f, Compact(n, upTo))
  {
    var l := Compact(n, upTo);
    forall x <- f.log | l.EntryAt(x.index).Some? ensures l.EntryAt(x.index) == n.EntryAt(x.index) {
      if x.index > l.snapIndex {
        CompactTermAt(n, upTo, x.index);
      }
    }
  }
}
