/** A replica that has compacted its log cannot be told from one that has not, by votes and accepted appends. */
module RaftFolding {
  import opened Options
  import opened Replication
  import opened RaftModel
  import opened RaftCompaction

  /** `m` is `n` without the first `cut` entries of its log, which it has applied. */
  predicate Folded(n: Node, m: Node, cut: nat) {
    && cut <= |n.log| && n.snapIndex + cut <= n.lastApplied && m.log == n.log[cut..]
    && m.snapIndex == n.snapIndex + cut && m.snapTerm == n.TermAt(m.snapIndex) && SameElse(n, m)
  }

  /** All but the log and the snapshot is the same. */
  predicate SameElse(n: Node, m: Node) {
    m == n.(log := m.log, snapIndex := m.snapIndex, snapTerm := m.snapTerm, snapData := m.snapData)
  }

  predicate SameLog(n: Node, m: Node) {
    m.log == n.log && m.snapIndex == n.snapIndex && m.snapTerm == n.snapTerm
  }

  lemma SameTerms(n: Node, m: Node, i: nat)
    requires SameLog(n, m)
    ensures m.TermAt(i) == n.TermAt(i)
  {}

  lemma SameEnds(n: Node, m: Node)
    requires SameLog(n, m)
    ensures m.LastIndex() == n.LastIndex() && m.LastTerm() == n.LastTerm()
  {}

  lemma FoldedMoves(n: Node, m: Node, n1: Node, m1: Node, cut: nat)
    requires Folded(n, m, cut) && SameElse(n1, m1) && SameLog(n, n1) && SameLog(m, m1) && n1.lastApplied >= n.lastApplied
    ensures Folded(n1, m1, cut)
  {
    SameTerms(n, n1, m.snapIndex);
  }

  lemma CompactFolds(n: Node, upTo: Option<nat>) returns (cut: nat)
    requires Window(n)
    ensures Folded(n, Compact(n, upTo), cut) && Compact(n, upTo).snapIndex == n.snapIndex + cut
  {
    if CompactTarget(n, upTo) > n.snapIndex {
      cut := CompactCuts(n, upTo);
    } else {
      cut := 0;
    }
  }

  lemma FoldedLast(n: Node, m: Node, cut: nat)
    requires Window(n) && Folded(n, m, cut)
    ensures m.LastIndex() == n.LastIndex() && m.LastTerm() == n.LastTerm()
  {}

  lemma FoldedAt(n: Node, m: Node, cut: nat, i: nat)
    requires Folded(n, m, cut) && i >= m.snapIndex
    ensures m.TermAt(i) == n.TermAt(i) && (i > m.snapIndex ==> m.EntryAt(i) == n.EntryAt(i))
  {}

  // -------------------------------------------------------------------- votes

  lemma FoldedCatchUp(n: Node, m: Node, cut: nat, term: nat)
    requires Window(n) && Folded(n, m, cut)
    ensures Folded(CatchUp(n, term), CatchUp(m, term), cut) && Window(CatchUp(n, term))
  {
    FoldedMoves(n, m, CatchUp(n, term), CatchUp(m, term), cut);
  }

  lemma FoldedVote(cfg: Config, n: Node, m: Node, cut: nat, src: NodeId, x: Message)
    requires Window(n) && Folded(n, m, cut) && x.RequestVote?
    ensures
      var a, b := OnRequestVote(cfg, n, src, x), OnRequestVote(cfg, m, src, x);
      Folded(a.node, b.node, cut) && b.out == a.out
  {
    var n1, m1 := CatchUp(n, x.term), CatchUp(m, x.term);
    FoldedCatchUp(n, m, cut, x.term);
    FoldedLast(n1, m1, cut);
    assert Grants(m1, x) == Grants(n1, x);
    var n2, m2 := n1.(votedFor := Some(x.candidate)), m1.(votedFor := Some(x.candidate));
    FoldedMoves(n1, m1, n2, m2, cut);
  }

  // ------------------------------------------------------------------ appends

  /** The replica after it has applied one more entry. */
  function Took(n: Node, e: Entry): Node {
    n.(lastApplied := n.lastApplied + 1, applied := n.applied + [e.command], docs := Apply(n.docs, e.command))
  }

  lemma TookNext(n: Node) returns (e: Entry)
    requires Window(n) && n.lastApplied < n.commit
    ensures n.EntryAt(n.lastApplied + 1) == Some(e) && ApplyFrom(n) == ApplyFrom(Took(n, e)) && Window(Took(n, e))
  {
    WindowIndexes(n);
    e := n.EntryAt(n.lastApplied + 1).value;
  }

  lemma TookSame(m: Node, e: Entry)
    requires m.lastApplied < m.commit && m.EntryAt(m.lastApplied + 1) == Some(e)
    ensures ApplyFrom(m) == ApplyFrom(Took(m, e))
  {}

  /** Commands are applied alike. */
  lemma {:induction false} FoldedApply(n: Node, m: Node, cut: nat)
    requires Window(n) && Folded(n, m, cut)
    ensures Folded(ApplyFrom(n), ApplyFrom(m), cut)
    decreases n.commit - n.lastApplied
  {
    if n.lastApplied < n.commit {
      var e := TookNext(n);
      FoldedAt(n, m, cut, n.lastApplied + 1);
      TookSame(m, e);
      FoldedMoves(n, m, Took(n, e), Took(m, e), cut);
      FoldedApply(Took(n, e), Took(m, e), cut);
    }
  }

  lemma FoldedLearn(n: Node, m: Node, cut: nat, commit: nat)
    requires Window(n) && Folded(n, m, cut)
    ensures Folded(LearnCommit(n, commit), LearnCommit(m, commit), cut)
  {
    FoldedLast(n, m, cut);
    if commit > n.commit {
      var k := Min(commit, n.LastIndex());
      FoldedMoves(n, m, n.(commit := k), m.(commit := k), cut);
      FoldedApply(n.(commit := k), m.(commit := k), cut);
    }
  }

  lemma FoldedMergeOne(snapIndex: nat, log: seq<Entry>, e: Entry, cut: nat)
    requires cut <= |log| && e.index > snapIndex + cut
    ensures
      var log1 := MergeOne(snapIndex, log, e);
      cut <= |log1| && log1[..cut] == log[..cut] && MergeOne(snapIndex + cut, log[cut..], e) == log1[cut..]
  {}

  /** Entries beyond the cut are merged alike. */
  lemma {:induction false} FoldedMerge(snapIndex: nat, log: seq<Entry>, entries: seq<Entry>, cut: nat, first: nat)
    requires cut <= |log| && first > snapIndex + cut
    requires forall i :: 0 <= i < |entries| ==> entries[i].index == first + i
    ensures
      var merged := MergeEntries(snapIndex, log, entries);
      && cut <= |merged| && merged[..cut] == log[..cut] && MergeEntries(snapIndex + cut, log[cut..], entries) == merged[cut..]
    decreases |entries|
  {
    if entries != [] {
      FoldedMergeOne(snapIndex, log, entries[0], cut);
      FoldedMerge(snapIndex, MergeOne(snapIndex, log, entries[0]), entries[1..], cut, first + 1);
    }
  }

  lemma SameTermBelow(n: Node, n1: Node, cut: nat)
    requires n1.snapIndex == n.snapIndex && n1.snapTerm == n.snapTerm && cut <= |n.log| && cut <= |n1.log| && n1.log[..cut] == n.log[..cut]
    ensures n1.TermAt(n.snapIndex + cut) == n.TermAt(n.snapIndex + cut)
  {
    if cut > 0 {
      assert n1.log[cut - 1] == n1.log[..cut][cut - 1] == n.log[cut - 1];
    }
  }

  lemma FoldedWith(n: Node, m: Node, cut: nat, a: seq<Entry>, b: seq<Entry>)
    requires Folded(n, m, cut) && cut <= |a| && a[..cut] == n.log[..cut] && b == a[cut..]
    ensures Folded(n.(log := a), m.(log := b), cut)
  {
    SameTermBelow(n, n.(log := a), cut);
  }

  lemma FoldedRecognise(n: Node, m: Node, cut: nat, x: Message)
    requires Folded(n, m, cut) && Window(n) && x.Append? && Respects(n, x.entries)
    ensures Folded(Recognise(n, x.term, x.leader), Recognise(m, x.term, x.leader), cut)
    ensures Window(Recognise(n, x.term, x.leader)) && Respects(Recognise(n, x.term, x.leader), x.entries)
  {
    RecognisedWindow(n, x);
    FoldedMoves(n, m, Recognise(n, x.term, x.leader), Recognise(m, x.term, x.leader), cut);
  }

  lemma MergedBeyond(snapIndex: nat, log: seq<Entry>, x: Message, cut: nat, snapIndex2: nat, log2: seq<Entry>)
    requires x.Append? && WellFormed(x) && cut <= |log| && snapIndex2 == snapIndex + cut <= x.prevIndex && log2 == log[cut..]
    ensures
      var merged := MergeEntries(snapIndex, log, x.entries);
      cut <= |merged| && merged[..cut] == log[..cut] && MergeEntries(snapIndex2, log2, x.entries) == merged[cut..]
  {
    FoldedMerge(snapIndex, log, x.entries, cut, x.prevIndex + 1);
  }

  lemma FoldedMerged(n: Node, m: Node, cut: nat, x: Message)
    requires Window(n) && Folded(n, m, cut) && x.Append? && WellFormed(x) && x.prevIndex >= m.snapIndex
    ensures Folded(n.(log := MergeEntries(n.snapIndex, n.log, x.entries)), m.(log := MergeEntries(m.snapIndex, m.log, x.entries)), cut)
  {
    var a, b := MergeEntries(n.snapIndex, n.log, x.entries), MergeEntries(m.snapIndex, m.log, x.entries);
    MergedBeyond(n.snapIndex, n.log, x, cut, m.snapIndex, m.log);
    FoldedWith(n, m, cut, a, b);
  }

  lemma FoldedLearnt(n: Node, m: Node, cut: nat, commit: nat)
    requires Window(n) && Folded(n, m, cut)
    ensures Folded(LearnCommit(n, commit), LearnCommit(m, commit), cut)
    ensures LearnCommit(m, commit).LastIndex() == LearnCommit(n, commit).LastIndex()
  {
    FoldedLearn(n, m, cut, commit);
    LearnWindow(n, commit);
    FoldedLast(LearnCommit(n, commit), LearnCommit(m, commit), cut);
  }

  /** The new logs, and what is learnt of the commit index. */
  lemma FoldedAccept(n: Node, m: Node, cut: nat, x: Message)
    requires Window(n) && Folded(n, m, cut) && x.Append? && WellFormed(x) && x.prevIndex >= m.snapIndex
    requires Respects(n, x.entries) && PrefixMatches(n, x)
    ensures
      var n2, m2 := n.(log := MergeEntries(n.snapIndex, n.log, x.entries)), m.(log := MergeEntries(m.snapIndex, m.log, x.entries));
      var n3, m3 := LearnCommit(n2, x.commit), LearnCommit(m2, x.commit);
      Folded(n3, m3, cut) && m3.LastIndex() == n3.LastIndex()
  {
    AcceptedWindow(n, x);
    FoldedMerged(n, m, cut, x);
    FoldedLearnt(n.(log := MergeEntries(n.snapIndex, n.log, x.entries)), m.(log := MergeEntries(m.snapIndex, m.log, x.entries)), cut, x.commit);
  }

  lemma FoldedMatches(n: Node, m: Node, cut: nat, x: Message)
    requires Folded(n, m, cut) && x.Append? && x.prevIndex >= m.snapIndex
    ensures PrefixMatches(m, x) <==> PrefixMatches(n, x)
  {
    FoldedAt(n, m, cut, x.prevIndex);
  }

  lemma AcceptedOutcome(cfg: Config, n: Node, src: NodeId, x: Message)
    requires x.Append? && x.term >= n.term && PrefixMatches(Recognise(n, x.term, x.leader), x)
    ensures
      var n1 := Recognise(n, x.term, x.leader);
      var n3 := LearnCommit(n1.(log := MergeEntries(n1.snapIndex, n1.log, x.entries)), x.commit);
      OnAppend(cfg, n, src, x) == Outcome(n3, {Envelope(cfg.id, src, AppendReply(n3.term, true, cfg.id, Acknowledged(cfg.guards, n3, x), 0))})
  {}

  lemma FoldedAppend(cfg: Config, n: Node, m: Node, cut: nat, src: NodeId, x: Message)
    requires Window(n) && Folded(n, m, cut) && x.Append? && WellFormed(x) && Respects(n, x.entries)
    requires x.term >= n.term && x.prevIndex >= m.snapIndex && PrefixMatches(n, x)
    ensures
      var a, b := OnAppend(cfg, n, src, x), OnAppend(cfg, m, src, x);
      Folded(a.node, b.node, cut) && b.out == a.out
  {
    var n1, m1 := Recognise(n, x.term, x.leader), Recognise(m, x.term, x.leader);
    FoldedRecognise(n, m, cut, x);
    SameTerms(n, n1, x.prevIndex);
    FoldedMatches(n1, m1, cut, x);
    FoldedAccept(n1, m1, cut, x);
    AcceptedOutcome(cfg, n, src, x);
    AcceptedOutcome(cfg, m, src, x);
  }

  /**
   * A compacted follower cannot be told from one that has not compacted: it answers every request for
   * a vote, every append of an earlier term, and every append that the other accepts and whose prefix
   * is not below the cut, in the same way, and is left with the same log but for the cut, the same
   * applied commands and the same documents.
   */
  lemma CompactTransparent(cfg: Config, n: Node, upTo: Option<nat>, e: Envelope) returns (cut: nat)
    requires Window(n) && (e.msg.RequestVote? || e.msg.Append?)
    requires e.msg.Append? ==> WellFormed(e.msg) && Respects(n, e.msg.entries)
    requires e.msg.Append? && e.msg.term >= n.term ==> e.msg.prevIndex >= Compact(n, upTo).snapIndex && PrefixMatches(n, e.msg)
    ensures Compact(n, upTo).snapIndex == n.snapIndex + cut
    ensures
      var a, b := Handle(cfg, n, e), Handle(cfg, Compact(n, upTo), e);
      b.out == a.out && Folded(a.node, b.node, cut)
  {
    var m := Compact(n, upTo);
    cut := CompactFolds(n, upTo);
    if e.msg.RequestVote? {
      FoldedVote(cfg, n, m, cut, e.src, e.msg);
    } else if e.msg.term >= n.term {
      FoldedAppend(cfg, n, m, cut, e.src, e.msg);
    }
  }
}
