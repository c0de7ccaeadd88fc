/** The replica as the source has it: an object whose methods update its fields in place. */
module RaftNode {
  import opened Options
  import opened Replication
  import opened RaftModel
  import Model = RaftModel
  import RaftProgress

  /** The replica after it has applied one more entry. */
  function ApplyOne(n: Node, e: Entry): Node {
    n.(lastApplied := n.lastApplied + 1, applied := n.applied + [e.command], docs := Apply(n.docs, e.command))
  }

  class Replica {
    const cfg: Config

    var role: Role
    var term: nat
    var votedFor: Option<NodeId>
    var votes: set<NodeId>
    var leaderId: Option<NodeId>
    var log: seq<Entry>
    var commit: nat
    var lastApplied: nat
    var applied: seq<Command>
    var docs: Documents
    var snapIndex: nat
    var snapTerm: nat
    var snapData: Option<Documents>
    var next: map<NodeId, nat>
    var match_: map<NodeId, nat>

    /** The value of the object, on which the protocol is specified. */
    function State(): Node
      reads this
    {
      Node(role, term, votedFor, votes, leaderId, log, commit, lastApplied, applied, docs,
           snapIndex, snapTerm, snapData, next, match_)
    }

    constructor (cfg: Config)
      ensures this.cfg == cfg && State() == FRESH
    {
      this.cfg := cfg;
      role, term, votedFor, votes, leaderId := Follower, 0, None, {}, None;
      log, commit, lastApplied, applied, docs := [], 0, 0, [], map[];
      snapIndex, snapTerm, snapData := 0, 0, None;
      next, match_ := map[], map[];
    }

    // -------------------------------------------------------------- elections

    method BecomeFollower(term: nat)
      modifies this
      ensures State() == Model.BecomeFollower(old(State()), term)
    {
      role, this.term, votedFor, votes := Follower, term, None, {};
    }

    method BecomeLeader()
      modifies this
      ensures State() == Model.BecomeLeader(cfg, old(State()))
    {
      role := Leader;
      leaderId := Some(cfg.id);
      next := map p | p in cfg.Peers() :: State().LastIndex() + 1;
      match_ := map p | p in cfg.Peers() :: 0;
    }

    method BecomeCandidate()
      modifies this
      ensures State() == Model.BecomeCandidate(cfg, old(State()))
    {
      role := Candidate;
      term := term + 1;
      votedFor := Some(cfg.id);
      votes := {cfg.id};
      leaderId := None;
    }

    method StartElection() returns (out: set<Envelope>)
      modifies this
      ensures Outcome(State(), out) == Model.StartElection(cfg, old(State()))
    {
      BecomeCandidate();
      if cfg.Peers() == {} {
        BecomeLeader();
        return {};
      }
      var ask := RequestVote(term, cfg.id, State().LastIndex(), State().LastTerm());
      out := set p | p in cfg.Peers() :: Envelope(cfg.id, p, ask);
    }

    /** A tick whose deadline has passed: a leader sends heartbeats, anybody else stands for election. */
    method Tick() returns (out: set<Envelope>)
      modifies this
      ensures Outcome(State(), out) ==
              (if old(State()).role == Leader then Model.Heartbeat(cfg, old(State())) else Model.StartElection(cfg, old(State())))
    {
      if role == Leader {
        out := Broadcast();
      } else {
        out := StartElection();
      }
    }

    method OnRequestVote(src: NodeId, m: Message) returns (out: set<Envelope>)
      requires m.RequestVote?
      modifies this
      ensures Outcome(State(), out) == Model.OnRequestVote(cfg, old(State()), src, m)
    {
      if m.term > term {
        BecomeFollower(m.term);
      }
      var granted := false;
      if m.term == term && (votedFor == None || votedFor == Some(m.candidate)) && UpToDate(m.lastIndex, m.lastTerm, State()) {
        granted := true;
        votedFor := Some(m.candidate);
      }
      out := {Envelope(cfg.id, src, VoteReply(term, granted, cfg.id))};
    }

    method OnVoteReply(m: Message) returns (out: set<Envelope>)
      requires m.VoteReply?
      modifies this
      ensures Outcome(State(), out) == Model.OnVoteReply(cfg, old(State()), m)
    {
      out := {};
      if m.term > term {
        BecomeFollower(m.term);
        return;
      }
      if role != Candidate || m.term != term {
        return;
      }
      if m.granted {
        votes := votes + {m.voter};
        if |votes| >= cfg.Quorum() {
          BecomeLeader();
          out := Broadcast();
        }
      }
    }

    // ------------------------------------------------------------ replication

    /** One append to every peer. */
    method Broadcast() returns (out: set<Envelope>)
      ensures out == Model.Broadcast(cfg, State())
    {
      out := {};
      var todo := cfg.Peers();
      while todo != {}
        invariant todo <= cfg.Peers()
        invariant out == set p | p in cfg.Peers() - todo :: AppendTo(cfg, State(), p)
        decreases todo
      {
        var p :| p in todo;
        todo := todo - {p};
        out := out + {AppendTo(cfg, State(), p)};
        assert cfg.Peers() - todo == (cfg.Peers() - (todo + {p})) + {p};
      }
      assert cfg.Peers() - todo == cfg.Peers();
    }

    /** Takes over the entries of an append one by one, cutting the log at the first conflict. */
    method Merge(entries: seq<Entry>)
      modifies this`log
      ensures log == MergeEntries(snapIndex, old(log), entries)
    {
      var i := 0;
      while i < |entries|
        invariant 0 <= i <= |entries|
        invariant MergeEntries(snapIndex, old(log), entries) == MergeEntries(snapIndex, log, entries[i..])
      {
        var e := entries[i];
        assert entries[i..][0] == e && entries[i..][1..] == entries[i + 1..];
        if e.index > snapIndex {
          var pos := e.index - snapIndex - 1;
          var missing := pos >= |log|;
          if !missing && log[pos].term != e.term {
            log := log[..pos];
            missing := true;
          }
          if missing {
            log := log + [e];
          }
        }
        i := i + 1;
      }
    }

    /** The first index of the conflicting term, as a hint for the leader. */
    method FindConflict(prevIndex: nat) returns (conflict: nat)
      ensures conflict == Conflict(State(), prevIndex)
    {
      conflict := Min(prevIndex, State().LastIndex() + 1);
      if 0 < conflict <= State().LastIndex() {
        var badTerm := State().TermAt(conflict);
        while conflict > 1 && State().TermAt(conflict - 1) == badTerm
          invariant BackOff(State(), conflict, badTerm) == Conflict(State(), prevIndex)
        {
          conflict := conflict - 1;
        }
      }
    }

    /** Applies committed commands in order; a missing entry stops the loop. */
    method ApplyCommitted()
      modifies this`lastApplied, this`applied, this`docs
      ensures State() == Model.ApplyCommitted(old(State()))
    {
      lastApplied := Max(lastApplied, snapIndex);
      while lastApplied < commit
        invariant ApplyFrom(State()) == Model.ApplyCommitted(old(State()))
        decreases commit - lastApplied
      {
        var found := ApplyNext();
        if !found {
          return;
        }
      }
    }

    /** Moves on by one index, and applies the entry there; a missing entry is skipped. */
    method ApplyNext() returns (found: bool)
      modifies this`lastApplied, this`applied, this`docs
      ensures lastApplied == old(lastApplied) + 1
      ensures
        match old(State()).EntryAt(old(lastApplied) + 1)
        case None => !found && State() == old(State()).(lastApplied := old(lastApplied) + 1)
        case Some(e) => found && State() == ApplyOne(old(State()), e)
    {
      lastApplied := lastApplied + 1;
      match State().EntryAt(lastApplied) {
        case None => found := false;
        case Some(e) =>
          applied := applied + [e.command];
          docs := Apply(docs, e.command);
          found := true;
      }
    }

    method OnAppend(src: NodeId, m: Message) returns (out: set<Envelope>)
      requires m.Append?
      modifies this
      ensures Outcome(State(), out) == Model.OnAppend(cfg, old(State()), src, m)
    {
      if m.term < term {
        return {Envelope(cfg.id, src, AppendReply(term, false, cfg.id, 0, 0))};
      }
      if m.term > term || role != Follower {
        BecomeFollower(m.term);
      }
      leaderId := Some(m.leader);
      assert State() == Recognise(old(State()), m.term, m.leader);
      if m.prevIndex > 0 && State().TermAt(m.prevIndex) != m.prevTerm {
        var conflict := FindConflict(m.prevIndex);
        return {Envelope(cfg.id, src, AppendReply(term, false, cfg.id, 0, conflict))};
      }
      Merge(m.entries);
      if m.commit > commit {
        commit := Min(m.commit, State().LastIndex());
        ApplyCommitted();
      }
      out := {Envelope(cfg.id, src, AppendReply(term, true, cfg.id, Acknowledged(cfg.guards, State(), m), 0))};
    }

    lemma Committed()
      ensures
        var n := Model.AdvanceCommit(cfg, State());
        && (forall j | n.commit < j <= n.LastIndex() && n.TermAt(j) == n.term :: 1 + |Replicas(n, j)| < cfg.Quorum())
        && (n.commit != commit ==>
              commit < n.commit <= n.LastIndex() && n.TermAt(n.commit) == n.term && 1 + |Replicas(n, n.commit)| >= cfg.Quorum())
    {
      var n := Model.AdvanceCommit(cfg, State());
      RaftProgress.AdvanceHighest(cfg, State());
      forall j | n.commit < j <= n.LastIndex() && n.TermAt(j) == n.term ensures 1 + |Replicas(n, j)| < cfg.Quorum() {
        assert !RaftProgress.HeldByQuorum(cfg, n, j);
      }
      if n.commit != commit {
        assert n.TermAt(n.commit) == State().TermAt(n.commit) && Replicas(n, n.commit) == Replicas(State(), n.commit);
      }
    }

    /** Commits the highest entry of the current term that a quorum holds. */
    method AdvanceCommit()
      modifies this`commit, this`lastApplied, this`applied, this`docs
      ensures State() == Model.AdvanceCommit(cfg, old(State()))
      ensures forall j | commit < j <= State().LastIndex() && State().TermAt(j) == term :: 1 + |Replicas(State(), j)| < cfg.Quorum()
      ensures commit != old(commit) ==>
                old(commit) < commit <= State().LastIndex() && State().TermAt(commit) == term && 1 + |Replicas(State(), commit)| >= cfg.Quorum()
    {
      Committed();
      var index: nat := State().LastIndex();
      while index > commit
        invariant State() == old(State())
        invariant QuorumIndex(cfg, State(), State().LastIndex()) == QuorumIndex(cfg, State(), index)
      {
        if State().TermAt(index) == term && 1 + |Replicas(State(), index)| >= cfg.Quorum() {
          commit := index;
          ApplyCommitted();
          return;
        }
        index := index - 1;
      }
    }

    method OnAppendReply(m: Message) returns (out: set<Envelope>)
      requires m.AppendReply?
      modifies this
      ensures Outcome(State(), out) == Model.OnAppendReply(cfg, old(State()), m)
    {
      out := {};
      if m.term > term {
        BecomeFollower(m.term);
        return;
      }
      if role != Leader || Stale(cfg.guards, State(), m.term) {
        return;
      }
      if m.success {
        match_ := match_[m.follower := m.matchIndex];
        next := next[m.follower := m.matchIndex + 1];
        AdvanceCommit();
      } else {
        var back := if m.follower in next && next[m.follower] > 2 then next[m.follower] - 1 else 1;
        next := next[m.follower := if m.conflict != 0 then m.conflict else back];
        out := {AppendTo(cfg, State(), m.follower)};
      }
    }

    /** Appends a client command; the result is its index, or nothing if this is not the leader. */
    method Propose(command: Command) returns (index: Option<nat>)
      modifies this
      ensures (State(), index) == Model.Propose(cfg, old(State()), command)
    {
      if role != Leader {
        return None;
      }
      var e := Entry(term, State().LastIndex() + 1, command);
      log := log + [e];
      if cfg.Peers() == {} {
        commit := e.index;
        ApplyCommitted();
      }
      index := Some(e.index);
    }

    // ------------------------------------------------------------- compaction

    /** Folds the applied prefix into a snapshot; the result is the number of entries discarded. */
    method Compact(upTo: Option<nat>) returns (discarded: nat)
      modifies this
      ensures State() == Model.Compact(old(State()), upTo)
      ensures discarded == snapIndex - old(snapIndex)
    {
      var target := CompactTarget(State(), upTo);
      if target <= snapIndex {
        return 0;
      }
      var cut := target - snapIndex;
      snapTerm := State().TermAt(target);
      log := if cut <= |log| then log[cut..] else [];
      snapIndex := target;
      snapData := Some(docs);
      discarded := cut;
    }

    method OnInstallSnapshot(src: NodeId, m: Message) returns (out: set<Envelope>)
      requires m.InstallSnapshot?
      modifies this
      ensures Outcome(State(), out) == Model.OnInstallSnapshot(cfg, old(State()), src, m)
    {
      if m.term < term {
        return {Envelope(cfg.id, src, InstallReply(term, cfg.id, snapIndex))};
      }
      if m.term > term || role != Follower {
        BecomeFollower(m.term);
      }
      leaderId := Some(m.leader);
      assert State() == Recognise(old(State()), m.term, m.leader);
      if m.lastIndex > snapIndex {
        Install(m);
      }
      out := {Envelope(cfg.id, src, InstallReply(term, cfg.id, snapIndex))};
    }

    method KeepBeyond(index: nat, indexTerm: nat)
      modifies this`log
      ensures log == if old(State()).TermAt(index) == indexTerm then Beyond(old(log), index) else []
    {
      if State().TermAt(index) == indexTerm {
        log := Beyond(log, index);
      } else {
        log := [];
      }
    }

    /** Replaces the state behind the snapshot, and the log unless it agrees with it. */
    method Install(m: Message)
      requires m.InstallSnapshot?
      modifies this
      ensures State() == Model.Install(old(State()), m)
    {
      KeepBeyond(m.lastIndex, m.lastTerm);
      snapIndex, snapTerm, snapData := m.lastIndex, m.lastTerm, m.data;
      commit := Max(commit, m.lastIndex);
      lastApplied := Max(lastApplied, m.lastIndex);
      if m.data.Some? {
        docs := m.data.value;
      }
    }

    method OnInstallReply(m: Message) returns (out: set<Envelope>)
      requires m.InstallReply?
      modifies this
      ensures Outcome(State(), out) == Model.OnInstallReply(cfg, old(State()), m)
    {
      out := {};
      if m.term > term {
        BecomeFollower(m.term);
        return;
      }
      if role != Leader || Stale(cfg.guards, State(), m.term) {
        return;
      }
      match_ := match_[m.follower := m.matchIndex];
      next := next[m.follower := m.matchIndex + 1];
      AdvanceCommit();
      out := {AppendTo(cfg, State(), m.follower)};
    }

    method Handle(e: Envelope) returns (out: set<Envelope>)
      modifies this
      ensures Outcome(State(), out) == Model.Handle(cfg, old(State()), e)
    {
      match e.msg
      case RequestVote(_, _, _, _) => out := OnRequestVote(e.src, e.msg);
      case VoteReply(_, _, _) => out := OnVoteReply(e.msg);
      case Append(_, _, _, _, _, _) => out := OnAppend(e.src, e.msg);
      case AppendReply(_, _, _, _, _) => out := OnAppendReply(e.msg);
      case InstallSnapshot(_, _, _, _, _) => out := OnInstallSnapshot(e.src, e.msg);
      case InstallReply(_, _, _) => out := OnInstallReply(e.msg);
    }
  }
}
