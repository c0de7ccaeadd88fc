/**
 * Crash refinement down to the bytes of the log: an append can be cut off after any byte, and
 * recovery reads the file, cuts its torn tail, and replays what is left.
 */
module LsmBytes {
  import opened Options
  import Payload
  import opened LsmModel
  import opened LsmRecovery
  import opened LsmRuns
  import opened LsmLog
  import Codec
  import Wal

  /** The directory with the log as the bytes of its file. */
  datatype Directory = Directory(manifest: Manifest, files: map<Name, Table>, log: Codec.Bytes)

  datatype ByteState = ByteState(mem: Mem, dir: Directory)

  /** Every intact frame has a payload that decodes. */
  ghost predicate Readable(c: Wal.Format, log: Codec.Bytes)
    requires Wal.Progress(c)
  {
    forall f <- Wal.Frames(c, log) :: EntryOf(f).Some?
  }

  /** The entries that recovery finds in the file. */
  ghost function Read(c: Wal.Format, log: Codec.Bytes): seq<Entry>
    requires Wal.Progress(c) && Readable(c, log)
  {
    var fs := Wal.Frames(c, log);
    seq(|fs|, i requires 0 <= i < |fs| => assert fs[i] in fs; EntryOf(fs[i]).value)
  }

  ghost function DiskOf(c: Wal.Format, b: Directory): Disk
    requires Wal.Progress(c) && Readable(c, b.log)
  {
    Disk(b.manifest, b.files, Read(c, b.log))
  }

  ghost function StateOf(c: Wal.Format, s: ByteState): State
    requires Wal.Progress(c) && Readable(c, s.dir.log)
  {
    State(s.mem, DiskOf(c, s.dir))
  }

  /** Opening a directory: memory from the intact frames, and the file cut where they end. */
  ghost function Reopened(c: Wal.Format, b: Directory): ByteState
    requires Wal.Progress(c) && Readable(c, b.log) && Wal.IntactLength(c, b.log) <= |b.log| && Present(DiskOf(c, b))
  {
    ByteState(Recover(DiskOf(c, b)), b.(log := b.log[..Wal.IntactLength(c, b.log)]))
  }

  // ------------------------------------------------------- the log as a file

  /** The file is the image of these entries and nothing else. */
  ghost predicate Clean(c: Wal.Format, log: Codec.Bytes, wal: seq<Entry>)
    requires Wal.Total(c)
  {
    AllLoggable(wal) && log == Wal.Image(c, FramesOf(wal))
  }

  lemma ReadsExactly(c: Wal.Format, log: Codec.Bytes, wal: seq<Entry>)
    requires Wal.Progress(c) && ReadsAs(Wal.Frames(c, log), wal)
    ensures Readable(c, log) && Read(c, log) == wal
  {
    var fs := Wal.Frames(c, log);
    forall f <- fs ensures EntryOf(f).Some? {
      var i :| 0 <= i < |fs| && fs[i] == f;
    }
  }

  lemma CleanReads(c: Wal.Format, log: Codec.Bytes, wal: seq<Entry>)
    requires Wal.Lawful(c) && Clean(c, log, wal)
    ensures Readable(c, log) && Read(c, log) == wal && Wal.IntactLength(c, log) == |log|
  {
    Wal.ReplayEnd(c, FramesOf(wal), []);
    assert log + [] == log;
    FramesRead(wal);
    ReadsExactly(c, log, wal);
  }

  lemma CleanAppend(c: Wal.Format, log: Codec.Bytes, wal: seq<Entry>, e: Entry)
    requires Wal.Lawful(c) && Clean(c, log, wal) && Loggable(e)
    ensures Clean(c, log + c.encode(FrameOf(e)), wal + [e])
  {
    assert FramesOf(wal + [e]) == FramesOf(wal) + [FrameOf(e)];
    Wal.ImageSnoc(c, FramesOf(wal), FrameOf(e));
  }

  /** A file that was clean until an append was cut off: what it reads as, and what is left of it. */
  lemma TornReads(c: Wal.Format, log: Codec.Bytes, wal: seq<Entry>, e: Entry, written: nat)
    requires Wal.Lawful(c) && Clean(c, log, wal) && Loggable(e) && written <= |c.encode(FrameOf(e))|
    ensures
      var data, wal2 := log + c.encode(FrameOf(e))[..written], if written < |c.encode(FrameOf(e))| then wal else wal + [e];
      && Readable(c, data) && Read(c, data) == wal2
      && Wal.IntactLength(c, data) <= |data| && Clean(c, data[..Wal.IntactLength(c, data)], wal2)
  {
    var code := c.encode(FrameOf(e));
    var data := log + code[..written];
    CrashedLog(c, wal, e, written);
    Wal.CrashedAppend(c, FramesOf(wal), FrameOf(e), written);
    CleanAppend(c, log, wal, e);
    if written < |code| {
      ReadsExactly(c, data, wal);
      assert data[..|log|] == log;
    } else {
      ReadsExactly(c, data, wal + [e]);
      assert code[..written] == code;
      Wal.ImageSnoc(c, FramesOf(wal), FrameOf(e));
      assert data[..|data|] == data;
    }
  }

  // ------------------------------------------- what operations do to the file

  /** The entry an operation logs. */
  function EntryFor(mem: Mem, op: Op): Option<Entry> {
    match op
    case Put(id, doc) => Some(Mutation(id, Row(mem.seqno + 1, Some(doc))))
    case Delete(id) =>
      if id in mem.table && mem.table[id].doc.Some? then Some(Mutation(id, Row(mem.seqno + 1, None))) else None
    case CheckpointOp => Some(Mark(mem.seqno))
    case _ => None
  }

  /** The entry fits the fields of a frame. */
  predicate Fits(mem: Mem, op: Op) {
    EntryFor(mem, op).Some? ==> Loggable(EntryFor(mem, op).value)
  }

  /** The directory after the first `k` effects. */
  function After(d: Disk, effects: seq<Disk>, k: nat): Disk
    requires k <= |effects|
  {
    if k == 0 then d else effects[k - 1]
  }

  /** One effect leaves the log alone, or empties it, or appends the one entry and does nothing else. */
  predicate Changes(d: Disk, d2: Disk, e: Option<Entry>) {
    d2.wal == d.wal || d2.wal == [] || (e.Some? && d2 == Appended(d, e.value))
  }

  predicate ChangesAt(d: Disk, effects: seq<Disk>, k: nat, e: Option<Entry>)
    requires k < |effects|
  {
    Changes(After(d, effects, k), effects[k], e)
  }

  predicate AllChange(d: Disk, effects: seq<Disk>, e: Option<Entry>) {
    forall k: nat | k < |effects| :: ChangesAt(d, effects, k, e)
  }

  lemma ChangeJoin(d: Disk, a: seq<Disk>, b: seq<Disk>, e: Option<Entry>)
    requires AllChange(d, a, e) && AllChange(Last(d, a), b, e)
    ensures AllChange(d, a + b, e)
  {
    forall k: nat | k < |a + b| ensures ChangesAt(d, a + b, k, e) {
      if k < |a| {
        assert ChangesAt(d, a, k, e);
      } else {
        assert ChangesAt(Last(d, a), b, k - |a|, e);
      }
    }
  }

  lemma {:induction false} UnlinksChange(d: Disk, stale: seq<Name>, e: Option<Entry>)
    ensures AllChange(d, Unlinks(d, stale), e)
    decreases |stale|
  {
    if stale != [] {
      var next := d.(files := d.files - {stale[0]});
      UnlinksChange(next, stale[1..], e);
      ChangeJoin(d, [next], Unlinks(next, stale[1..]), e);
    }
  }

  lemma CompactChange(mem: Mem, d: Disk, n: Name, e: Option<Entry>)
    requires forall x <- mem.segments :: x in d.files
    ensures AllChange(d, Compact(mem, d, n).effects, e)
  {
    if |mem.segments| >= 2 {
      var written := d.(files := d.files[n := LiveRows(Merge(d.files, mem.segments))]);
      var listed := Manifested(written, [n], mem.seqno);
      UnlinksChange(listed, mem.segments, e);
      ChangeJoin(d, [written, listed], Unlinks(listed, mem.segments), e);
    }
  }

  lemma FlushChange(cfg: Config, mem: Mem, d: Disk, n: Name, spare: Name, e: Option<Entry>)
    requires forall x <- mem.segments :: x in d.files
    ensures AllChange(d, Flush(cfg, mem, d, n, spare).effects, e)
  {
    if mem.memtable != map[] {
      var written := d.(files := d.files[n := mem.memtable]);
      var listed := Manifested(written, mem.segments + [n], mem.seqno);
      var rotated := listed.(wal := []);
      var flushed := mem.(segments := mem.segments + [n], memtable := map[]);
      if |flushed.segments| >= cfg.compactionTrigger {
        CompactChange(flushed, rotated, spare, e);
        ChangeJoin(d, [written, listed, rotated], Compact(flushed, rotated, spare).effects, e);
      }
    }
  }

  /** The same, of an outcome. */
  predicate OutcomeChanges(d: Disk, o: Outcome, e: Option<Entry>) {
    AllChange(d, o.effects, e)
  }

  lemma MutateChange(cfg: Config, mem: Mem, d: Disk, id: Id, doc: Option<Payload.Contents>, ns: Names)
    requires forall x <- mem.segments :: x in d.files
    ensures OutcomeChanges(d, Mutate(cfg, mem, d, id, doc, ns.name, ns.spare), Some(Mutation(id, Row(mem.seqno + 1, doc))))
  {
    var row := Row(mem.seqno + 1, doc);
    var logged := Appended(d, Mutation(id, row));
    FlushChange(cfg, Applied(mem, id, row), logged, ns.name, ns.spare, Some(Mutation(id, row)));
    ChangeJoin(d, [logged], AfterMutation(cfg, Applied(mem, id, row), logged, ns.name, ns.spare).effects, Some(Mutation(id, row)));
  }

  lemma CheckpointChange(mem: Mem, d: Disk)
    ensures AllChange(d, Checkpoint(mem, d).effects, Some(Mark(mem.seqno)))
  {
    var logged := Appended(d, Mark(mem.seqno));
    ChangeJoin(d, [logged], [Manifested(logged, mem.segments, mem.seqno)], Some(Mark(mem.seqno)));
    assert [logged] + [Manifested(logged, mem.segments, mem.seqno)] == Checkpoint(mem, d).effects;
  }

  lemma PutIs(cfg: Config, st: State, id: Id, doc: Payload.Contents, ns: Names)
    requires forall n <- st.mem.segments :: n in st.disk.files
    ensures Do(cfg, st, Put(id, doc), ns) == Mutate(cfg, st.mem, st.disk, id, Some(doc), ns.name, ns.spare)
    ensures EntryFor(st.mem, Put(id, doc)) == Some(Mutation(id, Row(st.mem.seqno + 1, Some(doc))))
  {}

  lemma DeleteIs(cfg: Config, st: State, id: Id, ns: Names)
    requires forall n <- st.mem.segments :: n in st.disk.files
    requires id in st.mem.table && st.mem.table[id].doc.Some?
    ensures Do(cfg, st, Delete(id), ns) == Mutate(cfg, st.mem, st.disk, id, None, ns.name, ns.spare)
    ensures EntryFor(st.mem, Delete(id)) == Some(Mutation(id, Row(st.mem.seqno + 1, None)))
  {}

  lemma Transfer(d: Disk, o: Outcome, o2: Outcome, e: Option<Entry>, e2: Option<Entry>)
    requires OutcomeChanges(d, o, e) && o == o2 && e == e2
    ensures OutcomeChanges(d, o2, e2)
  {}

  lemma PutChange(cfg: Config, st: State, id: Id, doc: Payload.Contents, ns: Names)
    requires forall n <- st.mem.segments :: n in st.disk.files
    ensures OutcomeChanges(st.disk, Do(cfg, st, Put(id, doc), ns), EntryFor(st.mem, Put(id, doc)))
  {
    MutateChange(cfg, st.mem, st.disk, id, Some(doc), ns);
    PutIs(cfg, st, id, doc, ns);
    Transfer(st.disk, Mutate(cfg, st.mem, st.disk, id, Some(doc), ns.name, ns.spare), Do(cfg, st, Put(id, doc), ns),
             Some(Mutation(id, Row(st.mem.seqno + 1, Some(doc)))), EntryFor(st.mem, Put(id, doc)));
  }

  lemma DeleteChange(cfg: Config, st: State, id: Id, ns: Names)
    requires forall n <- st.mem.segments :: n in st.disk.files
    requires id in st.mem.table && st.mem.table[id].doc.Some?
    ensures OutcomeChanges(st.disk, Do(cfg, st, Delete(id), ns), EntryFor(st.mem, Delete(id)))
  {
    MutateChange(cfg, st.mem, st.disk, id, None, ns);
    DeleteIs(cfg, st, id, ns);
    Transfer(st.disk, Mutate(cfg, st.mem, st.disk, id, None, ns.name, ns.spare), Do(cfg, st, Delete(id), ns),
             Some(Mutation(id, Row(st.mem.seqno + 1, None))), EntryFor(st.mem, Delete(id)));
  }

  lemma AbsentChange(cfg: Config, st: State, id: Id, ns: Names)
    requires forall n <- st.mem.segments :: n in st.disk.files
    requires id !in st.mem.table || st.mem.table[id].doc.None?
    ensures OutcomeChanges(st.disk, Do(cfg, st, Delete(id), ns), EntryFor(st.mem, Delete(id)))
  {}

  lemma FlushOpChange(cfg: Config, st: State, ns: Names)
    requires forall n <- st.mem.segments :: n in st.disk.files
    ensures OutcomeChanges(st.disk, Do(cfg, st, FlushOp, ns), EntryFor(st.mem, FlushOp))
  {
    FlushChange(cfg, st.mem, st.disk, ns.name, ns.spare, None);
  }

  lemma CompactOpChange(cfg: Config, st: State, ns: Names)
    requires forall n <- st.mem.segments :: n in st.disk.files
    ensures OutcomeChanges(st.disk, Do(cfg, st, CompactOp, ns), EntryFor(st.mem, CompactOp))
  {
    CompactChange(st.mem, st.disk, ns.name, None);
  }

  lemma CheckpointOpChange(cfg: Config, st: State, ns: Names)
    requires forall n <- st.mem.segments :: n in st.disk.files
    ensures OutcomeChanges(st.disk, Do(cfg, st, CheckpointOp, ns), EntryFor(st.mem, CheckpointOp))
  {
    CheckpointChange(st.mem, st.disk);
  }

  lemma DoChange(cfg: Config, st: State, op: Op, ns: Names)
    requires forall n <- st.mem.segments :: n in st.disk.files
    ensures OutcomeChanges(st.disk, Do(cfg, st, op, ns), EntryFor(st.mem, op))
  {
    match op
    case Put(id, doc) => PutChange(cfg, st, id, doc, ns);
    case Delete(id) =>
      if id in st.mem.table && st.mem.table[id].doc.Some? {
        DeleteChange(cfg, st, id, ns);
      } else {
        AbsentChange(cfg, st, id, ns);
      }
    case FlushOp => FlushOpChange(cfg, st, ns);
    case CompactOp => CompactOpChange(cfg, st, ns);
    case CheckpointOp => CheckpointOpChange(cfg, st, ns);
  }

  // ------------------------------------------------ effects on the directory

  predicate Logged(effects: seq<Disk>) {
    forall d <- effects :: AllLoggable(d.wal)
  }

  /** The bytes of the file after an effect that changes the log from `wal` to `wal2`. */
  ghost function Written(c: Wal.Format, log: Codec.Bytes, wal: seq<Entry>, wal2: seq<Entry>): Codec.Bytes
    requires Wal.Total(c) && AllLoggable(wal2)
  {
    if wal2 == wal then log
    else if wal2 == [] then []
    else log + c.encode(FrameOf(wal2[|wal2| - 1]))
  }

  ghost function LogAfter(c: Wal.Format, log: Codec.Bytes, d: Disk, effects: seq<Disk>, k: nat): Codec.Bytes
    requires Wal.Total(c) && Logged(effects) && k <= |effects|
  {
    if k == 0 then log
    else Written(c, LogAfter(c, log, d, effects, k - 1), After(d, effects, k - 1).wal, effects[k - 1].wal)
  }

  /** The directory after the first `k` effects. */
  ghost function DirAfter(c: Wal.Format, b: Directory, d: Disk, effects: seq<Disk>, k: nat): Directory
    requires Wal.Total(c) && Logged(effects) && k <= |effects|
  {
    var log := LogAfter(c, b.log, d, effects, k);
    if k == 0 then b else Directory(effects[k - 1].manifest, effects[k - 1].files, log)
  }

  lemma {:induction false} AllLogged(d: Disk, effects: seq<Disk>, e: Option<Entry>, k: nat)
    requires AllChange(d, effects, e) && (e.Some? ==> Loggable(e.value)) && AllLoggable(d.wal) && k <= |effects|
    ensures AllLoggable(After(d, effects, k).wal)
  {
    if k > 0 {
      AllLogged(d, effects, e, k - 1);
      assert ChangesAt(d, effects, k - 1, e);
    }
  }

  lemma EffectsLogged(d: Disk, effects: seq<Disk>, e: Option<Entry>)
    requires AllChange(d, effects, e) && (e.Some? ==> Loggable(e.value)) && AllLoggable(d.wal)
    ensures Logged(effects)
  {
    forall i | 0 <= i < |effects| ensures AllLoggable(effects[i].wal) {
      AllLogged(d, effects, e, i + 1);
    }
  }

  /** Between effects the file is always clean. */
  lemma {:induction false} LogAfterClean(c: Wal.Format, log: Codec.Bytes, d: Disk, effects: seq<Disk>, e: Option<Entry>, k: nat)
    requires Wal.Lawful(c) && Clean(c, log, d.wal) && AllChange(d, effects, e) && (e.Some? ==> Loggable(e.value))
    requires Logged(effects) && k <= |effects|
    ensures Clean(c, LogAfter(c, log, d, effects, k), After(d, effects, k).wal)
    decreases k
  {
    if k > 0 {
      LogAfterClean(c, log, d, effects, e, k - 1);
      var before := After(d, effects, k - 1);
      assert ChangesAt(d, effects, k - 1, e);
      if effects[k - 1].wal != before.wal && effects[k - 1].wal != [] {
        CleanAppend(c, LogAfter(c, log, d, effects, k - 1), before.wal, e.value);
      }
    }
  }

  // ------------------------------------------------------------------- events

  /**
   * An operation that completes, or one that is cut off after `k` effects; if the next effect is an
   * append, `written` bytes of it have reached the file.
   */
  datatype ByteEvent = Completed(op: Op, names: Names) | Torn(op: Op, names: Names, k: nat, written: nat)

  /** Between events the file is clean and memory agrees with the directory. */
  ghost predicate Sound(c: Wal.Format, s: ByteState) {
    Wal.Lawful(c) && exists wal: seq<Entry> :: Clean(c, s.dir.log, wal) && Good(State(s.mem, Disk(s.dir.manifest, s.dir.files, wal)))
  }

  lemma SoundState(c: Wal.Format, s: ByteState)
    requires Sound(c, s)
    ensures Readable(c, s.dir.log) && Good(StateOf(c, s)) && Clean(c, s.dir.log, StateOf(c, s).disk.wal)
  {
    var wal: seq<Entry> :| Clean(c, s.dir.log, wal) && Good(State(s.mem, Disk(s.dir.manifest, s.dir.files, wal)));
    CleanReads(c, s.dir.log, wal);
  }

  ghost function StateIn(c: Wal.Format, s: ByteState): (st: State)
    requires Sound(c, s)
    ensures Readable(c, s.dir.log) && st == StateOf(c, s) && Good(st) && Clean(c, s.dir.log, st.disk.wal)
  {
    SoundState(c, s);
    StateOf(c, s)
  }

  ghost function Effects(c: Wal.Format, cfg: Config, s: ByteState, op: Op, ns: Names): (effects: seq<Disk>)
    requires Sound(c, s) && Fits(s.mem, op)
    ensures AllChange(StateIn(c, s).disk, effects, EntryFor(s.mem, op)) && Logged(effects)
  {
    var st := StateIn(c, s);
    DoChange(cfg, st, op, ns);
    var effects := Do(cfg, st, op, ns).effects;
    EffectsLogged(st.disk, effects, EntryFor(s.mem, op));
    effects
  }

  /** The effect after the first `k` appends to the log. */
  predicate Appends(d: Disk, effects: seq<Disk>, k: nat) {
    k < |effects| && |effects[k].wal| > |After(d, effects, k).wal|
  }

  /** The bytes that the effect after the first `k` appends. */
  ghost function Code(c: Wal.Format, effects: seq<Disk>, k: nat): Codec.Bytes
    requires Wal.Total(c) && Logged(effects) && k < |effects| && effects[k].wal != []
  {
    c.encode(FrameOf(effects[k].wal[|effects[k].wal| - 1]))
  }

  ghost predicate ByteLegal(c: Wal.Format, cfg: Config, s: ByteState, e: ByteEvent)
    requires Sound(c, s)
  {
    && Fresh(StateIn(c, s).disk, e.names) && Fits(s.mem, e.op)
    && (e.Torn? ==>
          var effects, d := Effects(c, cfg, s, e.op, e.names), StateIn(c, s).disk;
          && e.k <= |effects|
          && (e.written > 0 ==> Appends(d, effects, e.k) && e.written <= |Code(c, effects, e.k)|))
  }

  /** The directory a crash leaves: the effects that happened, and a part of the next. */
  ghost function Crashed(c: Wal.Format, cfg: Config, s: ByteState, e: ByteEvent): Directory
    requires Sound(c, s) && ByteLegal(c, cfg, s, e) && e.Torn?
  {
    var effects := Effects(c, cfg, s, e.op, e.names);
    var b := DirAfter(c, s.dir, StateIn(c, s).disk, effects, e.k);
    if e.written == 0 then b else b.(log := b.log + Code(c, effects, e.k)[..e.written])
  }

  /** The event of the store on entries that a byte event comes down to: an append is done with its last byte. */
  ghost function Whole(c: Wal.Format, cfg: Config, s: ByteState, e: ByteEvent): (w: Event)
    requires Sound(c, s) && ByteLegal(c, cfg, s, e)
    ensures Legal(cfg, StateIn(c, s), w) && w.op == e.op && w.names == e.names && (w.Crash? <==> e.Torn?)
  {
    match e
    case Completed(op, names) => Done(op, names)
    case Torn(op, names, k, written) =>
      if written > 0 && written == |Code(c, Effects(c, cfg, s, op, names), k)| then Crash(op, names, k + 1) else Crash(op, names, k)
  }

  lemma EffectsAre(c: Wal.Format, cfg: Config, s: ByteState, op: Op, ns: Names)
    requires Sound(c, s) && Fits(s.mem, op) && Fresh(StateIn(c, s).disk, ns)
    ensures Effects(c, cfg, s, op, ns) == Do(cfg, StateIn(c, s), op, ns).effects
    ensures AllShow(Effects(c, cfg, s, op, ns), Meant(ViewOf(StateIn(c, s).disk), op))
  {
    DoCorrect(cfg, StateIn(c, s), op, ns);
  }

  /** The directory after some whole effects reads as the one that the store on entries has there. */
  lemma DirReads(c: Wal.Format, cfg: Config, s: ByteState, op: Op, ns: Names, k: nat)
    requires Sound(c, s) && Fits(s.mem, op) && Fresh(StateIn(c, s).disk, ns) && k <= |Effects(c, cfg, s, op, ns)|
    ensures
      var b := DirAfter(c, s.dir, StateIn(c, s).disk, Effects(c, cfg, s, op, ns), k);
      var d := After(StateIn(c, s).disk, Effects(c, cfg, s, op, ns), k);
      && d == Cut(cfg, StateIn(c, s), op, ns, k)
      && Clean(c, b.log, d.wal) && Readable(c, b.log) && DiskOf(c, b) == d && Wal.IntactLength(c, b.log) == |b.log|
  {
    var st, effects := StateIn(c, s), Effects(c, cfg, s, op, ns);
    EffectsAre(c, cfg, s, op, ns);
    LogAfterClean(c, s.dir.log, st.disk, effects, EntryFor(s.mem, op), k);
    CleanReads(c, LogAfter(c, s.dir.log, st.disk, effects, k), After(st.disk, effects, k).wal);
  }

  /** A part of an append, behind a clean file. */
  lemma TornAppend(c: Wal.Format, b: Directory, d: Disk, effects: seq<Disk>, entry: Option<Entry>, k: nat, written: nat)
    requires Wal.Lawful(c) && AllChange(d, effects, entry) && Logged(effects) && Appends(d, effects, k)
    requires written <= |Code(c, effects, k)| && Clean(c, b.log, After(d, effects, k).wal)
    requires b.manifest == After(d, effects, k).manifest && b.files == After(d, effects, k).files
    ensures
      var b2 := b.(log := b.log + Code(c, effects, k)[..written]);
      var d2 := if written == |Code(c, effects, k)| then effects[k] else After(d, effects, k);
      && Readable(c, b2.log) && DiskOf(c, b2) == d2 && Wal.IntactLength(c, b2.log) <= |b2.log|
      && Clean(c, b2.log[..Wal.IntactLength(c, b2.log)], d2.wal)
  {
    var before := After(d, effects, k);
    assert ChangesAt(d, effects, k, entry);
    assert effects[k].wal == before.wal + [entry.value] && entry.value in effects[k].wal;
    TornReads(c, b.log, before.wal, entry.value, written);
  }

  /**
   * Whatever a crash leaves, at any byte: recovery finds the entries logged before the operation, or
   * after it if the last byte was written, and cuts the file to exactly these.
   */
  lemma CrashReads(c: Wal.Format, cfg: Config, s: ByteState, e: ByteEvent)
    requires Sound(c, s) && ByteLegal(c, cfg, s, e) && e.Torn?
    ensures
      var b := Crashed(c, cfg, s, e);
      var d := Cut(cfg, StateIn(c, s), e.op, e.names, Whole(c, cfg, s, e).k);
      && Readable(c, b.log) && DiskOf(c, b) == d && Wal.IntactLength(c, b.log) <= |b.log|
      && Clean(c, b.log[..Wal.IntactLength(c, b.log)], d.wal)
  {
    WholeCut(c, cfg, s, e);
    DirReads(c, cfg, s, e.op, e.names, e.k);
    var b := DirAfter(c, s.dir, StateIn(c, s).disk, Effects(c, cfg, s, e.op, e.names), e.k);
    if e.written == 0 {
      assert b.log[..|b.log|] == b.log;
    } else {
      TornReadsAs(c, cfg, s, e, b);
    }
  }

  lemma CutIs(c: Wal.Format, cfg: Config, s: ByteState, op: Op, ns: Names, k: nat)
    requires Sound(c, s) && Fits(s.mem, op) && Fresh(StateIn(c, s).disk, ns) && k <= |Effects(c, cfg, s, op, ns)|
    ensures k <= |Do(cfg, StateIn(c, s), op, ns).effects|
    ensures Cut(cfg, StateIn(c, s), op, ns, k) == After(StateIn(c, s).disk, Effects(c, cfg, s, op, ns), k)
  {
    EffectsAre(c, cfg, s, op, ns);
  }

  lemma WholeCut(c: Wal.Format, cfg: Config, s: ByteState, e: ByteEvent)
    requires Sound(c, s) && ByteLegal(c, cfg, s, e) && e.Torn?
    ensures
      var st, effects := StateIn(c, s), Effects(c, cfg, s, e.op, e.names);
      Cut(cfg, st, e.op, e.names, Whole(c, cfg, s, e).k) ==
      if e.written > 0 && e.written == |Code(c, effects, e.k)| then effects[e.k] else After(st.disk, effects, e.k)
  {
    CutIs(c, cfg, s, e.op, e.names, Whole(c, cfg, s, e).k);
  }

  lemma TornReadsAs(c: Wal.Format, cfg: Config, s: ByteState, e: ByteEvent, b: Directory)
    requires Sound(c, s) && ByteLegal(c, cfg, s, e) && e.Torn? && e.written > 0
    requires b == DirAfter(c, s.dir, StateIn(c, s).disk, Effects(c, cfg, s, e.op, e.names), e.k)
    requires Clean(c, b.log, After(StateIn(c, s).disk, Effects(c, cfg, s, e.op, e.names), e.k).wal)
    ensures
      var effects := Effects(c, cfg, s, e.op, e.names);
      var b2 := b.(log := b.log + Code(c, effects, e.k)[..e.written]);
      var d := if e.written == |Code(c, effects, e.k)| then effects[e.k] else After(StateIn(c, s).disk, effects, e.k);
      && Readable(c, b2.log) && DiskOf(c, b2) == d && Wal.IntactLength(c, b2.log) <= |b2.log|
      && Clean(c, b2.log[..Wal.IntactLength(c, b2.log)], d.wal)
  {
    TornAppend(c, b, StateIn(c, s).disk, Effects(c, cfg, s, e.op, e.names), EntryFor(s.mem, e.op), e.k, e.written);
  }

  /** The new state: what the operation leaves, or what opening the directory after the crash gives. */
  ghost function ByteStep(c: Wal.Format, cfg: Config, s: ByteState, e: ByteEvent): ByteState
    requires Sound(c, s) && ByteLegal(c, cfg, s, e)
  {
    match e
    case Completed(op, names) =>
      var st, effects := StateIn(c, s), Effects(c, cfg, s, op, names);
      ByteState(Do(cfg, st, op, names).mem, DirAfter(c, s.dir, st.disk, effects, |effects|))
    case Torn(op, names, k, written) =>
      CrashReads(c, cfg, s, e);
      Reopened(c, Crashed(c, cfg, s, e))
  }

  /** A step on bytes is the step on entries that it comes down to. */
  lemma StepComesDown(c: Wal.Format, cfg: Config, s: ByteState, e: ByteEvent)
    requires Sound(c, s) && ByteLegal(c, cfg, s, e)
    ensures Sound(c, ByteStep(c, cfg, s, e))
    ensures StateIn(c, ByteStep(c, cfg, s, e)) == Step(cfg, StateIn(c, s), Whole(c, cfg, s, e))
  {
    var next, st2 := ByteStep(c, cfg, s, e), Step(cfg, StateIn(c, s), Whole(c, cfg, s, e));
    EffectsAre(c, cfg, s, e.op, e.names);
    match e
    case Completed(op, names) => DirReads(c, cfg, s, op, names, |Effects(c, cfg, s, op, names)|);
    case Torn(op, names, k, written) => CrashReads(c, cfg, s, e);
    assert Clean(c, next.dir.log, st2.disk.wal) && next.mem == st2.mem;
    assert Disk(next.dir.manifest, next.dir.files, st2.disk.wal) == st2.disk;
    CleanReads(c, next.dir.log, st2.disk.wal);
  }

  // --------------------------------------------------------------------- runs

  function Created(): ByteState {
    ByteState(Opened().mem, Directory(Opened().disk.manifest, Opened().disk.files, []))
  }

  ghost predicate ByteNext(c: Wal.Format, cfg: Config, s: ByteState, e: ByteEvent, s2: ByteState) {
    Sound(c, s) && ByteLegal(c, cfg, s, e) && s2 == ByteStep(c, cfg, s, e)
  }

  /** From an empty directory, event by event.  Every step leads to a sound state, so `Sound` excludes no run. */
  ghost predicate ByteTrace(c: Wal.Format, cfg: Config, ss: seq<ByteState>, es: seq<ByteEvent>) {
    && |ss| == |es| + 1 && ss[0] == Created()
    && forall i | 0 <= i < |es| :: ByteNext(c, cfg, ss[i], es[i], ss[i + 1])
  }

  lemma CreatedSound(c: Wal.Format)
    requires Wal.Lawful(c)
    ensures Sound(c, Created()) && StateIn(c, Created()) == Opened()
  {
    assert FramesOf([]) == [];
    assert Clean(c, [], []);
    CleanReads(c, [], []);
    assert Disk(Created().dir.manifest, Created().dir.files, []) == Opened().disk;
  }

  lemma {:induction false} ByteTraceSound(c: Wal.Format, cfg: Config, ss: seq<ByteState>, es: seq<ByteEvent>, n: nat)
    requires Wal.Lawful(c) && ByteTrace(c, cfg, ss, es) && n <= |es|
    ensures Sound(c, ss[n])
    decreases n
  {
    if n == 0 {
      CreatedSound(c);
    } else {
      ByteTraceSound(c, cfg, ss, es, n - 1);
      assert ByteNext(c, cfg, ss[n - 1], es[n - 1], ss[n]);
      StepComesDown(c, cfg, ss[n - 1], es[n - 1]);
    }
  }

  /** What readers see. */
  function Visible(s: ByteState): View { Live(s.mem.table) }

  /**
   * Crash refinement down to bytes: over any run of operations from an empty directory, with crashes
   * between any two effects and after any byte of an append, what readers see evolves as a plain map.
   * A completed operation happens; a crashed one happens or does not.
   */
  lemma ByteRefinement(c: Wal.Format, cfg: Config, ss: seq<ByteState>, es: seq<ByteEvent>)
    requires Wal.Lawful(c) && ByteTrace(c, cfg, ss, es)
    ensures Visible(ss[0]) == map[]
    ensures forall i | 0 <= i < |es| ::
      Visible(ss[i + 1]) == Meant(Visible(ss[i]), es[i].op) || (es[i].Torn? && Visible(ss[i + 1]) == Visible(ss[i]))
  {
    forall i | 0 <= i < |es|
      ensures Visible(ss[i + 1]) == Meant(Visible(ss[i]), es[i].op) || (es[i].Torn? && Visible(ss[i + 1]) == Visible(ss[i]))
    {
      assert ByteNext(c, cfg, ss[i], es[i], ss[i + 1]);
      StepComesDown(c, cfg, ss[i], es[i]);
      StepRefines(cfg, StateIn(c, ss[i]), Whole(c, cfg, ss[i], es[i]));
    }
  }

  /** At every point of every run, opening the directory again shows what readers see and leaves the file as it is. */
  lemma ReopeningChangesNothing(c: Wal.Format, cfg: Config, ss: seq<ByteState>, es: seq<ByteEvent>, n: nat)
    requires Wal.Lawful(c) && ByteTrace(c, cfg, ss, es) && n <= |es|
    ensures
      var s := ss[n];
      && Readable(c, s.dir.log) && Wal.IntactLength(c, s.dir.log) <= |s.dir.log| && Present(DiskOf(c, s.dir))
      && var again := Reopened(c, s.dir);
      && Visible(again) == Visible(s) && again.dir == s.dir && again.mem.seqno == s.mem.seqno
      && again.mem.memtable == s.mem.memtable && again.mem.segments == s.mem.segments
  {
    ByteTraceSound(c, cfg, ss, es, n);
    var s := ss[n];
    var st := StateIn(c, s);
    CleanReads(c, s.dir.log, st.disk.wal);
    RecoverAgain(st);
    assert s.dir.log[..|s.dir.log|] == s.dir.log;
  }
}
