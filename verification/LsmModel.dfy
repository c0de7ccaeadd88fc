/** The LSM store as values: memory, disk, and every operation as a list of atomic disk effects (storage/lsm.py). */
module LsmModel {
  import opened Options
  import Codec
  import opened Payload

  type Id = Codec.Bytes
  type Name = nat

  /** What is kept of a document: its sequence number, and its contents unless it is a tombstone. */
  datatype Row = Row(seqno: nat, doc: Option<Contents>)

  type Table = map<Id, Row>

  /** A frame of the log: a mutation, or a mark that only carries a sequence number. */
  datatype Entry = Mutation(id: Id, row: Row) | Mark(seqno: nat)

  datatype Manifest = Manifest(segments: seq<Name>, seqno: nat)

  /** The directory.  A missing manifest reads as no segments and sequence number 0. */
  datatype Disk = Disk(manifest: Manifest, files: map<Name, Table>, wal: seq<Entry>)

  datatype Mem = Mem(table: Table, memtable: Table, segments: seq<Name>, seqno: nat)

  datatype State = State(mem: Mem, disk: Disk)

  datatype Config = Config(memtableMax: nat, compactionTrigger: nat)

  // --------------------------------------------------------------- recovery

  function ApplyRow(t: Table, id: Id, row: Row): Table {
    if id !in t || row.seqno >= t[id].seqno then t[id := row] else t
  }

  function Newer(t: Table, s: Table, id: Id): Row
    requires id in t.Keys + s.Keys
  {
    if id !in t || (id in s && s[id].seqno >= t[id].seqno) then s[id] else t[id]
  }

  /** `t` after the rows of segment `s` have been applied to it, in any order. */
  function Overlay(t: Table, s: Table): Table {
    map id | id in t.Keys + s.Keys :: Newer(t, s, id)
  }

  predicate Present(d: Disk) {
    forall n <- d.manifest.segments :: n in d.files
  }

  /** The merged rows of some segments, oldest first. */
  function Merge(files: map<Name, Table>, names: seq<Name>): Table
    requires forall n <- names :: n in files
  {
    if names == [] then map[]
    else Overlay(Merge(files, names[..|names| - 1]), files[names[|names| - 1]])
  }

  /** The table after the log has been replayed on `t`. */
  function Replayed(t: Table, wal: seq<Entry>): Table {
    if wal == [] then t
    else
      var before := Replayed(t, wal[..|wal| - 1]);
      match wal[|wal| - 1] case Mutation(id, row) => ApplyRow(before, id, row) case Mark(_) => before
  }

  /** The memtable the log rebuilds. */
  function Pending(wal: seq<Entry>): Table {
    if wal == [] then map[]
    else
      var before := Pending(wal[..|wal| - 1]);
      match wal[|wal| - 1] case Mutation(id, row) => before[id := row] case Mark(_) => before
  }

  function SeqnoOf(e: Entry): nat {
    match e case Mutation(_, row) => row.seqno case Mark(s) => s
  }

  function MaxSeqno(start: nat, wal: seq<Entry>): nat {
    if wal == [] then start else Max(MaxSeqno(start, wal[..|wal| - 1]), SeqnoOf(wal[|wal| - 1]))
  }

  function Base(d: Disk): Table
    requires Present(d)
  {
    Merge(d.files, d.manifest.segments)
  }

  function Recover(d: Disk): Mem
    requires Present(d)
  {
    Mem(Replayed(Base(d), d.wal), Pending(d.wal), d.manifest.segments, MaxSeqno(d.manifest.seqno, d.wal))
  }

  /** What a reader sees: the documents that are not tombstones. */
  function Live(t: Table): map<Id, Contents> {
    map id | id in t && t[id].doc.Some? :: t[id].doc.value
  }

  // ------------------------------------------------- operations, as effects

  /** The memory an operation leaves and the directory after each of its atomic effects. */
  datatype Outcome = Outcome(mem: Mem, effects: seq<Disk>)

  function Last(d: Disk, effects: seq<Disk>): Disk {
    if effects == [] then d else effects[|effects| - 1]
  }

  function Manifested(d: Disk, segments: seq<Name>, seqno: nat): Disk {
    d.(manifest := Manifest(segments, seqno))
  }

  function LiveRows(t: Table): Table {
    map id | id in t && t[id].doc.Some? :: t[id]
  }

  /** The directory after each unlink of the segments in `stale`. */
  function Unlinks(d: Disk, stale: seq<Name>): seq<Disk>
    decreases |stale|
  {
    if stale == [] then []
    else
      var next := d.(files := d.files - {stale[0]});
      [next] + Unlinks(next, stale[1..])
  }

  function Compact(mem: Mem, d: Disk, name: Name): Outcome
    requires forall n <- mem.segments :: n in d.files
  {
    if |mem.segments| < 2 then Outcome(mem, [])
    else
      var written := d.(files := d.files[name := LiveRows(Merge(d.files, mem.segments))]);
      var listed := Manifested(written, [name], mem.seqno);
      Outcome(mem.(segments := [name]), [written, listed] + Unlinks(listed, mem.segments))
  }

  function Flush(cfg: Config, mem: Mem, d: Disk, name: Name, spare: Name): Outcome
    requires forall n <- mem.segments :: n in d.files
  {
    if mem.memtable == map[] then Outcome(mem, [])
    else
      var written := d.(files := d.files[name := mem.memtable]);
      var listed := Manifested(written, mem.segments + [name], mem.seqno);
      var rotated := listed.(wal := []);
      var flushed := mem.(segments := mem.segments + [name], memtable := map[]);
      if |flushed.segments| < cfg.compactionTrigger then Outcome(flushed, [written, listed, rotated])
      else
        var rest := Compact(flushed, rotated, spare);
        Outcome(rest.mem, [written, listed, rotated] + rest.effects)
  }

  function AfterMutation(cfg: Config, mem: Mem, d: Disk, name: Name, spare: Name): Outcome
    requires forall n <- mem.segments :: n in d.files
  {
    if |mem.memtable| < cfg.memtableMax then Outcome(mem, []) else Flush(cfg, mem, d, name, spare)
  }

  function Appended(d: Disk, e: Entry): Disk {
    d.(wal := d.wal + [e])
  }

  function Applied(mem: Mem, id: Id, row: Row): Mem {
    mem.(table := ApplyRow(mem.table, id, row), memtable := mem.memtable[id := row], seqno := row.seqno)
  }

  function Mutate(cfg: Config, mem: Mem, d: Disk, id: Id, doc: Option<Contents>, name: Name, spare: Name): Outcome
    requires forall n <- mem.segments :: n in d.files
  {
    var row := Row(mem.seqno + 1, doc);
    var logged := Appended(d, Mutation(id, row));
    var rest := AfterMutation(cfg, Applied(mem, id, row), logged, name, spare);
    Outcome(rest.mem, [logged] + rest.effects)
  }

  function Checkpoint(mem: Mem, d: Disk): Outcome {
    var logged := Appended(d, Mark(mem.seqno));
    Outcome(mem, [logged, Manifested(logged, mem.segments, mem.seqno)])
  }

  datatype Op = Put(id: Id, doc: Contents) | Delete(id: Id) | FlushOp | CompactOp | CheckpointOp

  /** Names for the segments an operation may create; the clock that makes them is not modelled. */
  datatype Names = Names(name: Name, spare: Name)

  predicate Fresh(d: Disk, ns: Names) {
    ns.name !in d.files && ns.spare !in d.files && ns.name != ns.spare
  }

  function Do(cfg: Config, st: State, op: Op, ns: Names): Outcome
    requires forall n <- st.mem.segments :: n in st.disk.files
  {
    match op
    case Put(id, doc) => Mutate(cfg, st.mem, st.disk, id, Some(doc), ns.name, ns.spare)
    case Delete(id) =>
      if id !in st.mem.table || st.mem.table[id].doc.None? then Outcome(st.mem, [])
      else Mutate(cfg, st.mem, st.disk, id, None, ns.name, ns.spare)
    case FlushOp => Flush(cfg, st.mem, st.disk, ns.name, ns.spare)
    case CompactOp => Compact(st.mem, st.disk, ns.name)
    case CheckpointOp => Checkpoint(st.mem, st.disk)
  }

  // ------------------------------------------------------------ the plain map

  type View = map<Id, Contents>

  /** What an operation is meant to do. */
  function Meant(v: View, op: Op): View {
    match op
    case Put(id, doc) => v[id := doc]
    case Delete(id) => v - {id}
    case _ => v
  }

  /** An operation that completes, or one that is cut off by a crash after `k` of its effects and recovered from. */
  datatype Event = Done(op: Op, names: Names) | Crash(op: Op, names: Names, k: nat)
}
