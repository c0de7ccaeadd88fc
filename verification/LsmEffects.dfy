/**
 * What the operations of the store achieve, beyond keeping what readers see: a flush empties the
 * memtable and the log into a segment, a compaction leaves one segment with the newest live rows, and
 * without crashes both memtable and segments stay bounded.
 */
module LsmEffects {
  import opened Options
  import opened Payload
  import opened LsmModel
  import opened LsmRuns

  // ------------------------------------------------------------- the newest row

  /** Segment `i` holds the newest row of the id: no other is newer, and no later one as new. */
  predicate NewestAt(files: map<Name, Table>, names: seq<Name>, id: Id, i: nat)
    requires forall n <- names :: n in files
  {
    && i < |names| && id in files[names[i]]
    && forall j | 0 <= j < |names| && id in files[names[j]] ::
         && files[names[j]][id].seqno <= files[names[i]][id].seqno
         && (i < j ==> files[names[j]][id].seqno < files[names[i]][id].seqno)
  }

  predicate Somewhere(files: map<Name, Table>, names: seq<Name>, id: Id)
    requires forall n <- names :: n in files
  {
    exists i | 0 <= i < |names| :: id in files[names[i]]
  }

  /** Merging keeps, of every id in some segment, the newest row, and no other id. */
  lemma {:induction false} MergeNewest(files: map<Name, Table>, names: seq<Name>, id: Id)
    requires forall n <- names :: n in files
    ensures id in Merge(files, names) <==> Somewhere(files, names, id)
    ensures id in Merge(files, names) ==> exists i: nat :: NewestAt(files, names, id, i) && Merge(files, names)[id] == files[names[i]][id]
    decreases |names|
  {
    if names != [] {
      var n := |names| - 1;
      var init, s := names[..n], files[names[n]];
      MergeNewest(files, init, id);
      if id in s && (id !in Merge(files, init) || s[id].seqno >= Merge(files, init)[id].seqno) {
        LastNewest(files, names, id);
      } else if id in Merge(files, init) {
        var i: nat :| NewestAt(files, init, id, i) && Merge(files, init)[id] == files[init[i]][id];
        StaysNewest(files, names, id, i);
      }
    }
  }

  lemma LastNewest(files: map<Name, Table>, names: seq<Name>, id: Id)
    requires names != [] && forall n <- names :: n in files
    requires
      var n := |names| - 1;
      id in files[names[n]] &&
      (Somewhere(files, names[..n], id) ==>
         exists i: nat :: NewestAt(files, names[..n], id, i) && files[names[..n][i]][id].seqno <= files[names[n]][id].seqno)
    ensures NewestAt(files, names, id, |names| - 1)
  {
    var n := |names| - 1;
    forall j | 0 <= j < |names| && id in files[names[j]] ensures files[names[j]][id].seqno <= files[names[n]][id].seqno {
      if j < n {
        assert id in files[names[..n][j]];
      }
    }
  }

  lemma StaysNewest(files: map<Name, Table>, names: seq<Name>, id: Id, i: nat)
    requires names != [] && forall n <- names :: n in files
    requires NewestAt(files, names[..|names| - 1], id, i)
    requires
      var s := files[names[|names| - 1]];
      id in s ==> s[id].seqno < files[names[i]][id].seqno
    ensures NewestAt(files, names, id, i)
  {
    var init := names[..|names| - 1];
    forall j | 0 <= j < |names| && id in files[names[j]]
      ensures files[names[j]][id].seqno <= files[names[i]][id].seqno && (i < j ==> files[names[j]][id].seqno < files[names[i]][id].seqno)
    {
      if j < |names| - 1 {
        assert id in files[init[j]];
      }
    }
  }

  // --------------------------------------------------------------- compaction

  /** `rows` are the newest rows of the named segments, without the tombstones. */
  ghost predicate NewestLive(files: map<Name, Table>, names: seq<Name>, rows: Table)
    requires forall n <- names :: n in files
  {
    && (forall id <- rows :: rows[id].doc.Some? && exists i: nat :: NewestAt(files, names, id, i) && files[names[i]][id] == rows[id])
    && forall id, i: nat | NewestAt(files, names, id, i) && files[names[i]][id].doc.Some? :: id in rows
  }

  lemma MergedLive(files: map<Name, Table>, names: seq<Name>)
    requires forall n <- names :: n in files
    ensures NewestLive(files, names, LiveRows(Merge(files, names)))
  {
    var rows := LiveRows(Merge(files, names));
    forall id <- rows ensures exists i: nat :: NewestAt(files, names, id, i) && files[names[i]][id] == rows[id] {
      MergeNewest(files, names, id);
    }
    forall id, i: nat | NewestAt(files, names, id, i) && files[names[i]][id].doc.Some? ensures id in rows {
      MergeNewest(files, names, id);
      assert id in files[names[i]];
      var j: nat :| NewestAt(files, names, id, j) && Merge(files, names)[id] == files[names[j]][id];
    }
  }

  /** The directory has one listed segment for the old ones, whose files are gone; other files and the log stay. */
  ghost predicate Compacted(files: map<Name, Table>, names: seq<Name>, wal: seq<Entry>, name: Name, seqno: nat, d: Disk)
    requires forall n <- names :: n in files
  {
    && d.manifest == Manifest([name], seqno) && d.wal == wal
    && (forall n :: n in d.files <==> n == name || (n in files && n !in names))
    && (forall n <- d.files | n != name :: d.files[n] == files[n])
    && NewestLive(files, names, d.files[name])
  }

  lemma {:induction false} UnlinksGone(d: Disk, stale: seq<Name>)
    ensures
      var after := Last(d, Unlinks(d, stale));
      && after.manifest == d.manifest && after.wal == d.wal
      && (forall n :: n in after.files <==> n in d.files && n !in stale)
      && forall n <- after.files :: after.files[n] == d.files[n]
    decreases |stale|
  {
    if stale != [] {
      var next, rest := d.(files := d.files - {stale[0]}), stale[1..];
      UnlinksGone(next, rest);
      assert stale == [stale[0]] + rest;
      assert Last(d, [next] + Unlinks(next, rest)) == Last(next, Unlinks(next, rest));
    }
  }

  /** A completed compaction of two or more segments; with fewer there is nothing to do. */
  lemma CompactAchieves(mem: Mem, d: Disk, name: Name)
    requires (forall n <- mem.segments :: n in d.files) && name !in d.files
    ensures
      var o := Compact(mem, d, name);
      var after := Last(d, o.effects);
      && o.mem.table == mem.table && o.mem.memtable == mem.memtable && o.mem.seqno == mem.seqno
      && (|mem.segments| < 2 ==> o.mem.segments == mem.segments && after == d)
      && (|mem.segments| >= 2 ==> o.mem.segments == [name] && Compacted(d.files, mem.segments, d.wal, name, mem.seqno, after))
  {
    if |mem.segments| >= 2 {
      var written := d.(files := d.files[name := LiveRows(Merge(d.files, mem.segments))]);
      var listed := Manifested(written, [name], mem.seqno);
      MergedLive(d.files, mem.segments);
      UnlinksGone(listed, mem.segments);
      var rest := Unlinks(listed, mem.segments);
      assert Last(d, [written, listed] + rest) == Last(listed, rest);
    }
  }

  // -------------------------------------------------------------------- flush

  /** Too few segments for a compaction, or for there to be anything to compact. */
  predicate Few(cfg: Config, segments: seq<Name>) {
    |segments| < cfg.compactionTrigger || |segments| < 2
  }

  /**
   * The memtable `m` has become a segment and the log is empty: the segment is listed after the old
   * ones, or, if that makes as many as trigger a compaction, in one segment together with them.
   */
  ghost predicate Flushed(cfg: Config, mem: Mem, d: Disk, ns: Names, mem2: Mem, d2: Disk)
    requires forall n <- mem.segments :: n in d.files
  {
    && mem2.table == mem.table && mem2.memtable == map[] && mem2.seqno == mem.seqno
    && d2.manifest == Manifest(mem2.segments, mem.seqno) && d2.wal == []
    && if Few(cfg, mem.segments + [ns.name]) then
         mem2.segments == mem.segments + [ns.name] && d2.files == d.files[ns.name := mem.memtable]
       else
         mem2.segments == [ns.spare] && Compacted(d.files[ns.name := mem.memtable], mem.segments + [ns.name], [], ns.spare, mem.seqno, d2)
  }

  lemma FlushAchieves(cfg: Config, mem: Mem, d: Disk, ns: Names)
    requires (forall n <- mem.segments :: n in d.files) && Fresh(d, ns)
    ensures
      var o := Flush(cfg, mem, d, ns.name, ns.spare);
      if mem.memtable == map[] then o.mem == mem && o.effects == []
      else Flushed(cfg, mem, d, ns, o.mem, Last(d, o.effects))
  {
    if mem.memtable != map[] {
      var written := d.(files := d.files[ns.name := mem.memtable]);
      var listed := Manifested(written, mem.segments + [ns.name], mem.seqno);
      var rotated := listed.(wal := []);
      var flushed := mem.(segments := mem.segments + [ns.name], memtable := map[]);
      if |flushed.segments| >= cfg.compactionTrigger {
        CompactAchieves(flushed, rotated, ns.spare);
        var rest := Compact(flushed, rotated, ns.spare);
        assert Last(d, [written, listed, rotated] + rest.effects) == Last(rotated, rest.effects);
        FlushedBy(cfg, mem, d, ns, rest.mem, Last(rotated, rest.effects));
      }
    }
  }

  /** A flush that has gone on to compact, if there is anything to compact. */
  lemma FlushedBy(cfg: Config, mem: Mem, d: Disk, ns: Names, mem2: Mem, d2: Disk)
    requires (forall n <- mem.segments :: n in d.files) && |mem.segments| + 1 >= cfg.compactionTrigger
    requires mem2.table == mem.table && mem2.memtable == map[] && mem2.seqno == mem.seqno
    requires
      var names, files := mem.segments + [ns.name], d.files[ns.name := mem.memtable];
      if |names| < 2 then mem2.segments == names && d2 == Disk(Manifest(names, mem.seqno), files, [])
      else mem2.segments == [ns.spare] && Compacted(files, names, [], ns.spare, mem.seqno, d2)
    ensures Flushed(cfg, mem, d, ns, mem2, d2)
  {}

  // ---------------------------------------------------------------- mutations

  /**
   * A completed mutation draws the next number and logs one frame with it, last in the log.  It ends
   * there while the memtable is below its bound; at the bound it ends flushed.
   */
  ghost predicate Mutated(cfg: Config, mem: Mem, d: Disk, id: Id, doc: Option<Contents>, ns: Names, mem2: Mem, d2: Disk)
    requires forall n <- mem.segments :: n in d.files
  {
    var row := Row(mem.seqno + 1, doc);
    var pending, logged := mem.memtable[id := row], d.wal + [Mutation(id, row)];
    var m, e := Mem(mem2.table, pending, mem.segments, mem.seqno + 1), Disk(d.manifest, d.files, logged);
    && mem2.seqno == mem.seqno + 1
    && (forall k :: k in mem2.table <==> k == id || k in mem.table)
    && (forall k <- mem.table | k != id :: mem2.table[k] == mem.table[k])
    && (mem2.table[id] == row || (id in mem.table && mem.table[id].seqno > row.seqno && mem2.table[id] == mem.table[id]))
    && if |pending| < cfg.memtableMax then mem2 == m && d2 == e else Flushed(cfg, m, e, ns, mem2, d2)
  }

  lemma AfterAchieves(cfg: Config, mem: Mem, d: Disk, ns: Names)
    requires (forall n <- mem.segments :: n in d.files) && Fresh(d, ns) && mem.memtable != map[]
    ensures
      var o := AfterMutation(cfg, mem, d, ns.name, ns.spare);
      if |mem.memtable| < cfg.memtableMax then o.mem == mem && o.effects == []
      else Flushed(cfg, mem, d, ns, o.mem, Last(d, o.effects))
  {
    FlushAchieves(cfg, mem, d, ns);
  }

  lemma MutateAchieves(cfg: Config, mem: Mem, d: Disk, id: Id, doc: Option<Contents>, ns: Names)
    requires (forall n <- mem.segments :: n in d.files) && Fresh(d, ns)
    ensures
      var o := Mutate(cfg, mem, d, id, doc, ns.name, ns.spare);
      Mutated(cfg, mem, d, id, doc, ns, o.mem, Last(d, o.effects))
  {
    var row := Row(mem.seqno + 1, doc);
    var applied, logged := Applied(mem, id, row), Appended(d, Mutation(id, row));
    assert id in applied.memtable;
    AfterAchieves(cfg, applied, logged, ns);
    var rest := AfterMutation(cfg, applied, logged, ns.name, ns.spare);
    assert Last(d, [logged] + rest.effects) == Last(logged, rest.effects);
    MutatedBy(cfg, mem, d, id, doc, ns, rest.mem, Last(logged, rest.effects));
  }

  lemma MutatedBy(cfg: Config, mem: Mem, d: Disk, id: Id, doc: Option<Contents>, ns: Names, mem2: Mem, d2: Disk)
    requires forall n <- mem.segments :: n in d.files
    requires
      var row := Row(mem.seqno + 1, doc);
      var applied, logged := Applied(mem, id, row), Appended(d, Mutation(id, row));
      if |applied.memtable| < cfg.memtableMax then mem2 == applied && d2 == logged
      else Flushed(cfg, applied, logged, ns, mem2, d2)
    ensures Mutated(cfg, mem, d, id, doc, ns, mem2, d2)
  {
    assert mem2.table == ApplyRow(mem.table, id, Row(mem.seqno + 1, doc));
    if |Applied(mem, id, Row(mem.seqno + 1, doc)).memtable| >= cfg.memtableMax {
      assert Applied(mem, id, Row(mem.seqno + 1, doc)) ==
             Mem(mem2.table, mem.memtable[id := Row(mem.seqno + 1, doc)], mem.segments, mem.seqno + 1);
    }
  }

  /** After a completed mutation the memtable is below its bound. */
  lemma MutatedBelow(cfg: Config, mem: Mem, d: Disk, id: Id, doc: Option<Contents>, ns: Names, mem2: Mem, d2: Disk)
    requires (forall n <- mem.segments :: n in d.files) && Mutated(cfg, mem, d, id, doc, ns, mem2, d2)
    ensures cfg.memtableMax > 0 ==> |mem2.memtable| < cfg.memtableMax
  {}

  // --------------------------------------------------------- every operation

  /** What a completed operation has achieved. */
  ghost predicate Achieved(cfg: Config, st: State, op: Op, ns: Names, st2: State)
    requires forall n <- st.mem.segments :: n in st.disk.files
  {
    match op
    case Put(id, doc) => Mutated(cfg, st.mem, st.disk, id, Some(doc), ns, st2.mem, st2.disk)
    case Delete(id) => if id in Shown(st) then Mutated(cfg, st.mem, st.disk, id, None, ns, st2.mem, st2.disk) else st2 == st
    case FlushOp => if st.mem.memtable == map[] then st2 == st else Flushed(cfg, st.mem, st.disk, ns, st2.mem, st2.disk)
    case CompactOp =>
      if |st.mem.segments| < 2 then st2 == st
      else
        && st2.mem == Mem(st.mem.table, st.mem.memtable, [ns.name], st.mem.seqno)
        && Compacted(st.disk.files, st.mem.segments, st.disk.wal, ns.name, st.mem.seqno, st2.disk)
    case CheckpointOp =>
      st2 == State(st.mem, Disk(Manifest(st.mem.segments, st.mem.seqno), st.disk.files, st.disk.wal + [Mark(st.mem.seqno)]))
  }

  /** A completed step ends with the operation's memory, after its last effect. */
  lemma DoneEnds(cfg: Config, st: State, op: Op, ns: Names)
    requires Good(st) && Legal(cfg, st, Done(op, ns))
    ensures
      var o := Do(cfg, st, op, ns);
      Step(cfg, st, Done(op, ns)) == State(o.mem, Last(st.disk, o.effects))
  {}

  /** An operation has achieved that once its last effect has happened. */
  lemma DoAchieves(cfg: Config, st: State, op: Op, ns: Names)
    requires (forall n <- st.mem.segments :: n in st.disk.files) && Fresh(st.disk, ns)
    ensures
      var o := Do(cfg, st, op, ns);
      Achieved(cfg, st, op, ns, State(o.mem, Last(st.disk, o.effects)))
  {
    match op
    case Put(id, doc) => MutateAchieves(cfg, st.mem, st.disk, id, Some(doc), ns);
    case Delete(id) => if id in Shown(st) { MutateAchieves(cfg, st.mem, st.disk, id, None, ns); }
    case FlushOp => FlushAchieves(cfg, st.mem, st.disk, ns);
    case CompactOp => CompactAchieves(st.mem, st.disk, ns.name);
    case CheckpointOp =>
  }

  lemma DoneAchieves(cfg: Config, st: State, op: Op, ns: Names)
    requires Good(st) && Legal(cfg, st, Done(op, ns))
    ensures Achieved(cfg, st, op, ns, Step(cfg, st, Done(op, ns)))
  {
    DoneEnds(cfg, st, op, ns);
    DoAchieves(cfg, st, op, ns);
  }

  // --------------------------------------------------------- runs without crashes

  /** The files are exactly the named segments. */
  ghost predicate Listed(files: map<Name, Table>, names: seq<Name>) {
    forall n :: n in files <==> n in names
  }

  /** The bounds, and no file that the manifest does not list. */
  ghost predicate Tidy(cfg: Config, st: State) {
    && |st.mem.memtable| < cfg.memtableMax
    && Few(cfg, st.mem.segments)
    && Listed(st.disk.files, st.mem.segments)
  }

  lemma CompactedTidy(files: map<Name, Table>, names: seq<Name>, wal: seq<Entry>, name: Name, seqno: nat, d: Disk)
    requires (forall n <- names :: n in files) && Compacted(files, names, wal, name, seqno, d)
    requires Listed(files, names)
    ensures Listed(d.files, [name])
  {}

  lemma FlushedTidy(cfg: Config, mem: Mem, d: Disk, ns: Names, mem2: Mem, d2: Disk)
    requires (forall n <- mem.segments :: n in d.files) && Flushed(cfg, mem, d, ns, mem2, d2)
    requires cfg.memtableMax > 0 && Listed(d.files, mem.segments)
    ensures Tidy(cfg, State(mem2, d2))
  {
    var names, files := mem.segments + [ns.name], d.files[ns.name := mem.memtable];
    assert Listed(files, names);
    if !Few(cfg, names) {
      CompactedTidy(files, names, [], ns.spare, mem.seqno, d2);
    }
  }

  lemma DoneTidy(cfg: Config, st: State, op: Op, ns: Names)
    requires Good(st) && Legal(cfg, st, Done(op, ns)) && cfg.memtableMax > 0 && Tidy(cfg, st)
    ensures Tidy(cfg, Step(cfg, st, Done(op, ns)))
  {
    var st2 := Step(cfg, st, Done(op, ns));
    DoneAchieves(cfg, st, op, ns);
    match op
    case Put(id, doc) => MutatedTidy(cfg, st, id, Some(doc), ns, st2);
    case Delete(id) => if id in Shown(st) { MutatedTidy(cfg, st, id, None, ns, st2); }
    case FlushOp => if st.mem.memtable != map[] { FlushedTidy(cfg, st.mem, st.disk, ns, st2.mem, st2.disk); }
    case CompactOp =>
      if |st.mem.segments| >= 2 {
        CompactedTidy(st.disk.files, st.mem.segments, st.disk.wal, ns.name, st.mem.seqno, st2.disk);
      }
    case CheckpointOp =>
  }

  lemma MutatedTidy(cfg: Config, st: State, id: Id, doc: Option<Contents>, ns: Names, st2: State)
    requires Good(st) && Mutated(cfg, st.mem, st.disk, id, doc, ns, st2.mem, st2.disk)
    requires cfg.memtableMax > 0 && Tidy(cfg, st)
    ensures Tidy(cfg, st2)
  {
    var row := Row(st.mem.seqno + 1, doc);
    var pending := st.mem.memtable[id := row];
    if |pending| >= cfg.memtableMax {
      var m := Mem(st2.mem.table, pending, st.mem.segments, st.mem.seqno + 1);
      var e := Disk(st.disk.manifest, st.disk.files, st.disk.wal + [Mutation(id, row)]);
      FlushedTidy(cfg, m, e, ns, st2.mem, st2.disk);
    }
  }

  lemma TidyNext(cfg: Config, st: State, e: Event)
    requires Good(st) && Legal(cfg, st, e) && e.Done? && cfg.memtableMax > 0 && Tidy(cfg, st)
    ensures Tidy(cfg, Step(cfg, st, e))
  {
    DoneTidy(cfg, st, e.op, e.names);
  }

  lemma OpenedTidy(cfg: Config)
    requires cfg.memtableMax > 0
    ensures Tidy(cfg, Opened())
  {}

  /**
   * As long as nothing crashes, at every point of every run the memtable is below its bound, the
   * segments are fewer than trigger a compaction, and the files are exactly the listed segments.
   */
  lemma {:induction false} TidyWithoutCrashes(cfg: Config, sts: seq<State>, es: seq<Event>, n: nat)
    requires Trace(cfg, sts, es) && n <= |es| && cfg.memtableMax > 0
    requires forall i | 0 <= i < n :: es[i].Done?
    ensures Tidy(cfg, sts[n])
    decreases n
  {
    if n == 0 {
      OpenedTidy(cfg);
    } else {
      TidyWithoutCrashes(cfg, sts, es, n - 1);
      assert Tidy(cfg, sts[n - 1]);
      assert NextAt(cfg, sts, es, n - 1);
      TidyNext(cfg, sts[n - 1], es[n - 1]);
    }
  }

  /** In any run, crashes included, a completed operation has achieved what it is for. */
  lemma DoneAlways(cfg: Config, sts: seq<State>, es: seq<Event>, n: nat)
    requires Trace(cfg, sts, es) && n < |es| && es[n].Done?
    ensures Good(sts[n]) && Achieved(cfg, sts[n], es[n].op, es[n].names, sts[n + 1])
  {
    assert NextAt(cfg, sts, es, n);
    DoneAchieves(cfg, sts[n], es[n].op, es[n].names);
  }
}
