/** The store as an object that updates its memory and its directory in place (storage/lsm.py). */
module LsmStore {
  import opened Options
  import opened Payload
  import opened LsmModel
  import LsmEffects

  function Part(s: Table, done: set<Id>): Table {
    map id | id in s && id in done :: s[id]
  }

  lemma OverlayNone(t: Table, s: Table)
    ensures Overlay(t, Part(s, s.Keys - s.Keys)) == t
  {}

  lemma OverlayAll(t: Table, s: Table)
    ensures Overlay(t, Part(s, s.Keys - {})) == Overlay(t, s)
  {
    assert Part(s, s.Keys - {}) == s;
  }

  lemma OverlayTake(t: Table, s: Table, rest: set<Id>, id: Id)
    requires id in rest && rest <= s.Keys
    ensures ApplyRow(Overlay(t, Part(s, s.Keys - rest)), id, s[id]) == Overlay(t, Part(s, s.Keys - (rest - {id})))
  {
    assert s.Keys - (rest - {id}) == s.Keys - rest + {id};
  }

  lemma Chain(d: Disk, mid: Disk, rest: seq<Disk>, trail: seq<Disk>)
    ensures Last(d, [mid] + rest) == Last(mid, rest) && trail + [mid] + rest == trail + ([mid] + rest)
  {}

  class Store {
    const cfg: Config
    var table: Table
    var memtable: Table
    var segments: seq<Name>
    var seqno: nat
    // the directory
    var manifest: Manifest
    var files: map<Name, Table>
    var wal: seq<Entry>
    /** The directory after each effect so far. */
    ghost var trail: seq<Disk>

    function Memory(): Mem
      reads this
    {
      Mem(table, memtable, segments, seqno)
    }

    function Directory(): Disk
      reads this
    {
      Disk(manifest, files, wal)
    }

    /** Every listed segment can be read. */
    predicate Valid()
      reads this
    {
      forall n <- segments :: n in files
    }

    /** Opening a directory recovers it. */
    constructor (cfg: Config, d: Disk)
      requires Present(d)
      ensures this.cfg == cfg && Memory() == Recover(d) && Directory() == d && trail == [] && Valid()
    {
      this.cfg := cfg;
      manifest, files, wal := d.manifest, d.files, d.wal;
      table, memtable, segments, seqno := map[], map[], d.manifest.segments, d.manifest.seqno;
      trail := [];
      new;
      ApplySegments();
      ApplyLog();
    }

    method ApplyEntry(id: Id, row: Row)
      modifies this`table
      ensures table == ApplyRow(old(table), id, row)
    {
      if id !in table || row.seqno >= table[id].seqno {
        table := table[id := row];
      }
    }

    method ApplySegment(seg: Table)
      modifies this`table
      ensures table == Overlay(old(table), seg)
    {
      var rest := seg.Keys;
      OverlayNone(table, seg);
      while rest != {}
        invariant rest <= seg.Keys && table == Overlay(old(table), Part(seg, seg.Keys - rest))
        decreases |rest|
      {
        var id :| id in rest;
        OverlayTake(old(table), seg, rest, id);
        ApplyEntry(id, seg[id]);
        rest := rest - {id};
      }
      OverlayAll(old(table), seg);
    }

    /** Oldest first: later segments overwrite. */
    method ApplySegments()
      requires Valid() && table == map[]
      modifies this`table
      ensures table == Merge(files, segments)
    {
      for i := 0 to |segments|
        invariant Valid() && table == Merge(files, segments[..i])
      {
        ApplySegment(files[segments[i]]);
        assert segments[..i + 1][..i] == segments[..i];
      }
      assert segments[..|segments|] == segments;
    }

    method ApplyLog()
      modifies this`table, this`memtable, this`seqno
      requires memtable == map[]
      ensures table == Replayed(old(table), wal) && memtable == Pending(wal) && seqno == MaxSeqno(old(seqno), wal)
    {
      for i := 0 to |wal|
        invariant table == Replayed(old(table), wal[..i]) && memtable == Pending(wal[..i]) && seqno == MaxSeqno(old(seqno), wal[..i])
      {
        assert wal[..i + 1][..i] == wal[..i];
        match wal[i] {
          case Mark(s) =>
            seqno := Max(seqno, s);
          case Mutation(id, row) =>
            ApplyEntry(id, row);
            memtable := memtable[id := row];
            seqno := Max(seqno, row.seqno);
        }
      }
      assert wal[..|wal|] == wal;
    }

    // ------------------------------------------------------- atomic effects

    method AppendFrame(e: Entry)
      modifies this`wal, this`trail
      ensures Directory() == old(Directory()).(wal := old(wal) + [e]) && trail == old(trail) + [Directory()]
    {
      wal := wal + [e];
      trail := trail + [Directory()];
    }

    method WriteSegment(name: Name, rows: Table)
      modifies this`files, this`trail
      ensures Directory() == old(Directory()).(files := old(files)[name := rows]) && trail == old(trail) + [Directory()]
    {
      files := files[name := rows];
      trail := trail + [Directory()];
    }

    method WriteManifest()
      modifies this`manifest, this`trail
      ensures Directory() == Manifested(old(Directory()), segments, seqno) && trail == old(trail) + [Directory()]
    {
      manifest := Manifest(segments, seqno);
      trail := trail + [Directory()];
    }

    method Unlink(name: Name)
      modifies this`files, this`trail
      ensures Directory() == old(Directory()).(files := old(files) - {name}) && trail == old(trail) + [Directory()]
    {
      files := files - {name};
      trail := trail + [Directory()];
    }

    method RotateLog()
      modifies this`wal, this`trail
      ensures Directory() == old(Directory()).(wal := []) && trail == old(trail) + [Directory()]
    {
      wal := [];
      trail := trail + [Directory()];
    }

    // ------------------------------------------------------------ operations

    /** The memory is what `o` says, and the directory went through exactly its effects. */
    twostate predicate Went(o: Outcome)
      reads this
    {
      && Memory() == o.mem
      && trail == old(trail) + o.effects
      && Directory() == Last(old(Directory()), o.effects)
    }

    method Put(id: Id, doc: Contents, ns: Names)
      requires Valid() && Fresh(Directory(), ns)
      modifies this
      ensures Went(Do(cfg, old(State(Memory(), Directory())), Op.Put(id, doc), ns))
      ensures LsmEffects.Achieved(cfg, old(State(Memory(), Directory())), Op.Put(id, doc), ns, State(Memory(), Directory()))
      ensures cfg.memtableMax > 0 ==> |memtable| < cfg.memtableMax
    {
      LsmEffects.DoAchieves(cfg, State(Memory(), Directory()), Op.Put(id, doc), ns);
      Write(id, Some(doc), ns);
    }

    /** The result says whether there was a document to delete. */
    method Delete(id: Id, ns: Names) returns (existed: bool)
      requires Valid() && Fresh(Directory(), ns)
      modifies this
      ensures existed <==> id in Live(old(table))
      ensures Went(Do(cfg, old(State(Memory(), Directory())), Op.Delete(id), ns))
      ensures LsmEffects.Achieved(cfg, old(State(Memory(), Directory())), Op.Delete(id), ns, State(Memory(), Directory()))
    {
      LsmEffects.DoAchieves(cfg, State(Memory(), Directory()), Op.Delete(id), ns);
      if id !in table || table[id].doc.None? {
        return false;
      }
      Write(id, None, ns);
      return true;
    }

    /** Puts a mutation into the log, the table and the memtable. */
    method LogMutation(id: Id, row: Row)
      modifies this
      ensures Memory() == Applied(old(Memory()), id, row) && files == old(files)
      ensures Directory() == Appended(old(Directory()), Mutation(id, row)) && trail == old(trail) + [Directory()]
    {
      seqno := row.seqno;
      AppendFrame(Mutation(id, row));
      ApplyEntry(id, row);
      memtable := memtable[id := row];
    }

    method Write(id: Id, doc: Option<Contents>, ns: Names)
      requires Valid() && Fresh(Directory(), ns)
      modifies this
      ensures Went(Mutate(cfg, old(Memory()), old(Directory()), id, doc, ns.name, ns.spare))
    {
      var row := Row(seqno + 1, doc);
      LogMutation(id, row);
      ghost var rest := LsmModel.AfterMutation(cfg, Memory(), Directory(), ns.name, ns.spare);
      ghost var logged := Directory();
      AfterMutation(ns);
      Chain(old(Directory()), logged, rest.effects, old(trail));
    }

    method AfterMutation(ns: Names)
      requires Valid() && Fresh(Directory(), ns)
      modifies this
      ensures Went(LsmModel.AfterMutation(cfg, old(Memory()), old(Directory()), ns.name, ns.spare))
    {
      if |memtable| >= cfg.memtableMax {
        Flush(ns);
      }
    }

    /** The memtable becomes a listed segment, and then the log is emptied. */
    method PersistMemtable(name: Name)
      modifies this
      ensures Memory() == Mem(old(table), map[], old(segments) + [name], old(seqno))
      ensures
        var written := old(Directory()).(files := old(files)[name := old(memtable)]);
        var listed := Manifested(written, segments, seqno);
        Directory() == listed.(wal := []) && trail == old(trail) + [written, listed, Directory()]
    {
      WriteSegment(name, memtable);
      segments := segments + [name];
      memtable := map[];
      WriteManifest();
      RotateLog();
    }

    method Flush(ns: Names)
      requires Valid() && Fresh(Directory(), ns)
      modifies this
      ensures Went(LsmModel.Flush(cfg, old(Memory()), old(Directory()), ns.name, ns.spare))
      ensures LsmEffects.Achieved(cfg, old(State(Memory(), Directory())), FlushOp, ns, State(Memory(), Directory()))
    {
      LsmEffects.DoAchieves(cfg, State(Memory(), Directory()), FlushOp, ns);
      if memtable != map[] {
        FlushPending(ns);
      }
    }

    method FlushPending(ns: Names)
      requires Valid() && Fresh(Directory(), ns) && memtable != map[]
      modifies this
      ensures Went(LsmModel.Flush(cfg, old(Memory()), old(Directory()), ns.name, ns.spare))
    {
      PersistMemtable(ns.name);
      if |segments| >= cfg.compactionTrigger {
        Compact(ns.spare);
      }
    }

    method MergeSegment(before: Table, seg: Table) returns (merged: Table)
      ensures merged == Overlay(before, seg)
    {
      merged := before;
      var rest := seg.Keys;
      OverlayNone(before, seg);
      while rest != {}
        invariant rest <= seg.Keys && merged == Overlay(before, Part(seg, seg.Keys - rest))
        decreases |rest|
      {
        var id :| id in rest;
        OverlayTake(before, seg, rest, id);
        if id !in merged || seg[id].seqno >= merged[id].seqno {
          merged := merged[id := seg[id]];
        }
        rest := rest - {id};
      }
      OverlayAll(before, seg);
    }

    method MergeSegments() returns (merged: Table)
      requires Valid()
      ensures merged == Merge(files, segments)
    {
      merged := map[];
      for i := 0 to |segments|
        invariant merged == Merge(files, segments[..i])
      {
        merged := MergeSegment(merged, files[segments[i]]);
        assert segments[..i + 1][..i] == segments[..i];
      }
      assert segments[..|segments|] == segments;
    }

    /** The rows a full compaction keeps: a tombstone has no older row to hide. */
    method WithoutTombstones(merged: Table) returns (rows: Table)
      ensures rows == LiveRows(merged)
    {
      rows := map[];
      var rest := merged.Keys;
      while rest != {}
        invariant rest <= merged.Keys && rows == LiveRows(Part(merged, merged.Keys - rest))
        decreases |rest|
      {
        var id :| id in rest;
        if merged[id].doc.Some? {
          rows := rows[id := merged[id]];
        }
        rest := rest - {id};
      }
      assert Part(merged, merged.Keys - {}) == merged;
    }

    method Compact(name: Name)
      requires Valid() && name !in files
      modifies this
      ensures Went(LsmModel.Compact(old(Memory()), old(Directory()), name))
      ensures |old(segments)| < 2 ==> Directory() == old(Directory())
      ensures |old(segments)| >= 2 ==> LsmEffects.Compacted(old(files), old(segments), old(wal), name, seqno, Directory())
    {
      LsmEffects.CompactAchieves(Memory(), Directory(), name);
      if |segments| >= 2 {
        FoldSegments(name);
      }
    }

    /** The merged rows become the only listed segment, and then the old files are removed. */
    method FoldSegments(name: Name)
      requires Valid() && |segments| >= 2
      modifies this
      ensures Went(LsmModel.Compact(old(Memory()), old(Directory()), name))
    {
      var merged := MergeSegments();
      var rows := WithoutTombstones(merged);
      WriteSegment(name, rows);
      var stale := segments;
      segments := [name];
      WriteManifest();
      UnlinkAll(stale);
    }

    method UnlinkAll(stale: seq<Name>)
      modifies this`files, this`trail
      ensures trail == old(trail) + Unlinks(old(Directory()), stale)
      ensures Directory() == Last(old(Directory()), Unlinks(old(Directory()), stale))
    {
      ghost var all := Unlinks(Directory(), stale);
      assert stale[0..] == stale;
      for i := 0 to |stale|
        invariant trail + Unlinks(Directory(), stale[i..]) == old(trail) + all
        invariant Last(Directory(), Unlinks(Directory(), stale[i..])) == Last(old(Directory()), all)
      {
        ghost var before, rest := trail, Unlinks(Directory().(files := files - {stale[i]}), stale[i + 1..]);
        assert stale[i..][0] == stale[i] && stale[i..][1..] == stale[i + 1..];
        Unlink(stale[i]);
        assert before + ([Directory()] + rest) == before + [Directory()] + rest;
      }
      assert trail + [] == trail;
    }

    method Checkpoint()
      modifies this
      ensures Went(LsmModel.Checkpoint(old(Memory()), old(Directory())))
      ensures Memory() == old(Memory())
      ensures Directory() == Disk(Manifest(segments, seqno), old(files), old(wal) + [Mark(seqno)])
    {
      AppendFrame(Mark(seqno));
      WriteManifest();
    }
  }
}
