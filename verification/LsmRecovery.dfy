/** What recovery makes of a directory, and why no atomic effect of an operation changes it but the logging of a mutation. */
module LsmRecovery {
  import opened Options
  import opened Payload
  import opened LsmModel

  // ------------------------------------------------- replaying is overriding

  /** Sequence numbers never go down along the log. */
  predicate Ordered(wal: seq<Entry>) {
    forall i, j | 0 <= i < j < |wal| :: SeqnoOf(wal[i]) <= SeqnoOf(wal[j])
  }

  /** An id's last frame is at least as new as its segment rows. */
  predicate Covers(base: Table, wal: seq<Entry>) {
    forall id | id in base && id in Pending(wal) :: base[id].seqno <= Pending(wal)[id].seqno
  }

  predicate Bounded(t: Table, seqno: nat) {
    forall id <- t :: t[id].seqno <= seqno
  }

  /** The frame that a pending row comes from is the last one that mentions the id. */
  lemma {:induction false} PendingFrom(wal: seq<Entry>, id: Id)
    requires id in Pending(wal)
    ensures exists i | 0 <= i < |wal| :: wal[i] == Mutation(id, Pending(wal)[id])
    decreases |wal|
  {
    var init, e := wal[..|wal| - 1], wal[|wal| - 1];
    if e.Mutation? && e.id == id {
      assert wal[|wal| - 1] == Mutation(id, Pending(wal)[id]);
    } else {
      PendingFrom(init, id);
      var i :| 0 <= i < |init| && init[i] == Mutation(id, Pending(init)[id]);
      assert wal[i] == Mutation(id, Pending(wal)[id]);
    }
  }

  /** Either the newest frame has been taken, or a newer segment row is still there. */
  predicate Settled(base: Table, wal: seq<Entry>, id: Id) {
    var t, p := Replayed(base, wal), Pending(wal);
    if id !in p then (id in t <==> id in base) && (id in t ==> t[id] == base[id])
    else id in t && (t[id] == p[id] || (id in base && t[id] == base[id] && base[id].seqno > p[id].seqno))
  }

  lemma {:induction false} ReplaySettles(base: Table, wal: seq<Entry>, id: Id)
    requires Ordered(wal)
    ensures Settled(base, wal, id)
    decreases |wal|
  {
    if wal != [] {
      var init, e := wal[..|wal| - 1], wal[|wal| - 1];
      ReplaySettles(base, init, id);
      if e.Mutation? && e.id == id && id in Pending(init) {
        PendingFrom(init, id);
        var i :| 0 <= i < |init| && init[i] == Mutation(id, Pending(init)[id]);
        assert SeqnoOf(wal[i]) <= SeqnoOf(wal[|wal| - 1]);
      }
    }
  }

  /** Replaying a log over the segments it covers is overriding them with the memtable it rebuilds. */
  lemma ReplayOverrides(base: Table, wal: seq<Entry>)
    requires Ordered(wal) && Covers(base, wal)
    ensures Replayed(base, wal) == base + Pending(wal)
  {
    forall id ensures (id in Replayed(base, wal) <==> id in base + Pending(wal)) &&
                      (id in Replayed(base, wal) ==> Replayed(base, wal)[id] == (base + Pending(wal))[id])
    {
      ReplaySettles(base, wal, id);
    }
  }

  /** Applying a newer segment is overriding. */
  lemma OverlayOverrides(base: Table, s: Table)
    requires forall id | id in base && id in s :: base[id].seqno <= s[id].seqno
    ensures Overlay(base, s) == base + s
  {}

  lemma {:induction false} MaxSeqnoBounds(start: nat, wal: seq<Entry>)
    ensures MaxSeqno(start, wal) >= start
    ensures forall e <- wal :: SeqnoOf(e) <= MaxSeqno(start, wal)
    decreases |wal|
  {
    if wal != [] {
      var init := wal[..|wal| - 1];
      MaxSeqnoBounds(start, init);
      assert wal == init + [wal[|wal| - 1]];
    }
  }

  lemma PendingBounded(start: nat, wal: seq<Entry>)
    ensures Bounded(Pending(wal), MaxSeqno(start, wal))
  {
    forall id <- Pending(wal) ensures Pending(wal)[id].seqno <= MaxSeqno(start, wal) {
      PendingFrom(wal, id);
      var i :| 0 <= i < |wal| && wal[i] == Mutation(id, Pending(wal)[id]);
      MaxSeqnoBounds(start, wal);
      assert wal[i] in wal;
    }
  }

  // --------------------------------------------------------- a sane directory

  /** A directory the store can leave behind, at any point. */
  predicate Sane(d: Disk) {
    && Present(d)
    && Ordered(d.wal)
    && Bounded(Base(d), d.manifest.seqno)
    && Covers(Base(d), d.wal)
  }

  /** What a reader would see after recovering from `d`. */
  function ViewOf(d: Disk): View
    requires Present(d)
  {
    Live(Recover(d).table)
  }

  lemma ViewIs(d: Disk)
    requires Sane(d)
    ensures ViewOf(d) == Live(Base(d) + Pending(d.wal))
  {
    ReplayOverrides(Base(d), d.wal);
  }

  /** Memory agrees with the directory: a crash now would lose nothing. */
  predicate Steady(mem: Mem, d: Disk) {
    && Present(d)
    && mem.segments == d.manifest.segments
    && mem.memtable == Pending(d.wal)
    && mem.seqno == MaxSeqno(d.manifest.seqno, d.wal)
    && Live(mem.table) == ViewOf(d)
    && Bounded(mem.table, mem.seqno)
  }

  /** Recovery reaches agreement, and its sequence number is no smaller than that of any recovered record. */
  lemma RecoverSteady(d: Disk)
    requires Sane(d)
    ensures Steady(Recover(d), d)
  {
    ReplayOverrides(Base(d), d.wal);
    PendingBounded(d.manifest.seqno, d.wal);
    MaxSeqnoBounds(d.manifest.seqno, d.wal);
  }

  // --------------------------------------------------- each kind of effect

  lemma {:induction false} MergeFrame(files: map<Name, Table>, files2: map<Name, Table>, names: seq<Name>)
    requires forall n <- names :: n in files && n in files2 && files[n] == files2[n]
    ensures Merge(files, names) == Merge(files2, names)
    decreases |names|
  {
    if names != [] {
      MergeFrame(files, files2, names[..|names| - 1]);
    }
  }

  /** A file nobody lists, created or removed, changes nothing. */
  lemma FilesEffect(d: Disk, files: map<Name, Table>)
    requires Sane(d) && forall n <- d.manifest.segments :: n in files && files[n] == d.files[n]
    ensures Sane(d.(files := files)) && ViewOf(d.(files := files)) == ViewOf(d)
  {
    MergeFrame(d.files, files, d.manifest.segments);
  }

  lemma PendingSnoc(wal: seq<Entry>, e: Entry)
    ensures Pending(wal + [e]) == match e case Mutation(id, row) => Pending(wal)[id := row] case Mark(_) => Pending(wal)
  {
    assert (wal + [e])[..|wal|] == wal;
  }

  lemma MaxSeqnoSnoc(start: nat, wal: seq<Entry>, e: Entry)
    ensures MaxSeqno(start, wal + [e]) == Max(MaxSeqno(start, wal), SeqnoOf(e))
  {
    assert (wal + [e])[..|wal|] == wal;
  }

  lemma LiveOverride(b: Table, p: Table, id: Id, row: Row)
    ensures Live(b + p[id := row]) == match row.doc case Some(c) => Live(b + p)[id := c] case None => Live(b + p) - {id}
  {}

  /** A newer frame at the end of the log keeps the directory sane. */
  lemma AppendSane(d: Disk, e: Entry)
    requires Sane(d) && SeqnoOf(e) >= MaxSeqno(d.manifest.seqno, d.wal)
    ensures Sane(d.(wal := d.wal + [e]))
  {
    MaxSeqnoBounds(d.manifest.seqno, d.wal);
    forall i, j | 0 <= i < j < |d.wal + [e]| ensures SeqnoOf((d.wal + [e])[i]) <= SeqnoOf((d.wal + [e])[j]) {
      if j == |d.wal| { assert d.wal[i] in d.wal; }
    }
    PendingSnoc(d.wal, e);
  }

  /** A logged mutation is what a recovering reader sees. */
  lemma AppendEffect(d: Disk, id: Id, row: Row)
    requires Sane(d) && row.seqno >= MaxSeqno(d.manifest.seqno, d.wal)
    ensures
      var d2 := d.(wal := d.wal + [Mutation(id, row)]);
      Sane(d2) && ViewOf(d2) == match row.doc case Some(c) => ViewOf(d)[id := c] case None => ViewOf(d) - {id}
  {
    var d2 := d.(wal := d.wal + [Mutation(id, row)]);
    AppendSane(d, Mutation(id, row));
    ViewIs(d);
    ViewIs(d2);
    PendingSnoc(d.wal, Mutation(id, row));
    LiveOverride(Base(d), Pending(d.wal), id, row);
  }

  lemma MarkEffect(d: Disk, s: nat)
    requires Sane(d) && s >= MaxSeqno(d.manifest.seqno, d.wal)
    ensures Sane(d.(wal := d.wal + [Mark(s)])) && ViewOf(d.(wal := d.wal + [Mark(s)])) == ViewOf(d)
  {
    AppendSane(d, Mark(s));
    ViewIs(d);
    ViewIs(d.(wal := d.wal + [Mark(s)]));
    PendingSnoc(d.wal, Mark(s));
  }

  /** A manifest that only moves the sequence number forward. */
  lemma SeqnoEffect(d: Disk, s: nat)
    requires Sane(d) && s >= d.manifest.seqno
    ensures Sane(Manifested(d, d.manifest.segments, s)) && ViewOf(Manifested(d, d.manifest.segments, s)) == ViewOf(d)
  {}

  lemma MergeSnoc(files: map<Name, Table>, names: seq<Name>, n: Name)
    requires forall m <- names + [n] :: m in files
    ensures (forall m <- names :: m in files) && Merge(files, names + [n]) == Overlay(Merge(files, names), files[n])
  {
    assert n in names + [n] && forall m <- names :: m in names + [n];
    assert (names + [n])[..|names|] == names;
  }

  /** The memtable of the log, listed as the newest segment: the same rows are then in both places. */
  lemma ListEffect(d: Disk, n: Name, s: nat)
    requires Sane(d) && n in d.files && d.files[n] == Pending(d.wal) && s >= MaxSeqno(d.manifest.seqno, d.wal)
    ensures
      var d2 := Manifested(d, d.manifest.segments + [n], s);
      && Sane(d2) && ViewOf(d2) == ViewOf(d) && Base(d2) == Base(d) + Pending(d.wal)
  {
    var d2 := Manifested(d, d.manifest.segments + [n], s);
    MergeSnoc(d.files, d.manifest.segments, n);
    OverlayOverrides(Base(d), Pending(d.wal));
    PendingBounded(d.manifest.seqno, d.wal);
    MaxSeqnoBounds(d.manifest.seqno, d.wal);
    ViewIs(d);
    ViewIs(d2);
    assert Base(d) + Pending(d.wal) + Pending(d.wal) == Base(d) + Pending(d.wal);
  }

  /** A log whose frames are all in the segments can be discarded. */
  lemma RotateEffect(d: Disk)
    requires Sane(d) && Base(d) + Pending(d.wal) == Base(d)
    ensures Sane(d.(wal := [])) && ViewOf(d.(wal := [])) == ViewOf(d)
  {
    ViewIs(d);
    ViewIs(d.(wal := []));
    assert Base(d) + map[] == Base(d);
  }

  lemma OverlayEmpty(s: Table)
    ensures Overlay(map[], s) == s
  {}

  lemma MergeSingle(files: map<Name, Table>, n: Name)
    requires n in files
    ensures Merge(files, [n]) == files[n]
  {
    MergeSnoc(files, [], n);
    assert [] + [n] == [n];
    OverlayEmpty(files[n]);
  }

  /**
   * Full compaction: the merged segment, without tombstones, and the log, whatever of it is already
   * in a segment, replay to the live map the old segments and the log replayed to.
   */
  lemma CompactEffect(d: Disk, n: Name, s: nat)
    requires Sane(d) && n in d.files && d.files[n] == LiveRows(Base(d)) && s >= d.manifest.seqno
    ensures Sane(Manifested(d, [n], s)) && ViewOf(Manifested(d, [n], s)) == ViewOf(d)
  {
    var d2 := Manifested(d, [n], s);
    MergeSingle(d.files, n);
    assert Base(d2) == LiveRows(Base(d));
    ViewIs(d);
    ViewIs(d2);
    assert Live(LiveRows(Base(d)) + Pending(d.wal)) == Live(Base(d) + Pending(d.wal));
  }
}
