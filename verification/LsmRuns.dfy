/** Crash refinement: every run of the store, crashes included, is a run of a plain map. */
module LsmRuns {
  import opened Options
  import opened Payload
  import opened LsmModel
  import opened LsmRecovery

  /** A crash at any of these points shows a reader `v`. */
  predicate AllShow(effects: seq<Disk>, v: View) {
    forall d <- effects :: Sane(d) && ViewOf(d) == v
  }

  lemma ShowJoin(a: seq<Disk>, b: seq<Disk>, v: View)
    requires AllShow(a, v) && AllShow(b, v)
    ensures AllShow(a + b, v)
  {}

  /** What an outcome must meet: no effect but those in `v`, and memory in agreement with the last. */
  predicate Correct(d: Disk, o: Outcome, v: View) {
    && AllShow(o.effects, v)
    && Present(Last(d, o.effects))
    && Steady(o.mem, Last(d, o.effects))
  }

  /** An outcome that goes on from where earlier effects ended. */
  lemma Continue(d: Disk, first: seq<Disk>, mid: Disk, rest: Outcome, v: View)
    requires first != [] && first[|first| - 1] == mid && AllShow(first, v) && Correct(mid, rest, v)
    ensures Correct(d, Outcome(rest.mem, first + rest.effects), v)
  {
    ShowJoin(first, rest.effects, v);
    assert Last(d, first + rest.effects) == Last(mid, rest.effects);
  }

  // ------------------------------------------------------------- compaction

  lemma {:induction false} UnlinksShow(d: Disk, stale: seq<Name>, v: View)
    requires Sane(d) && ViewOf(d) == v && forall n <- stale :: n !in d.manifest.segments
    ensures AllShow(Unlinks(d, stale), v)
    ensures
      var last := Last(d, Unlinks(d, stale));
      Sane(last) && last.manifest == d.manifest && last.wal == d.wal
    decreases |stale|
  {
    if stale != [] {
      var next := d.(files := d.files - {stale[0]});
      FilesEffect(d, d.files - {stale[0]});
      UnlinksShow(next, stale[1..], v);
      var rest := Unlinks(next, stale[1..]);
      if rest == [] {
        assert Unlinks(d, stale) == [next];
      } else {
        assert Last(d, [next] + rest) == Last(next, rest);
      }
    }
  }

  /** Memory stays in agreement when only the listed files and the manifest's sequence number change. */
  lemma SteadyMoved(mem: Mem, d: Disk, mem2: Mem, d2: Disk)
    requires Sane(d) && Sane(d2) && Steady(mem, d) && ViewOf(d2) == ViewOf(d)
    requires d2.wal == d.wal && d2.manifest.seqno == mem.seqno && mem2 == mem.(segments := d2.manifest.segments)
    ensures Steady(mem2, d2)
  {
    MaxSeqnoRestart(d.manifest.seqno, mem.seqno, d.wal);
  }

  lemma {:induction false} MaxSeqnoRestart(start: nat, start2: nat, wal: seq<Entry>)
    requires start2 >= MaxSeqno(start, wal)
    ensures MaxSeqno(start2, wal) == start2
    decreases |wal|
  {
    if wal != [] {
      MaxSeqnoRestart(start, start2, wal[..|wal| - 1]);
    }
  }

  lemma CompactCorrect(mem: Mem, d: Disk, n: Name)
    requires Sane(d) && Steady(mem, d) && n !in d.files
    ensures Correct(d, Compact(mem, d, n), ViewOf(d))
    ensures forall x <- Compact(mem, d, n).effects :: x.files.Keys <= d.files.Keys + {n}
  {
    var v := ViewOf(d);
    if |mem.segments| >= 2 {
      var files := d.files[n := LiveRows(Merge(d.files, mem.segments))];
      var written := d.(files := files);
      var listed := Manifested(written, [n], mem.seqno);
      FilesEffect(d, files);
      MergeFrame(d.files, files, mem.segments);
      MaxSeqnoBounds(d.manifest.seqno, d.wal);
      CompactEffect(written, n, mem.seqno);
      UnlinksShow(listed, mem.segments, v);
      var rest := Unlinks(listed, mem.segments);
      ShowJoin([written, listed], rest, v);
      assert Last(d, [written, listed] + rest) == Last(listed, rest);
      SteadyMoved(mem, d, mem.(segments := [n]), Last(listed, rest));
      UnlinksKeys(listed, mem.segments);
    }
  }

  lemma {:induction false} UnlinksKeys(d: Disk, stale: seq<Name>)
    ensures forall x <- Unlinks(d, stale) :: x.files.Keys <= d.files.Keys
    decreases |stale|
  {
    if stale != [] {
      UnlinksKeys(d.(files := d.files - {stale[0]}), stale[1..]);
    }
  }

  // ------------------------------------------------------------------ flush

  /** The three effects of a flush: the segment, the manifest, the empty log. */
  lemma FlushEffects(mem: Mem, d: Disk, n: Name)
    requires Sane(d) && Steady(mem, d) && n !in d.files
    ensures
      var written := d.(files := d.files[n := mem.memtable]);
      var listed := Manifested(written, mem.segments + [n], mem.seqno);
      var rotated := listed.(wal := []);
      && AllShow([written, listed, rotated], ViewOf(d))
      && Steady(mem.(segments := mem.segments + [n], memtable := map[]), rotated)
  {
    var files := d.files[n := mem.memtable];
    var written := d.(files := files);
    var listed := Manifested(written, mem.segments + [n], mem.seqno);
    var rotated := listed.(wal := []);
    FilesEffect(d, files);
    MergeFrame(d.files, files, mem.segments);
    ListEffect(written, n, mem.seqno);
    assert Base(listed) + Pending(d.wal) == Base(listed);
    RotateEffect(listed);
  }

  lemma FlushCorrect(cfg: Config, mem: Mem, d: Disk, ns: Names)
    requires Sane(d) && Steady(mem, d) && Fresh(d, ns)
    ensures Correct(d, Flush(cfg, mem, d, ns.name, ns.spare), ViewOf(d))
  {
    if mem.memtable != map[] {
      var written := d.(files := d.files[ns.name := mem.memtable]);
      var listed := Manifested(written, mem.segments + [ns.name], mem.seqno);
      var rotated := listed.(wal := []);
      var flushed := mem.(segments := mem.segments + [ns.name], memtable := map[]);
      FlushEffects(mem, d, ns.name);
      if |flushed.segments| >= cfg.compactionTrigger {
        CompactCorrect(flushed, rotated, ns.spare);
        var rest := Compact(flushed, rotated, ns.spare);
        Continue(d, [written, listed, rotated], rotated, rest, ViewOf(d));
      }
    }
  }

  // -------------------------------------------------------------- mutations

  function Changed(v: View, id: Id, doc: Option<Contents>): View {
    match doc case Some(c) => v[id := c] case None => v - {id}
  }

  lemma LiveApplied(t: Table, id: Id, row: Row)
    requires Bounded(t, row.seqno)
    ensures Live(ApplyRow(t, id, row)) == Changed(Live(t), id, row.doc) && Bounded(ApplyRow(t, id, row), row.seqno)
  {}

  lemma AfterCorrect(cfg: Config, mem: Mem, d: Disk, ns: Names)
    requires Sane(d) && Steady(mem, d) && Fresh(d, ns)
    ensures Correct(d, AfterMutation(cfg, mem, d, ns.name, ns.spare), ViewOf(d))
  {
    if |mem.memtable| >= cfg.memtableMax {
      FlushCorrect(cfg, mem, d, ns);
    }
  }

  /** What follows once a mutation is in the log and in memory. */
  lemma Logged(cfg: Config, mem: Mem, d: Disk, logged: Disk, ns: Names, v: View, o: Outcome)
    requires Sane(logged) && Steady(mem, logged) && Fresh(logged, ns) && v == ViewOf(logged)
    requires
      var rest := AfterMutation(cfg, mem, logged, ns.name, ns.spare);
      o == Outcome(rest.mem, [logged] + rest.effects)
    ensures Correct(d, o, v)
  {
    AfterCorrect(cfg, mem, logged, ns);
    Continue(d, [logged], logged, AfterMutation(cfg, mem, logged, ns.name, ns.spare), v);
  }

  lemma MutationLogged(mem: Mem, d: Disk, id: Id, row: Row)
    requires Sane(d) && Steady(mem, d) && row.seqno == mem.seqno + 1
    ensures
      var logged := Appended(d, Mutation(id, row));
      Sane(logged) && ViewOf(logged) == Changed(ViewOf(d), id, row.doc) && Steady(Applied(mem, id, row), logged)
  {
    AppendEffect(d, id, row);
    PendingSnoc(d.wal, Mutation(id, row));
    MaxSeqnoSnoc(d.manifest.seqno, d.wal, Mutation(id, row));
    LiveApplied(mem.table, id, row);
  }

  /** A mutation shows from its first effect on, and stays. */
  lemma MutateCorrect(cfg: Config, mem: Mem, d: Disk, id: Id, doc: Option<Contents>, ns: Names)
    requires Sane(d) && Steady(mem, d) && Fresh(d, ns)
    ensures Correct(d, Mutate(cfg, mem, d, id, doc, ns.name, ns.spare), Changed(ViewOf(d), id, doc))
  {
    var row := Row(mem.seqno + 1, doc);
    MutationLogged(mem, d, id, row);
    Logged(cfg, Applied(mem, id, row), d, Appended(d, Mutation(id, row)), ns,
           Changed(ViewOf(d), id, doc), Mutate(cfg, mem, d, id, doc, ns.name, ns.spare));
  }

  lemma CheckpointCorrect(mem: Mem, d: Disk)
    requires Sane(d) && Steady(mem, d)
    ensures Correct(d, Checkpoint(mem, d), ViewOf(d))
  {
    var logged := d.(wal := d.wal + [Mark(mem.seqno)]);
    var listed := Manifested(logged, mem.segments, mem.seqno);
    MarkEffect(d, mem.seqno);
    PendingSnoc(d.wal, Mark(mem.seqno));
    MaxSeqnoSnoc(d.manifest.seqno, d.wal, Mark(mem.seqno));
    MaxSeqnoBounds(d.manifest.seqno, d.wal);
    SeqnoEffect(logged, mem.seqno);
    MaxSeqnoRestart(d.manifest.seqno, mem.seqno, logged.wal);
  }

  // ------------------------------------------------------------------- runs

  /** Every operation, cut anywhere, shows the map before it or the map after it. */
  lemma DoCorrect(cfg: Config, st: State, op: Op, ns: Names)
    requires Sane(st.disk) && Steady(st.mem, st.disk) && Fresh(st.disk, ns)
    ensures Correct(st.disk, Do(cfg, st, op, ns), Meant(ViewOf(st.disk), op))
  {
    match op
    case Put(id, doc) => MutateCorrect(cfg, st.mem, st.disk, id, Some(doc), ns);
    case Delete(id) =>
      if id in st.mem.table && st.mem.table[id].doc.Some? {
        MutateCorrect(cfg, st.mem, st.disk, id, None, ns);
      } else {
        assert id !in Live(st.mem.table);
        assert ViewOf(st.disk) - {id} == ViewOf(st.disk);
      }
    case FlushOp => FlushCorrect(cfg, st.mem, st.disk, ns);
    case CompactOp => CompactCorrect(st.mem, st.disk, ns.name);
    case CheckpointOp => CheckpointCorrect(st.mem, st.disk);
  }

  predicate Good(st: State) {
    Sane(st.disk) && Steady(st.mem, st.disk)
  }

  /** The names of new segments are fresh, and a crash cuts the operation somewhere. */
  predicate Legal(cfg: Config, st: State, e: Event)
    requires Good(st)
  {
    Fresh(st.disk, e.names) && (e.Crash? ==> e.k <= |Do(cfg, st, e.op, e.names).effects|)
  }

  /** The directory after the first `k` effects of an operation. */
  function Cut(cfg: Config, st: State, op: Op, ns: Names, k: nat): (d: Disk)
    requires Good(st) && Fresh(st.disk, ns) && k <= |Do(cfg, st, op, ns).effects|
    ensures Sane(d)
  {
    var effects := Do(cfg, st, op, ns).effects;
    DoCorrect(cfg, st, op, ns);
    if k == 0 then st.disk else effects[k - 1]
  }

  function Step(cfg: Config, st: State, e: Event): (r: State)
    requires Good(st) && Legal(cfg, st, e)
    ensures Good(r)
  {
    var o := Do(cfg, st, e.op, e.names);
    var d := Cut(cfg, st, e.op, e.names, if e.Crash? then e.k else |o.effects|);
    DoCorrect(cfg, st, e.op, e.names);
    RecoverSteady(d);
    State(if e.Crash? then Recover(d) else o.mem, d)
  }

  /** What the event may do to the plain map: a completed operation happens, a crashed one happens or does not. */
  predicate Permits(v: View, e: Event, v2: View) {
    v2 == Meant(v, e.op) || (e.Crash? && v2 == v)
  }

  lemma StepRefines(cfg: Config, st: State, e: Event)
    requires Good(st) && Legal(cfg, st, e)
    ensures Permits(Live(st.mem.table), e, Live(Step(cfg, st, e).mem.table))
  {
    DoCorrect(cfg, st, e.op, e.names);
    if e.Done? && Do(cfg, st, e.op, e.names).effects == [] {
      NoEffect(cfg, st, e);
    }
  }

  /** An operation without effects is one that was meant to do nothing. */
  lemma NoEffect(cfg: Config, st: State, e: Event)
    requires Good(st) && Legal(cfg, st, e) && Do(cfg, st, e.op, e.names).effects == []
    ensures Meant(ViewOf(st.disk), e.op) == ViewOf(st.disk)
  {
    if e.op.Delete? {
      assert e.op.id !in Live(st.mem.table);
    }
  }

  /** A new store in an empty directory. */
  function Opened(): (st: State)
    ensures Good(st) && Live(st.mem.table) == map[]
  {
    State(Mem(map[], map[], [], 0), Disk(Manifest([], 0), map[], []))
  }

  /** Memory in agreement with the directory is what recovering would rebuild, but for tombstones. */
  lemma RecoverAgain(st: State)
    requires Good(st)
    ensures
      var again := Recover(st.disk);
      && Live(again.table) == Live(st.mem.table)
      && again.memtable == st.mem.memtable && again.segments == st.mem.segments && again.seqno == st.mem.seqno
      && Bounded(again.table, again.seqno)
  {
    RecoverSteady(st.disk);
  }

  /** From an empty directory, event by event.  Every step leads to a good state, so `Good` excludes no run. */
  predicate Trace(cfg: Config, sts: seq<State>, es: seq<Event>) {
    && |sts| == |es| + 1 && sts[0] == Opened()
    && forall i | 0 <= i < |es| :: NextAt(cfg, sts, es, i)
  }

  predicate NextAt(cfg: Config, sts: seq<State>, es: seq<Event>, i: nat)
    requires i < |es| && |sts| == |es| + 1
  {
    Next(cfg, sts[i], es[i], sts[i + 1])
  }

  predicate Next(cfg: Config, st: State, e: Event, st2: State) {
    Good(st) && Legal(cfg, st, e) && st2 == Step(cfg, st, e)
  }

  lemma {:induction false} TraceGood(cfg: Config, sts: seq<State>, es: seq<Event>, n: nat)
    requires Trace(cfg, sts, es) && n <= |es|
    ensures Good(sts[n])
    decreases n
  {
    if n > 0 {
      TraceGood(cfg, sts, es, n - 1);
      assert NextAt(cfg, sts, es, n - 1);
    }
  }

  /** What readers see. */
  function Shown(st: State): View {
    Live(st.mem.table)
  }

  /**
   * From an empty directory, after any operations with crashes between any two of their disk effects,
   * what readers see evolves as the plain map does: each completed operation happens, each operation
   * cut off by a crash happens or does not, and nothing else changes.
   */
  lemma CrashRefinement(cfg: Config, sts: seq<State>, es: seq<Event>)
    requires Trace(cfg, sts, es)
    ensures Shown(sts[0]) == map[]
    ensures forall i | 0 <= i < |es| :: Permits(Shown(sts[i]), es[i], Shown(sts[i + 1]))
  {
    forall i | 0 <= i < |es| ensures Permits(Shown(sts[i]), es[i], Shown(sts[i + 1])) {
      assert NextAt(cfg, sts, es, i);
      StepRefines(cfg, sts[i], es[i]);
    }
  }

  /**
   * At every point of every run: recovering the directory shows what readers see, the recovered
   * sequence number is the store's and no smaller than any recovered record's, and recovering again
   * changes nothing.
   */
  lemma RecoveryLosesNothing(cfg: Config, sts: seq<State>, es: seq<Event>, n: nat)
    requires Trace(cfg, sts, es) && n <= |es|
    ensures
      var st := sts[n];
      && Present(st.disk)
      && var again := Recover(st.disk);
      && Live(again.table) == Shown(st) && again.seqno == st.mem.seqno
      && again.memtable == st.mem.memtable && again.segments == st.mem.segments
      && Bounded(again.table, again.seqno) && Bounded(st.mem.table, st.mem.seqno)
  {
    TraceGood(cfg, sts, es, n);
    RecoverAgain(sts[n]);
  }

  /**
   * A good state can always go on: any operation, with fresh names, has a next state, and a good one.
   * So the `Good` in `Next` excludes no run from the theorems above.
   */
  lemma NeverStuck(cfg: Config, st: State, e: Event)
    requires Good(st) && Legal(cfg, st, e)
    ensures exists st2 :: Next(cfg, st, e, st2) && Good(st2)
  {
    assert Next(cfg, st, e, Step(cfg, st, e));
  }
}
