/**
 * The collection over its store (db.py, storage/lsm.py): writes go to both, maintenance to the store
 * alone, snapshots and vacuum to the version table alone, and after a crash at any disk effect the
 * table is rebuilt from what the store recovers.
 */
module DurableCollection {
  import opened Options
  import Payload
  import L = LsmModel
  import R = LsmRecovery
  import S = LsmRuns
  import opened Mvcc
  import M = MvccRuns

  type Contents = Payload.Contents

  /** How the store's ids, which are bytes, read as text and back. */
  datatype Naming = Naming(show: L.Id -> DocId, read: DocId -> L.Id)

  ghost predicate Faithful(name: Naming) {
    forall a :: name.read(name.show(a)) == a
  }

  function Names(name: Naming, ids: set<L.Id>): set<DocId> {
    set id | id in ids :: name.show(id)
  }

  /** A map of the store, by name. */
  function Named(name: Naming, v: L.View): map<DocId, Contents>
    requires forall id <- v :: name.read(name.show(id)) == id
  {
    map d | d in Names(name, v.Keys) :: v[name.read(d)]
  }

  datatype Machine = Machine(store: L.State, world: M.World<Contents>)

  datatype Event =
    | Upsert(id: L.Id, contents: Contents, names: L.Names)
    | Remove(id: L.Id, names: L.Names)
    | Maintain(op: L.Op, names: L.Names)
    | Read(event: M.Event<Contents>)
    | Crash(op: L.Op, names: L.Names, k: nat)

  predicate Maintenance(op: L.Op) {
    op.FlushOp? || op.CompactOp? || op.CheckpointOp?
  }

  predicate Reading(e: M.Event<Contents>) {
    e.Open? || e.Close? || e.Sweep?
  }

  /** What the event is to the store. */
  function Stored(e: Event): Option<L.Event> {
    match e
    case Upsert(id, c, ns) => Some(L.Done(L.Put(id, c), ns))
    case Remove(id, ns) => Some(L.Done(L.Delete(id), ns))
    case Maintain(op, ns) => Some(L.Done(op, ns))
    case Read(_) => None
    case Crash(op, ns, k) => Some(L.Crash(op, ns, k))
  }

  // ----------------------------------------------------------------- restart

  /** The live rows of the store, one record each, in whatever order. */
  ghost predicate Listing(name: Naming, t: L.Table, records: seq<M.Stored<Contents>>) {
    && M.DistinctIds(records)
    && (forall r <- records :: exists id :: Lists(name, t, r, id))
    && forall id <- t | t[id].doc.Some? :: exists r <- records :: Lists(name, t, r, id)
  }

  predicate Lists(name: Naming, t: L.Table, r: M.Stored<Contents>, id: L.Id) {
    id in t && t[id].doc.Some? && r == M.Stored(name.show(id), t[id].seqno, t[id].doc.value)
  }

  /** The collection rebuilt from the store: no snapshot is open, and the past is not remembered. */
  ghost predicate Restarted(name: Naming, store: L.State, w: M.World<Contents>)
    requires Faithful(name)
  {
    exists records: seq<M.Stored<Contents>> ::
      && Listing(name, store.mem.table, records)
      && w == M.World(M.Rebuilt(records, store.mem.seqno), map[], 1,
                      seq(store.mem.seqno, _ => map[]) + [Named(name, L.Live(store.mem.table))])
  }

  /** There is always a listing, so a crashed collection can be rebuilt. */
  lemma {:induction false} ListingExists(name: Naming, t: L.Table) returns (records: seq<M.Stored<Contents>>)
    requires Faithful(name)
    ensures Listing(name, t, records)
    decreases |t|
  {
    if t == map[] {
      records := [];
    } else {
      var id :| id in t;
      var rest := t - {id};
      assert |rest| < |t| by {
        assert t.Keys == rest.Keys + {id};
      }
      var others := ListingExists(name, rest);
      records := if t[id].doc.Some? then others + [Record(name, t, id)] else others;
      ListingGrows(name, t, id, others);
    }
  }

  function Record(name: Naming, t: L.Table, id: L.Id): M.Stored<Contents>
    requires id in t && t[id].doc.Some?
  {
    M.Stored(name.show(id), t[id].seqno, t[id].doc.value)
  }

  lemma ListingGrows(name: Naming, t: L.Table, id: L.Id, others: seq<M.Stored<Contents>>)
    requires Faithful(name) && id in t && Listing(name, t - {id}, others)
    ensures Listing(name, t, if t[id].doc.Some? then others + [Record(name, t, id)] else others)
  {
    var rest, records := t - {id}, if t[id].doc.Some? then others + [Record(name, t, id)] else others;
    forall r <- records ensures exists x :: Lists(name, t, r, x) {
      if r in others {
        var x :| Lists(name, rest, r, x);
        assert Lists(name, t, r, x);
      } else {
        assert Lists(name, t, r, id);
      }
    }
    forall x <- t | t[x].doc.Some? ensures exists r <- records :: Lists(name, t, r, x) {
      if x == id {
        assert Record(name, t, id) in records && Lists(name, t, Record(name, t, id), id);
      } else {
        assert x in rest && rest[x] == t[x];
        var r :| r in others && Lists(name, rest, r, x);
        assert r in records && Lists(name, t, r, x);
      }
    }
    forall i, j | 0 <= i < j < |records| ensures records[i].id != records[j].id {
      assert records[i] == others[i] && others[i] in others;
      var x :| Lists(name, rest, others[i], x);
    }
  }

  lemma {:induction false} RecordedHas(records: seq<M.Stored<Contents>>, i: nat)
    requires M.DistinctIds(records) && i < |records|
    ensures records[i].id in M.Recorded(records) && M.Recorded(records)[records[i].id] == records[i].contents
    decreases |records|
  {
    var n := |records| - 1;
    if i < n {
      assert records[..n][i] == records[i] && records[i].id != records[n].id;
      RecordedHas(records[..n], i);
    }
  }

  lemma {:induction false} RecordedFrom(records: seq<M.Stored<Contents>>, id: DocId)
    requires id in M.Recorded(records)
    ensures exists r <- records :: r.id == id
    decreases |records|
  {
    var n := |records| - 1;
    if records[n].id != id {
      RecordedFrom(records[..n], id);
      var r :| r in records[..n] && r.id == id;
      assert r in records;
    } else {
      assert records[n] in records;
    }
  }

  /** The records list exactly what readers of the store see. */
  lemma ListingRecords(name: Naming, t: L.Table, records: seq<M.Stored<Contents>>)
    requires Faithful(name) && Listing(name, t, records)
    ensures M.Recorded(records) == Named(name, L.Live(t))
  {
    var m, v := M.Recorded(records), Named(name, L.Live(t));
    forall id | id in m ensures id in v && m[id] == v[id] {
      RecordedFrom(records, id);
      var r :| r in records && r.id == id;
      var i :| 0 <= i < |records| && records[i] == r;
      RecordedHas(records, i);
      var x :| Lists(name, t, r, x);
      assert x in L.Live(t);
    }
    forall id | id in v ensures id in m {
      var x :| x in L.Live(t) && name.show(x) == id;
      var r :| r in records && Lists(name, t, r, x);
      var i :| 0 <= i < |records| && records[i] == r;
      RecordedHas(records, i);
    }
  }

  /** A collection rebuilt over a store that is in order shows what the store shows. */
  lemma RestartSynced(name: Naming, store: L.State, w: M.World<Contents>)
    requires Faithful(name) && S.Good(store) && Restarted(name, store, w)
    ensures Synced(name, Machine(store, w))
  {
    var records: seq<M.Stored<Contents>> :|
      && Listing(name, store.mem.table, records)
      && w == M.World(M.Rebuilt(records, store.mem.seqno), map[], 1,
                      seq(store.mem.seqno, _ => map[]) + [Named(name, L.Live(store.mem.table))]);
    ListingRecords(name, store.mem.table, records);
    forall r <- records ensures r.seqno <= store.mem.seqno {
      var id :| Lists(name, store.mem.table, r, id);
    }
    M.RestartGood(records, store.mem.seqno, w.history);
    M.RebuiltSound(records, store.mem.seqno);
  }

  // -------------------------------------------------------------------- steps

  /** Store and table are in order, agree on the sequence number, and show the same map. */
  ghost predicate Synced(name: Naming, m: Machine)
    requires Faithful(name)
  {
    && S.Good(m.store) && M.Good(m.world)
    && m.world.table.seqno == m.store.mem.seqno
    && m.world.history != [] && LastMap(m.world.history) == Named(name, L.Live(m.store.mem.table))
  }

  lemma Together(name: Naming, store: L.State, w: M.World<Contents>, m: map<DocId, Contents>)
    requires Faithful(name) && S.Good(store) && M.Good(w) && w.table.seqno == store.mem.seqno
    requires w.history != [] && LastMap(w.history) == m == Named(name, L.Live(store.mem.table))
    ensures Synced(name, Machine(store, w))
  {}

  ghost predicate Legal(name: Naming, cfg: L.Config, m: Machine, e: Event)
    requires Faithful(name) && Synced(name, m)
  {
    && (e.Maintain? ==> Maintenance(e.op))
    && (e.Read? ==> Reading(e.event))
    && (Stored(e).Some? ==> S.Legal(cfg, m.store, Stored(e).value))
  }

  ghost predicate Next(name: Naming, cfg: L.Config, m: Machine, e: Event, m2: Machine)
    requires Faithful(name)
  {
    && Synced(name, m) && Legal(name, cfg, m, e)
    && m2.store == (if Stored(e).Some? then S.Step(cfg, m.store, Stored(e).value) else m.store)
    && match e
       case Upsert(id, c, _) => m2.world == M.Step(m.world, M.Write(name.show(id), c))
       case Remove(id, _) => m2.world == M.Step(m.world, M.Erase(name.show(id)))
       case Maintain(_, _) => m2.world == m.world
       case Read(r) => m2.world == M.Step(m.world, r)
       case Crash(_, _, _) => Restarted(name, m2.store, m2.world)
  }

  /** A completed operation draws a number exactly if it mutates. */
  lemma DoNumbers(cfg: L.Config, st: L.State, op: L.Op, ns: L.Names)
    requires forall n <- st.mem.segments :: n in st.disk.files
    ensures
      var mutates := op.Put? || (op.Delete? && op.id in st.mem.table && st.mem.table[op.id].doc.Some?);
      L.Do(cfg, st, op, ns).mem.seqno == st.mem.seqno + (if mutates then 1 else 0)
  {}

  lemma NamedPut(name: Naming, v: L.View, id: L.Id, c: Contents)
    requires Faithful(name)
    ensures Named(name, v[id := c]) == Named(name, v)[name.show(id) := c]
  {}

  lemma NamedDrop(name: Naming, v: L.View, id: L.Id)
    requires Faithful(name)
    ensures Named(name, v - {id}) == Named(name, v) - {name.show(id)}
    ensures name.show(id) in Named(name, v) <==> id in v
  {}

  lemma StoreDone(cfg: L.Config, st: L.State, op: L.Op, ns: L.Names)
    requires S.Good(st) && S.Legal(cfg, st, L.Done(op, ns))
    ensures
      var st2 := S.Step(cfg, st, L.Done(op, ns));
      var v := L.Live(st.mem.table);
      && L.Live(st2.mem.table) == L.Meant(v, op)
      && st2.mem.seqno == st.mem.seqno + (if op.Put? || (op.Delete? && op.id in v) then 1 else 0)
  {
    S.StepRefines(cfg, st, L.Done(op, ns));
    DoNumbers(cfg, st, op, ns);
  }

  lemma UpsertSynced(name: Naming, cfg: L.Config, m: Machine, id: L.Id, c: Contents, ns: L.Names)
    requires Faithful(name) && Synced(name, m) && S.Legal(cfg, m.store, L.Done(L.Put(id, c), ns))
    ensures Synced(name, Machine(S.Step(cfg, m.store, L.Done(L.Put(id, c), ns)), M.Step(m.world, M.Write(name.show(id), c))))
  {
    var w, v := M.Step(m.world, M.Write(name.show(id), c)), L.Live(m.store.mem.table);
    StoreDone(cfg, m.store, L.Put(id, c), ns);
    M.StepTold(m.world, M.Write(name.show(id), c));
    NamedPut(name, v, id, c);
    Together(name, S.Step(cfg, m.store, L.Done(L.Put(id, c), ns)), w, Named(name, v[id := c]));
  }

  lemma RemoveSynced(name: Naming, cfg: L.Config, m: Machine, id: L.Id, ns: L.Names)
    requires Faithful(name) && Synced(name, m) && S.Legal(cfg, m.store, L.Done(L.Delete(id), ns))
    ensures Synced(name, Machine(S.Step(cfg, m.store, L.Done(L.Delete(id), ns)), M.Step(m.world, M.Erase(name.show(id)))))
  {
    var w, v := M.Step(m.world, M.Erase(name.show(id))), L.Live(m.store.mem.table);
    StoreDone(cfg, m.store, L.Delete(id), ns);
    M.StepTold(m.world, M.Erase(name.show(id)));
    NamedDrop(name, v, id);
    if id !in v {
      assert v - {id} == v;
    }
    Together(name, S.Step(cfg, m.store, L.Done(L.Delete(id), ns)), w, Named(name, v - {id}));
  }

  lemma MaintainSynced(name: Naming, cfg: L.Config, m: Machine, op: L.Op, ns: L.Names)
    requires Faithful(name) && Synced(name, m) && Maintenance(op) && S.Legal(cfg, m.store, L.Done(op, ns))
    ensures Synced(name, Machine(S.Step(cfg, m.store, L.Done(op, ns)), m.world))
  {
    StoreDone(cfg, m.store, op, ns);
  }

  lemma ReadSynced(name: Naming, m: Machine, r: M.Event<Contents>)
    requires Faithful(name) && Synced(name, m) && Reading(r)
    ensures Synced(name, Machine(m.store, M.Step(m.world, r)))
  {
    M.StepGood(m.world, r);
  }

  lemma StepSynced(name: Naming, cfg: L.Config, m: Machine, e: Event, m2: Machine)
    requires Faithful(name) && Next(name, cfg, m, e, m2)
    ensures Synced(name, m2)
  {
    match e
    case Upsert(id, c, ns) =>
      UpsertSynced(name, cfg, m, id, c, ns);
      assert m2 == Machine(S.Step(cfg, m.store, L.Done(L.Put(id, c), ns)), M.Step(m.world, M.Write(name.show(id), c)));
    case Remove(id, ns) =>
      RemoveSynced(name, cfg, m, id, ns);
      assert m2 == Machine(S.Step(cfg, m.store, L.Done(L.Delete(id), ns)), M.Step(m.world, M.Erase(name.show(id))));
    case Maintain(op, ns) =>
      MaintainSynced(name, cfg, m, op, ns);
      assert m2 == Machine(S.Step(cfg, m.store, L.Done(op, ns)), m.world);
    case Read(r) =>
      ReadSynced(name, m, r);
      assert m2 == Machine(m.store, M.Step(m.world, r));
    case Crash(op, ns, k) =>
      RestartSynced(name, m2.store, m2.world);
      assert m2 == Machine(m2.store, m2.world);
  }

  // --------------------------------------------------------------------- runs

  /** A collection in an empty directory. */
  function Start(): Machine {
    Machine(S.Opened(), M.Empty())
  }

  /** The events take the machine from `a` to `b`.  Every step keeps a machine synced, so `Next` excludes no run. */
  ghost predicate Leads(name: Naming, cfg: L.Config, a: Machine, es: seq<Event>, b: Machine)
    requires Faithful(name)
    decreases |es|
  {
    if es == [] then b == a
    else
      var before, e := es[..|es| - 1], es[|es| - 1];
      exists c: Machine :: Leads(name, cfg, a, before, c) && Next(name, cfg, c, e, b)
  }

  lemma LastStep(name: Naming, cfg: L.Config, a: Machine, es: seq<Event>, b: Machine) returns (c: Machine)
    requires Faithful(name) && Leads(name, cfg, a, es, b) && es != []
    ensures Leads(name, cfg, a, es[..|es| - 1], c) && Next(name, cfg, c, es[|es| - 1], b)
  {
    c :| Leads(name, cfg, a, es[..|es| - 1], c) && Next(name, cfg, c, es[|es| - 1], b);
  }

  lemma StartSynced(name: Naming)
    requires Faithful(name)
    ensures Synced(name, Start())
  {
    M.EmptyGood<Contents>();
    assert Named(name, map[]) == map[];
    Together(name, S.Opened(), M.Empty(), map[]);
  }

  lemma LeadsSynced(name: Naming, cfg: L.Config, a: Machine, es: seq<Event>, b: Machine)
    requires Faithful(name) && Synced(name, a) && Leads(name, cfg, a, es, b)
    ensures Synced(name, b)
  {
    if es != [] {
      var c := LastStep(name, cfg, a, es, b);
      StepSynced(name, cfg, c, es[|es| - 1], b);
    }
  }

  /** What an event may do to the plain map of documents: it happens, or, at a crash, it may not. */
  predicate Permits(v: L.View, e: Event, v2: L.View) {
    match Stored(e)
    case None => v2 == v
    case Some(x) => S.Permits(v, x, v2)
  }

  ghost predicate MapRun(v: L.View, es: seq<Event>, v2: L.View)
    decreases |es|
  {
    if es == [] then v2 == v
    else
      var before, e := es[..|es| - 1], es[|es| - 1];
      exists u: L.View :: MapRun(v, before, u) && Permits(u, e, v2)
  }

  /** The documents readers of the store see. */
  function Committed(m: Machine): L.View { L.Live(m.store.mem.table) }

  lemma ShowsCommitted(name: Naming, m: Machine)
    requires Faithful(name) && Synced(name, m)
    ensures Shows(m.world.table.versions, m.world.table.seqno, Named(name, Committed(m)))
  {
    M.NowShown(m.world);
  }

  lemma StepPermitted(name: Naming, cfg: L.Config, m: Machine, e: Event, m2: Machine)
    requires Faithful(name) && Next(name, cfg, m, e, m2)
    ensures Permits(Committed(m), e, Committed(m2))
  {
    if Stored(e).Some? {
      S.StepRefines(cfg, m.store, Stored(e).value);
    }
  }

  lemma {:induction false} LeadsPermitted(name: Naming, cfg: L.Config, a: Machine, es: seq<Event>, b: Machine)
    requires Faithful(name) && Leads(name, cfg, a, es, b)
    ensures MapRun(Committed(a), es, Committed(b))
    decreases |es|
  {
    if es != [] {
      var c := LastStep(name, cfg, a, es, b);
      LeadsPermitted(name, cfg, a, es[..|es| - 1], c);
      StepPermitted(name, cfg, c, es[|es| - 1], b);
    }
  }

  /**
   * A durable collection.  After any run of writes, deletes, maintenance, snapshots and vacuum from an
   * empty directory, with crashes between any two disk effects: the committed documents are those of a
   * run of a plain map, in which an operation in flight at a crash happens or does not, and the versions
   * visible at the current number are exactly these documents, one version each; restarts included.
   */
  lemma DurableMap(name: Naming, cfg: L.Config, es: seq<Event>, m: Machine)
    requires Faithful(name) && Leads(name, cfg, Start(), es, m)
    ensures MapRun(map[], es, Committed(m))
    ensures Shows(m.world.table.versions, m.world.table.seqno, Named(name, Committed(m)))
  {
    StartSynced(name);
    LeadsSynced(name, cfg, Start(), es, m);
    ShowsCommitted(name, m);
    LeadsPermitted(name, cfg, Start(), es, m);
    assert Committed(Start()) == map[];
  }

  // --------------------------------------------------------------- snapshots

  /** The snapshot is open, at a number at which the history has this map. */
  ghost predicate Holding(w: M.World<Contents>, h: nat, m: map<DocId, Contents>) {
    h in w.open && h < w.counter && w.open[h] < |w.history| && w.history[w.open[h]] == m
  }

  /** No crash, and the snapshot is not closed. */
  predicate Spares(e: Event, h: nat) {
    !e.Crash? && e != Read(M.Close(h))
  }

  lemma WorldHolds(w: M.World<Contents>, e: M.Event<Contents>, h: nat, m: map<DocId, Contents>)
    requires M.Good(w) && Holding(w, h, m) && e != M.Close(h)
    ensures Holding(M.Step(w, e), h, m)
  {
    M.StepTold(w, e);
    M.StepPinned(w, e, h);
  }

  lemma StepHolds(name: Naming, cfg: L.Config, a: Machine, e: Event, b: Machine, h: nat, m: map<DocId, Contents>)
    requires Faithful(name) && Next(name, cfg, a, e, b) && Spares(e, h) && Holding(a.world, h, m)
    ensures Holding(b.world, h, m)
  {
    match e
    case Upsert(id, c, _) => WorldHolds(a.world, M.Write(name.show(id), c), h, m);
    case Remove(id, _) => WorldHolds(a.world, M.Erase(name.show(id)), h, m);
    case Maintain(_, _) =>
    case Read(r) => WorldHolds(a.world, r, h, m);
  }

  lemma SparesInit(es: seq<Event>, h: nat)
    requires es != [] && forall e <- es :: Spares(e, h)
    ensures (forall e <- es[..|es| - 1] :: Spares(e, h)) && Spares(es[|es| - 1], h)
  {}

  lemma {:induction false} LeadsHolds(name: Naming, cfg: L.Config, a: Machine, es: seq<Event>, b: Machine, h: nat, m: map<DocId, Contents>)
    requires Faithful(name) && Leads(name, cfg, a, es, b) && Holding(a.world, h, m) && forall e <- es :: Spares(e, h)
    ensures Holding(b.world, h, m)
    decreases |es|
  {
    if es != [] {
      var c := LastStep(name, cfg, a, es, b);
      SparesInit(es, h);
      LeadsHolds(name, cfg, a, es[..|es| - 1], c, h, m);
      StepHolds(name, cfg, c, es[|es| - 1], b, h, m);
    }
  }

  /** What opening a snapshot records. */
  lemma Opening(name: Naming, cfg: L.Config, a: Machine, b: Machine)
    requires Faithful(name) && Next(name, cfg, a, Read(M.Open), b)
    ensures Holding(b.world, a.world.counter, Named(name, Committed(a)))
  {
    M.StepTold(a.world, M.Event<Contents>.Open);
    M.NowShown(a.world);
  }

  lemma HoldingShown(w: M.World<Contents>, h: nat, m: map<DocId, Contents>)
    requires M.Good(w) && Holding(w, h, m)
    ensures Shows(w.table.versions, w.open[h], m)
  {
    M.NowShown(w);
  }

  /**
   * As long as the collection does not crash and the snapshot is not closed, it shows the documents
   * that were committed when it was opened, whatever is written, deleted, flushed and vacuumed meanwhile.
   */
  lemma SnapshotOfCommitted(name: Naming, cfg: L.Config, before: seq<Event>, a: Machine, b: Machine, after: seq<Event>, c: Machine)
    requires Faithful(name) && Leads(name, cfg, Start(), before, a) && Next(name, cfg, a, Read(M.Open), b)
    requires Leads(name, cfg, b, after, c) && forall e <- after :: Spares(e, a.world.counter)
    ensures
      var h := a.world.counter;
      h in c.world.open && Shows(c.world.table.versions, c.world.open[h], Named(name, Committed(a)))
  {
    Opening(name, cfg, a, b);
    LeadsHolds(name, cfg, b, after, c, a.world.counter, Named(name, Committed(a)));
    StepSynced(name, cfg, a, Read(M.Open), b);
    LeadsSynced(name, cfg, b, after, c);
    HoldingShown(c.world, a.world.counter, Named(name, Committed(a)));
  }
}
