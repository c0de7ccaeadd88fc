/** Runs of writers, snapshots and vacuum over the version table. */
module MvccRuns {
  import opened Options
  import opened Mvcc

  datatype Event<D> = Write(id: DocId, contents: D) | Erase(id: DocId) | Open | Close(handle: nat) | Sweep

  /** The table, the open snapshots, the next handle, and the history as plain maps. */
  datatype World<D> = World(table: Table<D>, open: map<nat, nat>, counter: nat, history: seq<map<DocId, D>>)

  /** The oldest sequence number an open reader can still see, or the current one. */
  predicate IsHorizon(open: map<nat, nat>, current: nat, h: nat) {
    if open == map[] then h == current
    else (exists k <- open :: open[k] == h) && forall k <- open :: h <= open[k]
  }

  lemma {:induction false} HorizonExists(open: map<nat, nat>, current: nat)
    ensures exists h: nat :: IsHorizon(open, current, h)
    decreases |open|
  {
    if open == map[] {
      assert IsHorizon(open, current, current);
    } else {
      var k :| k in open;
      var rest := open - {k};
      assert |rest| < |open| by {
        assert rest.Keys == open.Keys - {k};
      }
      HorizonExists(rest, open[k]);
      var h: nat :| IsHorizon(rest, open[k], h);
      var least := if h < open[k] then h else open[k];
      assert forall j <- open :: j == k || j in rest;
      assert IsHorizon(open, current, least);
    }
  }

  ghost function Horizon(open: map<nat, nat>, current: nat): (h: nat)
    ensures IsHorizon(open, current, h)
  {
    HorizonExists(open, current);
    var h: nat :| IsHorizon(open, current, h);
    h
  }

  // ------------------------------------------------------------------- steps

  /** What a mutation means for the history; an erasure of nothing is no mutation. */
  function Told<D>(history: seq<map<DocId, D>>, e: Event<D>): seq<map<DocId, D>>
    requires history != []
  {
    var m := LastMap(history);
    match e
    case Write(id, c) => history + [m[id := c]]
    case Erase(id) => if id in m then history + [m - {id}] else history
    case _ => history
  }

  ghost function Step<D>(w: World<D>, e: Event<D>): World<D>
    requires Good(w)
  {
    CurrentIds(w);
    var told := Told(w.history, e);
    match e
    case Write(id, c) => w.(table := Upsert(w.table, id, c), history := told)
    case Erase(id) => w.(table := Delete(w.table, id), history := told)
    case Open => w.(open := w.open[w.counter := w.table.seqno], counter := w.counter + 1)
    case Close(handle) => w.(open := w.open - {handle})
    case Sweep => w.(table := Vacuum(w.table, Horizon(w.open, w.table.seqno)))
  }

  /** The history is shown from the horizon on. */
  ghost predicate Good<D>(w: World<D>) {
    && Sound(w.table)
    && (forall k <- w.open :: w.open[k] <= w.table.seqno && k < w.counter)
    && Keeps(w.table, w.history, Horizon(w.open, w.table.seqno))
  }

  lemma CurrentIds<D>(w: World<D>)
    requires Good(w)
    ensures w.history != [] && w.table.current.Keys == LastMap(w.history).Keys
    ensures forall id <- w.table.current :: w.table.current[id] in w.table.versions
  {
    CurrentShown(w.table, LastMap(w.history));
    forall id <- w.table.current ensures w.table.current[id] in w.table.versions {
      assert CurrentLives(w.table, id);
    }
  }

  lemma KeepsLater<D>(t: Table<D>, history: seq<map<DocId, D>>, floor: nat, later: nat)
    requires Keeps(t, history, floor) && floor <= later <= t.seqno
    ensures Keeps(t, history, later)
  {}

  /** The horizon never passes the current number, and more open snapshots only hold it back. */
  lemma HorizonBound(open: map<nat, nat>, current: nat)
    requires forall k <- open :: open[k] <= current
    ensures Horizon(open, current) <= current
  {}

  lemma HorizonFewer(open: map<nat, nat>, fewer: map<nat, nat>, current: nat, later: nat)
    requires fewer.Keys <= open.Keys && forall k <- fewer :: fewer[k] == open[k]
    requires current <= later && forall k <- open :: open[k] <= current
    ensures Horizon(open, current) <= Horizon(fewer, later) <= later
  {}

  lemma HorizonOpened(open: map<nat, nat>, current: nat, handle: nat)
    requires handle !in open && forall k <- open :: open[k] <= current
    ensures Horizon(open[handle := current], current) == Horizon(open, current)
  {
    var more := open[handle := current];
    assert handle in more && more[handle] == current;
    if open != map[] {
      var k :| k in open && open[k] == Horizon(open, current);
      assert more[k] == open[k];
    }
  }

  lemma WriteGood<D>(w: World<D>, id: DocId, c: D)
    requires Good(w)
    ensures Good(Step(w, Write(id, c)))
  {
    var t, now := w.table, Horizon(w.open, w.table.seqno);
    CurrentIds(w);
    UpsertSound(t, id, c);
    UpsertKeeps(t, id, c, w.history, now);
    HorizonFewer(w.open, w.open, t.seqno, t.seqno + 1);
    KeepsLater(Upsert(t, id, c), Told(w.history, Write(id, c)), now, Horizon(w.open, t.seqno + 1));
  }

  lemma EraseGood<D>(w: World<D>, id: DocId)
    requires Good(w)
    ensures Good(Step(w, Erase(id)))
  {
    var t, now := w.table, Horizon(w.open, w.table.seqno);
    CurrentIds(w);
    if id in t.current {
      DeleteSound(t, id);
      DeleteKeeps(t, id, w.history, now);
      HorizonFewer(w.open, w.open, t.seqno, t.seqno + 1);
      KeepsLater(Delete(t, id), Told(w.history, Event<D>.Erase(id)), now, Horizon(w.open, t.seqno + 1));
    }
  }

  lemma StepGood<D>(w: World<D>, e: Event<D>)
    requires Good(w)
    ensures Good(Step(w, e))
  {
    var t, now := w.table, Horizon(w.open, w.table.seqno);
    match e
    case Write(id, c) => WriteGood(w, id, c);
    case Erase(id) => EraseGood(w, id);
    case Open =>
      HorizonOpened(w.open, t.seqno, w.counter);
    case Close(handle) =>
      HorizonFewer(w.open, w.open - {handle}, t.seqno, t.seqno);
      KeepsLater(t, w.history, now, Horizon(w.open - {handle}, t.seqno));
    case Sweep =>
      HorizonBound(w.open, t.seqno);
      VacuumSound(t, now);
      VacuumKeeps(t, now, w.history, now);
  }

  // ----------------------------------------------------- what vacuum reclaims

  lemma HorizonUnique(open: map<nat, nat>, current: nat, h: nat, g: nat)
    requires IsHorizon(open, current, h) && IsHorizon(open, current, g)
    ensures h == g
  {
    if open != map[] {
      var j, k :| j in open && k in open && open[j] == h && open[k] == g;
      assert h <= open[k] && g <= open[j];
    }
  }

  /** A sound version is visible to somebody from `h` on, or was dead by then. */
  lemma SeenOrDead<D>(t: Table<D>, k: nat, h: nat)
    requires Sound(t) && k in t.versions && h <= t.seqno
    ensures (exists s | h <= s <= t.seqno :: VisibleAt(t.versions[k], s)) <==> !(t.versions[k].dead.Some? && t.versions[k].dead.value <= h)
  {
    var v := t.versions[k];
    assert SoundVersion(t, k);
    if v.dead.None? {
      assert VisibleAt(v, t.seqno);
    } else if v.dead.value > h {
      assert VisibleAt(v, v.dead.value - 1);
    }
  }

  /**
   * A sweep leaves exactly the versions that are visible at some number from the least open one (or,
   * with none open, the current one) up to the current one; those it leaves are not changed, and
   * nothing else is.
   */
  lemma SweepExact<D>(w: World<D>)
    requires Good(w)
    ensures
      var t, u, h := w.table, Step(w, Event<D>.Sweep).table, Horizon(w.open, w.table.seqno);
      && (forall k :: k in u.versions <==> k in t.versions && exists s | h <= s <= t.seqno :: VisibleAt(t.versions[k], s))
      && (forall k <- u.versions :: u.versions[k] == t.versions[k])
      && u.current == t.current && u.nextKey == t.nextKey && u.seqno == t.seqno
  {
    var t, h := w.table, Horizon(w.open, w.table.seqno);
    HorizonBound(w.open, t.seqno);
    forall k <- t.versions
      ensures k in Step(w, Event<D>.Sweep).table.versions <==> exists s | h <= s <= t.seqno :: VisibleAt(t.versions[k], s)
    {
      SeenOrDead(t, k, h);
    }
  }

  /** With no snapshot open, a sweep leaves one version per document: the live one. */
  lemma SweepIdle<D>(w: World<D>)
    requires Good(w) && w.open == map[]
    ensures
      var u := Step(w, Event<D>.Sweep).table;
      forall k :: k in u.versions <==> exists id <- u.current :: u.current[id] == k
  {
    var t, u := w.table, Step(w, Event<D>.Sweep).table;
    CurrentIds(w);
    SweepExact(w);
    forall k <- u.versions ensures u.versions[k].doc in u.current && u.current[u.versions[k].doc] == k {
      VisibleNow(t, k);
      assert SoundVersion(t, k);
    }
    forall id <- u.current ensures u.current[id] in u.versions {
      assert CurrentLives(t, id);
      VisibleNow(t, t.current[id]);
    }
  }

  // -------------------------------------------------------------------- runs

  /** A run, event by event, from any good world.  Every step leads to a good world. */
  ghost predicate Trace<D>(ws: seq<World<D>>, es: seq<Event<D>>) {
    && |ws| == |es| + 1 && Good(ws[0])
    && forall i | 0 <= i < |es| :: Next(ws[i], es[i], ws[i + 1])
  }

  ghost predicate Next<D>(w: World<D>, e: Event<D>, w2: World<D>) {
    Good(w) && w2 == Step(w, e)
  }

  /** An empty collection. */
  function Empty<D>(): World<D> {
    World(Table(map[], map[], 0, 0), map[], 1, [map[]])
  }

  /** So runs that start with an empty collection are among those of the theorems below. */
  lemma EmptyGood<D>()
    ensures Good(Empty<D>())
  {
    HorizonBound(map[], 0);
  }

  lemma {:induction false} TraceGood<D>(ws: seq<World<D>>, es: seq<Event<D>>, n: nat)
    requires Trace(ws, es) && n <= |es|
    ensures Good(ws[n])
    decreases n
  {
    if n > 0 {
      assert Next(ws[n - 1], es[n - 1], ws[n - 1 + 1]);
      StepGood(ws[n - 1], es[n - 1]);
    }
  }

  /** At its current number a good world shows the last map of its history, and at an open snapshot the map of its number. */
  lemma NowShown<D>(w: World<D>)
    requires Good(w)
    ensures |w.history| == w.table.seqno + 1 && Shows(w.table.versions, w.table.seqno, LastMap(w.history))
    ensures forall h <- w.open :: w.open[h] <= w.table.seqno && Shows(w.table.versions, w.open[h], w.history[w.open[h]])
  {
    HorizonBound(w.open, w.table.seqno);
  }

  /**
   * At every point of every run, at the current number and at every open snapshot, the visible
   * versions are exactly the map that held after all mutations up to that number, with one version
   * per document, whatever vacuum has reclaimed.
   */
  lemma SnapshotHistory<D>(ws: seq<World<D>>, es: seq<Event<D>>, n: nat)
    requires Trace(ws, es) && n <= |es|
    ensures
      var w := ws[n];
      && |w.history| == w.table.seqno + 1
      && Shows(w.table.versions, w.table.seqno, LastMap(w.history))
      && forall h <- w.open :: w.open[h] <= w.table.seqno && Shows(w.table.versions, w.open[h], w.history[w.open[h]])
  {
    TraceGood(ws, es, n);
    NowShown(ws[n]);
  }

  /** What a step does to the number and the history. */
  lemma StepTold<D>(w: World<D>, e: Event<D>)
    requires Good(w)
    ensures Good(Step(w, e)) && w.history != [] && Step(w, e).history == Told(w.history, e)
    ensures
      var draws := e.Write? || (e.Erase? && e.id in LastMap(w.history));
      Step(w, e).table.seqno == w.table.seqno + (if draws then 1 else 0)
  {
    CurrentIds(w);
    StepGood(w, e);
  }

  /** A step keeps the number of an open snapshot and the history it was opened on. */
  lemma StepPinned<D>(w: World<D>, e: Event<D>, h: nat)
    requires Good(w) && h in w.open && h in Step(w, e).open
    ensures Step(w, e).open[h] == w.open[h] && w.history <= Step(w, e).history
  {
    StepTold(w, e);
    assert h < w.counter;
  }

  /** An open snapshot keeps its number, and the history it was opened on stays. */
  lemma {:induction false} Pinned<D>(ws: seq<World<D>>, es: seq<Event<D>>, h: nat, i: nat, j: nat)
    requires Trace(ws, es) && i <= j <= |es| && forall n | i <= n <= j :: h in ws[n].open
    ensures ws[i].open[h] == ws[j].open[h] && ws[i].history <= ws[j].history
    decreases j
  {
    if i < j {
      Pinned(ws, es, h, i, j - 1);
      TraceGood(ws, es, j - 1);
      assert Next(ws[j - 1], es[j - 1], ws[j - 1 + 1]);
      StepPinned(ws[j - 1], es[j - 1], h);
    }
  }

  /** As long as a snapshot is open, it shows the map that held when it was opened. */
  lemma SnapshotStable<D>(ws: seq<World<D>>, es: seq<Event<D>>, h: nat, i: nat, j: nat)
    requires Trace(ws, es) && i < j <= |es| && es[i] == Open && h == ws[i].counter
    requires forall n | i + 1 <= n <= j :: h in ws[n].open
    ensures ws[i].history != [] && Shows(ws[j].table.versions, ws[j].open[h], LastMap(ws[i].history))
  {
    TraceGood(ws, es, i);
    assert Next(ws[i], es[i], ws[i + 1]);
    Pinned(ws, es, h, i + 1, j);
    SnapshotHistory(ws, es, j);
    SnapshotHistory(ws, es, i);
  }

  // ------------------------------------------------------------ after a restart

  /** A record the store recovered. */
  datatype Stored<D> = Stored(id: DocId, seqno: nat, contents: D)

  function Added<D>(t: Table<D>, r: Stored<D>): Table<D> {
    Table(t.versions[t.nextKey := Version(r.id, r.seqno, None, r.contents)], t.current[r.id := t.nextKey], t.nextKey + 1, t.seqno)
  }

  /** The table that the store's live records rebuild, in order. */
  function Rebuilt<D>(records: seq<Stored<D>>, seqno: nat): Table<D> {
    if records == [] then Table(map[], map[], 0, seqno)
    else Added(Rebuilt(records[..|records| - 1], seqno), records[|records| - 1])
  }

  function Recorded<D>(records: seq<Stored<D>>): map<DocId, D> {
    if records == [] then map[]
    else
      var r := records[|records| - 1];
      Recorded(records[..|records| - 1])[r.id := r.contents]
  }

  predicate DistinctIds<D>(records: seq<Stored<D>>) {
    forall i, j | 0 <= i < j < |records| :: records[i].id != records[j].id
  }

  lemma AddedSound<D>(t: Table<D>, r: Stored<D>, m: map<DocId, D>)
    requires Sound(t) && Lists(t, m) && r.id !in t.current && r.seqno <= t.seqno
    ensures Sound(Added(t, r)) && Lists(Added(t, r), m[r.id := r.contents])
  {
    var u := Added(t, r);
    forall k <- u.versions ensures SoundVersion(u, k) {
      if k != t.nextKey { assert SoundVersion(t, k); }
    }
    forall id <- u.current ensures CurrentLives(u, id) {
      if id != r.id { assert CurrentLives(t, id) && SoundVersion(t, t.current[id]); }
    }
    forall id <- m[r.id := r.contents] ensures m[r.id := r.contents][id] == u.versions[u.current[id]].contents {
      if id != r.id { assert CurrentLives(t, id) && SoundVersion(t, t.current[id]); }
    }
  }

  lemma {:induction false} RebuiltSound<D>(records: seq<Stored<D>>, seqno: nat)
    requires DistinctIds(records) && forall r <- records :: r.seqno <= seqno
    ensures Sound(Rebuilt(records, seqno)) && Lists(Rebuilt(records, seqno), Recorded(records))
    ensures Rebuilt(records, seqno).seqno == seqno
    ensures forall id <- Recorded(records) :: exists i | 0 <= i < |records| :: records[i].id == id
    decreases |records|
  {
    if records != [] {
      var n := |records| - 1;
      RebuiltSound(records[..n], seqno);
      assert records[n].id !in Recorded(records[..n]);
      AddedSound(Rebuilt(records[..n], seqno), records[n], Recorded(records[..n]));
      assert records[n].id == records[n].id;
      forall id <- Recorded(records) ensures exists i | 0 <= i < |records| :: records[i].id == id {
        if id != records[n].id {
          var i :| 0 <= i < n && records[..n][i].id == id;
          assert records[i].id == id;
        }
      }
    }
  }

  /** Each record is one version, born when it was stored, and the current one of its document. */
  ghost predicate Holds<D>(t: Table<D>, records: seq<Stored<D>>) {
    && t.nextKey == |records|
    && (forall k <- t.versions :: k < |records|)
    && (forall i | 0 <= i < |records| :: HeldAt(t, i, records[i]))
    && forall id <- t.current :: t.current[id] < |records| && records[t.current[id]].id == id
  }

  ghost predicate HeldAt<D>(t: Table<D>, i: nat, r: Stored<D>) {
    && i in t.versions && t.versions[i] == Version(r.id, r.seqno, None, r.contents)
    && r.id in t.current && t.current[r.id] == i
  }

  lemma {:induction false} RebuiltExact<D>(records: seq<Stored<D>>, seqno: nat)
    requires DistinctIds(records)
    ensures Holds(Rebuilt(records, seqno), records)
    decreases |records|
  {
    if records != [] {
      var n := |records| - 1;
      var t, u := Rebuilt(records[..n], seqno), Rebuilt(records, seqno);
      RebuiltExact(records[..n], seqno);
      forall i | 0 <= i < |records| ensures HeldAt(u, i, records[i]) {
        if i < n {
          assert HeldAt(t, i, records[..n][i]);
        }
      }
    }
  }

  /** A restarted collection is a good world: it shows the recovered records, from now on. */
  lemma RestartGood<D>(records: seq<Stored<D>>, seqno: nat, history: seq<map<DocId, D>>)
    requires DistinctIds(records) && forall r <- records :: r.seqno <= seqno
    requires |history| == seqno + 1 && history[seqno] == Recorded(records)
    ensures Good(World(Rebuilt(records, seqno), map[], 1, history))
  {
    RebuiltSound(records, seqno);
    ShowsCurrent(Rebuilt(records, seqno), Recorded(records));
    HorizonBound(map[], seqno);
  }
}
