/** The version table of a collection as a value, against a history of plain maps (mvcc.py, db.py). */
module Mvcc {
  import opened Options

  type DocId = string

  /** `dead` is absent for a version that is still live. */
  datatype Version<D> = Version(doc: DocId, born: nat, dead: Option<nat>, contents: D)

  predicate VisibleAt<D>(v: Version<D>, s: nat) {
    v.born <= s && (v.dead.Some? ==> s < v.dead.value)
  }

  type Versions<D> = map<nat, Version<D>>

  datatype Table<D> = Table(versions: Versions<D>, current: map<DocId, nat>, nextKey: nat, seqno: nat)

  // -------------------------------------------------------------- operations

  function Upsert<D>(t: Table<D>, id: DocId, c: D): Table<D>
    requires id in t.current ==> t.current[id] in t.versions
  {
    var s := t.seqno + 1;
    var vs := if id in t.current then Kill(t.versions, t.current[id], s) else t.versions;
    Table(vs[t.nextKey := Version(id, s, None, c)], t.current[id := t.nextKey], t.nextKey + 1, s)
  }

  function Kill<D>(vs: Versions<D>, key: nat, s: nat): Versions<D>
    requires key in vs
  {
    vs[key := vs[key].(dead := Some(s))]
  }

  function Delete<D>(t: Table<D>, id: DocId): Table<D>
    requires id in t.current ==> t.current[id] in t.versions
  {
    if id !in t.current then t
    else Table(Kill(t.versions, t.current[id], t.seqno + 1), t.current - {id}, t.nextKey, t.seqno + 1)
  }

  predicate Reclaimable<D>(v: Version<D>, horizon: nat) {
    v.dead.Some? && v.dead.value <= horizon
  }

  function Vacuum<D>(t: Table<D>, horizon: nat): Table<D> {
    t.(versions := map k | k in t.versions && !Reclaimable(t.versions[k], horizon) :: t.versions[k])
  }

  // --------------------------------------------------------------- invariant

  predicate SoundVersion<D>(t: Table<D>, k: nat)
    requires k in t.versions
  {
    var v := t.versions[k];
    && k < t.nextKey && v.born <= t.seqno
    && match v.dead
       case Some(d) => v.born < d <= t.seqno
       case None => v.doc in t.current && t.current[v.doc] == k
  }

  predicate CurrentLives<D>(t: Table<D>, id: DocId)
    requires id in t.current
  {
    var k := t.current[id];
    k in t.versions && t.versions[k].doc == id && t.versions[k].dead.None?
  }

  predicate Sound<D>(t: Table<D>) {
    && (forall k <- t.versions :: SoundVersion(t, k))
    && forall id <- t.current :: CurrentLives(t, id)
  }

  /** The versions visible at `s` are exactly the map `m`, with one version per document. */
  ghost predicate Shows<D>(vs: Versions<D>, s: nat, m: map<DocId, D>) {
    && (forall k <- vs | VisibleAt(vs[k], s) :: vs[k].doc in m && m[vs[k].doc] == vs[k].contents)
    && (forall id <- m :: exists k <- vs :: VisibleAt(vs[k], s) && vs[k].doc == id)
    && forall k, l | k in vs && l in vs && VisibleAt(vs[k], s) && VisibleAt(vs[l], s) && vs[k].doc == vs[l].doc :: k == l
  }

  /** `history[s]` is the map after the mutations numbered up to `s`; it is still shown from `floor` on. */
  ghost predicate Keeps<D>(t: Table<D>, history: seq<map<DocId, D>>, floor: nat) {
    && |history| == t.seqno + 1 && floor <= t.seqno
    && forall s | floor <= s <= t.seqno :: Shows(t.versions, s, history[s])
  }

  // ------------------------------------------------------------ preservation

  lemma UpsertSound<D>(t: Table<D>, id: DocId, c: D)
    requires Sound(t)
    ensures Sound(Upsert(t, id, c))
  {
    var u := Upsert(t, id, c);
    forall k <- u.versions ensures SoundVersion(u, k) {
      if k != t.nextKey {
        assert SoundVersion(t, k);
        assert id in t.current ==> CurrentLives(t, id);
      }
    }
    forall x <- u.current ensures CurrentLives(u, x) {
      if x != id {
        assert CurrentLives(t, x);
        assert SoundVersion(t, t.current[x]);
        assert id in t.current ==> CurrentLives(t, id);
      }
    }
  }

  lemma DeleteSound<D>(t: Table<D>, id: DocId)
    requires Sound(t)
    ensures Sound(Delete(t, id))
  {
    if id in t.current {
      var u := Delete(t, id);
      assert CurrentLives(t, id);
      forall k <- u.versions ensures SoundVersion(u, k) {
        assert SoundVersion(t, k);
      }
      forall x <- u.current ensures CurrentLives(u, x) {
        assert CurrentLives(t, x);
      }
    }
  }

  lemma VacuumSound<D>(t: Table<D>, horizon: nat)
    requires Sound(t)
    ensures Sound(Vacuum(t, horizon))
  {
    var u := Vacuum(t, horizon);
    forall k <- u.versions ensures SoundVersion(u, k) {
      assert SoundVersion(t, k);
    }
    forall x <- u.current ensures CurrentLives(u, x) {
      assert CurrentLives(t, x);
    }
  }

  /** Two tables with the same versions visible at `s` show the same. */
  lemma SameShown<D>(vs: Versions<D>, ws: Versions<D>, s: nat, m: map<DocId, D>)
    requires Shows(vs, s, m)
    requires forall k :: k in ws && VisibleAt(ws[k], s) <==> k in vs && VisibleAt(vs[k], s)
    requires forall k | k in vs && k in ws && VisibleAt(vs[k], s) :: vs[k].doc == ws[k].doc && vs[k].contents == ws[k].contents
    ensures Shows(ws, s, m)
  {
    forall id <- m ensures exists k <- ws :: VisibleAt(ws[k], s) && ws[k].doc == id {
      var k :| k in vs && VisibleAt(vs[k], s) && vs[k].doc == id;
      assert k in ws && VisibleAt(ws[k], s);
    }
  }

  /** A mutation does not change what earlier snapshots see. */
  lemma UpsertPast<D>(t: Table<D>, id: DocId, c: D, s: nat, m: map<DocId, D>)
    requires Sound(t) && s <= t.seqno && Shows(t.versions, s, m)
    ensures Shows(Upsert(t, id, c).versions, s, m)
  {
    var ws := Upsert(t, id, c).versions;
    forall k ensures k in ws && VisibleAt(ws[k], s) <==> k in t.versions && VisibleAt(t.versions[k], s) {
      if k in t.versions {
        assert SoundVersion(t, k);
        assert id in t.current ==> CurrentLives(t, id);
      }
    }
    forall k | k in t.versions && k in ws
      ensures t.versions[k].doc == ws[k].doc && t.versions[k].contents == ws[k].contents
    {
      assert SoundVersion(t, k);
    }
    SameShown(t.versions, ws, s, m);
  }

  lemma DeletePast<D>(t: Table<D>, id: DocId, s: nat, m: map<DocId, D>)
    requires Sound(t) && s <= t.seqno && Shows(t.versions, s, m)
    ensures Shows(Delete(t, id).versions, s, m)
  {
    if id in t.current {
      var ws := Delete(t, id).versions;
      assert CurrentLives(t, id);
      forall k ensures k in ws && VisibleAt(ws[k], s) <==> k in t.versions && VisibleAt(t.versions[k], s) {
        if k in t.versions {
          assert SoundVersion(t, k);
        }
      }
      SameShown(t.versions, ws, s, m);
    }
  }

  /** At the current number, the visible versions are the live ones. */
  lemma VisibleNow<D>(t: Table<D>, k: nat)
    requires Sound(t) && k in t.versions
    ensures VisibleAt(t.versions[k], t.seqno) <==> t.versions[k].dead.None?
  {
    assert SoundVersion(t, k);
  }

  /** `m` is what the index of current versions says. */
  ghost predicate Lists<D>(t: Table<D>, m: map<DocId, D>) {
    && m.Keys == t.current.Keys
    && forall id <- m :: CurrentLives(t, id) && m[id] == t.versions[t.current[id]].contents
  }

  /** A sound table shows, at its current number, exactly what its index of current versions says. */
  lemma ShowsCurrent<D>(t: Table<D>, m: map<DocId, D>)
    requires Sound(t) && Lists(t, m)
    ensures Shows(t.versions, t.seqno, m)
  {
    forall k <- t.versions ensures VisibleAt(t.versions[k], t.seqno) ==>
                                     t.versions[k].doc in t.current && t.current[t.versions[k].doc] == k
    {
      assert SoundVersion(t, k);
    }
    forall id <- m ensures exists k <- t.versions :: VisibleAt(t.versions[k], t.seqno) && t.versions[k].doc == id {
      VisibleNow(t, t.current[id]);
    }
  }

  /** What a sound table shows now is what its index says. */
  lemma CurrentShown<D>(t: Table<D>, m: map<DocId, D>)
    requires Sound(t) && Shows(t.versions, t.seqno, m)
    ensures Lists(t, m)
  {
    forall id <- t.current ensures id in m && m[id] == t.versions[t.current[id]].contents {
      assert CurrentLives(t, id);
      VisibleNow(t, t.current[id]);
    }
    forall id <- m ensures id in t.current {
      var k :| k in t.versions && VisibleAt(t.versions[k], t.seqno) && t.versions[k].doc == id;
      VisibleNow(t, k);
      assert SoundVersion(t, k);
    }
  }

  lemma UpsertLists<D>(t: Table<D>, id: DocId, c: D, m: map<DocId, D>)
    requires Sound(t) && Lists(t, m)
    ensures Lists(Upsert(t, id, c), m[id := c])
  {
    var u := Upsert(t, id, c);
    forall x <- m[id := c] ensures CurrentLives(u, x) && m[id := c][x] == u.versions[u.current[x]].contents {
      if x != id {
        assert CurrentLives(t, x) && SoundVersion(t, t.current[x]);
        assert id in t.current ==> CurrentLives(t, id);
      }
    }
  }

  lemma UpsertShown<D>(t: Table<D>, id: DocId, c: D, m: map<DocId, D>)
    requires Sound(t) && Lists(t, m)
    ensures Shows(Upsert(t, id, c).versions, t.seqno + 1, m[id := c])
  {
    UpsertSound(t, id, c);
    UpsertLists(t, id, c, m);
    ShowsCurrent(Upsert(t, id, c), m[id := c]);
  }

  lemma UpsertNow<D>(t: Table<D>, id: DocId, c: D, m: map<DocId, D>)
    requires Sound(t) && Shows(t.versions, t.seqno, m)
    ensures Shows(Upsert(t, id, c).versions, t.seqno + 1, m[id := c])
  {
    CurrentShown(t, m);
    UpsertShown(t, id, c, m);
  }

  lemma DeleteLists<D>(t: Table<D>, id: DocId, m: map<DocId, D>)
    requires Sound(t) && Lists(t, m) && id in t.current
    ensures Lists(Delete(t, id), m - {id})
  {
    var u := Delete(t, id);
    assert CurrentLives(t, id);
    forall x <- m - {id} ensures CurrentLives(u, x) && (m - {id})[x] == u.versions[u.current[x]].contents {
      assert CurrentLives(t, x);
    }
  }

  lemma DeleteShown<D>(t: Table<D>, id: DocId, m: map<DocId, D>)
    requires Sound(t) && Lists(t, m) && id in t.current
    ensures Shows(Delete(t, id).versions, t.seqno + 1, m - {id})
  {
    DeleteSound(t, id);
    DeleteLists(t, id, m);
    ShowsCurrent(Delete(t, id), m - {id});
  }

  lemma DeleteNow<D>(t: Table<D>, id: DocId, m: map<DocId, D>)
    requires Sound(t) && Shows(t.versions, t.seqno, m) && id in t.current
    ensures Shows(Delete(t, id).versions, t.seqno + 1, m - {id})
  {
    CurrentShown(t, m);
    DeleteShown(t, id, m);
  }

  /** Vacuum changes nothing that a snapshot at or after the horizon sees. */
  lemma VacuumShows<D>(t: Table<D>, horizon: nat, s: nat, m: map<DocId, D>)
    requires horizon <= s && Shows(t.versions, s, m)
    ensures Shows(Vacuum(t, horizon).versions, s, m)
  {
    SameShown(t.versions, Vacuum(t, horizon).versions, s, m);
  }

  // --------------------------------------------------------- whole histories

  function LastMap<D>(history: seq<map<DocId, D>>): map<DocId, D>
    requires history != []
  {
    history[|history| - 1]
  }

  lemma UpsertKeeps<D>(t: Table<D>, id: DocId, c: D, history: seq<map<DocId, D>>, floor: nat)
    requires Sound(t) && Keeps(t, history, floor)
    ensures Keeps(Upsert(t, id, c), history + [LastMap(history)[id := c]], floor)
  {
    var next := history + [LastMap(history)[id := c]];
    forall s | floor <= s <= t.seqno + 1 ensures Shows(Upsert(t, id, c).versions, s, next[s]) {
      if s <= t.seqno {
        UpsertPast(t, id, c, s, history[s]);
      } else {
        UpsertNow(t, id, c, LastMap(history));
      }
    }
  }

  lemma DeleteKeeps<D>(t: Table<D>, id: DocId, history: seq<map<DocId, D>>, floor: nat)
    requires Sound(t) && Keeps(t, history, floor) && id in t.current
    ensures Keeps(Delete(t, id), history + [LastMap(history) - {id}], floor)
  {
    var next := history + [LastMap(history) - {id}];
    forall s | floor <= s <= t.seqno + 1 ensures Shows(Delete(t, id).versions, s, next[s]) {
      if s <= t.seqno {
        DeletePast(t, id, s, history[s]);
      } else {
        DeleteNow(t, id, LastMap(history));
      }
    }
  }

  lemma VacuumKeeps<D>(t: Table<D>, horizon: nat, history: seq<map<DocId, D>>, floor: nat)
    requires Keeps(t, history, floor) && horizon <= t.seqno
    ensures Keeps(Vacuum(t, horizon), history, Max(floor, horizon))
  {
    forall s | Max(floor, horizon) <= s <= t.seqno ensures Shows(Vacuum(t, horizon).versions, s, history[s]) {
      VacuumShows(t, horizon, s, history[s]);
    }
  }
}
