/** The collection's version table and snapshot registry, updated in place (db.py, mvcc.py). */
module VersionedCollection {
  import opened Options
  import opened Mvcc
  import opened MvccRuns

  class SnapshotRegistry {
    var open: map<nat, nat>
    var counter: nat

    constructor ()
      ensures open == map[] && counter == 1
    {
      open, counter := map[], 1;
    }

    method Acquire(seqno: nat) returns (handle: nat)
      modifies this
      ensures handle == old(counter) && counter == old(counter) + 1 && open == old(open)[handle := seqno]
    {
      handle := counter;
      counter := counter + 1;
      open := open[handle := seqno];
    }

    method Release(handle: nat)
      modifies this`open
      ensures open == old(open) - {handle}
    {
      open := open - {handle};
    }

    /** The least of the open numbers, or the current one. */
    method Oldest(current: nat) returns (h: nat)
      ensures IsHorizon(open, current, h)
    {
      h := current;
      var rest := open.Keys;
      while rest != {}
        invariant rest <= open.Keys
        invariant rest == open.Keys ==> h == current
        invariant rest != open.Keys ==> (exists k :: k in open && k !in rest && open[k] == h) && forall k <- open | k !in rest :: h <= open[k]
        decreases |rest|
      {
        var k :| k in rest;
        if rest == open.Keys || open[k] < h {
          h := open[k];
        }
        rest := rest - {k};
        assert k in open && k !in rest;
      }
      assert open == map[] <==> open.Keys == {};
    }
  }

  lemma VacuumDrops<D>(t: Table<D>, h: nat, dead: set<nat>)
    requires dead == set k | k in t.versions && Reclaimable(t.versions[k], h)
    ensures t.(versions := t.versions - dead) == Vacuum(t, h)
  {
    assert t.versions - dead == Vacuum(t, h).versions;
  }

  lemma DroppedCount<D>(vs: Versions<D>, dead: set<nat>)
    requires dead <= vs.Keys
    ensures |dead| + |(vs - dead).Keys| == |vs.Keys|
  {
    assert vs.Keys == (vs - dead).Keys + dead;
  }

  class Collection<D(==)> {
    const snapshots: SnapshotRegistry
    var versions: Versions<D>
    var current: map<DocId, nat>
    var nextKey: nat
    /** The store's sequence number. */
    var seqno: nat

    function Contents(): Table<D>
      reads this
    {
      Table(versions, current, nextKey, seqno)
    }

    /** Opening a collection rebuilds the table from the store's live records, oldest first. */
    constructor (records: seq<Stored<D>>, seqno: nat)
      ensures fresh(snapshots) && snapshots.open == map[] && snapshots.counter == 1
      ensures Contents() == Rebuilt(records, seqno)
    {
      snapshots := new SnapshotRegistry();
      versions, current, nextKey, this.seqno := map[], map[], 0, seqno;
      new;
      for i := 0 to |records|
        invariant fresh(snapshots) && snapshots.open == map[] && snapshots.counter == 1
        invariant Contents() == Rebuilt(records[..i], seqno)
      {
        var r, key := records[i], nextKey;
        nextKey := nextKey + 1;
        versions := versions[key := Version(r.id, r.seqno, None, r.contents)];
        current := current[r.id := key];
        assert records[..i + 1][..i] == records[..i];
      }
      assert records[..|records|] == records;
    }

    /** An empty document id is rejected; otherwise the result is the commit sequence number. */
    method Put(id: DocId, contents: D) returns (committed: Option<nat>)
      requires Sound(Contents())
      modifies this
      ensures id == "" ==> committed == None && Contents() == old(Contents())
      ensures id != "" ==> committed == Some(seqno) && Contents() == Upsert(old(Contents()), id, contents)
    {
      if id == "" {
        return None;
      }
      assert id in current ==> CurrentLives(Contents(), id);
      seqno := seqno + 1;
      if id in current {
        var k := current[id];
        versions := versions[k := versions[k].(dead := Some(seqno))];
      }
      var key := nextKey;
      nextKey := nextKey + 1;
      versions := versions[key := Version(id, seqno, None, contents)];
      current := current[id := key];
      return Some(seqno);
    }

    method Remove(id: DocId) returns (existed: bool)
      requires Sound(Contents())
      modifies this
      ensures existed == (id in old(current)) && Contents() == Delete(old(Contents()), id)
    {
      if id !in current {
        return false;
      }
      assert CurrentLives(Contents(), id);
      var k := current[id];
      current := current - {id};
      seqno := seqno + 1;
      versions := versions[k := versions[k].(dead := Some(seqno))];
      return true;
    }

    method Snapshot() returns (handle: nat, at: nat)
      modifies snapshots
      ensures at == seqno && handle == old(snapshots.counter) && snapshots.open == old(snapshots.open)[handle := seqno]
      ensures snapshots.counter == old(snapshots.counter) + 1
    {
      at := seqno;
      handle := snapshots.Acquire(seqno);
    }

    /** The keys a reader at `s` may see, as an exact scan collects them. */
    method VisibleKeys(s: nat) returns (keys: set<nat>)
      ensures keys == set k | k in versions && VisibleAt(versions[k], s)
    {
      keys := {};
      var rest := versions.Keys;
      while rest != {}
        invariant rest <= versions.Keys && keys == set k | k in versions && k !in rest && VisibleAt(versions[k], s)
        decreases |rest|
      {
        var k :| k in rest;
        if VisibleAt(versions[k], s) {
          keys := keys + {k};
        }
        rest := rest - {k};
      }
    }

    method FindDead(h: nat) returns (dead: set<nat>)
      ensures dead == set k | k in versions && Reclaimable(versions[k], h)
    {
      dead := {};
      var rest := versions.Keys;
      while rest != {}
        invariant rest <= versions.Keys && dead == set k | k in versions && k !in rest && Reclaimable(versions[k], h)
        decreases |rest|
      {
        var k :| k in rest;
        if Reclaimable(versions[k], h) {
          dead := dead + {k};
        }
        rest := rest - {k};
      }
    }

    method DropAll(dead: set<nat>)
      modifies this`versions
      ensures versions == old(versions) - dead
    {
      var rest := dead;
      while rest != {}
        invariant rest <= dead && versions == old(versions) - (dead - rest)
        decreases |rest|
      {
        var k :| k in rest;
        versions := versions - {k};
        rest := rest - {k};
      }
    }

    /** Drops the versions dead by the least open number, or by the current one; the result is their number. */
    method Clean() returns (dropped: nat)
      modifies this`versions
      ensures forall h: nat | IsHorizon(snapshots.open, seqno, h) ::
                forall k <- old(versions) :: k !in versions <==> old(versions)[k].dead.Some? && old(versions)[k].dead.value <= h
      ensures forall k <- versions :: k in old(versions) && versions[k] == old(versions)[k]
      ensures exists h: nat :: IsHorizon(snapshots.open, seqno, h) && Contents() == Vacuum(old(Contents()), h)
      ensures dropped + |versions.Keys| == |old(versions).Keys|
    {
      var h := snapshots.Oldest(seqno);
      var dead := FindDead(h);
      DropAll(dead);
      dropped := |dead|;
      VacuumDrops(old(Contents()), h, dead);
      DroppedCount(old(versions), dead);
      forall g: nat | IsHorizon(snapshots.open, seqno, g) ensures g == h {
        HorizonUnique(snapshots.open, seqno, g, h);
      }
    }
  }
}
