/** The replicated state machine over a collection (cluster/state_machine.py). */
module StateMachine {
  import opened Options
  import opened Replication

  /** The payload of a snapshot: the live documents, listed by id, and how many commands they stand for. */
  datatype Saved = Saved(documents: seq<(DocId, Document)>, applied: nat)

  /** The documents that upserting a list one by one leaves. */
  function Loaded(list: seq<(DocId, Document)>): Documents {
    if list == [] then map[] else Loaded(list[..|list| - 1])[list[|list| - 1].0 := list[|list| - 1].1]
  }

  lemma LoadedSnoc(list: seq<(DocId, Document)>, docs: Documents, rest: set<DocId>, id: DocId)
    requires Loaded(list) == docs - rest && id in rest && id in docs
    ensures Loaded(list + [(id, docs[id])]) == docs - (rest - {id})
  {
    assert (list + [(id, docs[id])])[..|list|] == list;
    assert (docs - rest)[id := docs[id]] == docs - (rest - {id});
  }

  class CollectionStateMachine {
    var documents: Documents
    var applied: nat

    constructor ()
      ensures documents == map[] && applied == 0
    {
      documents, applied := map[], 0;
    }

    method Apply(c: Command)
      modifies this
      ensures documents == Replication.Apply(old(documents), c) && applied == old(applied) + 1
    {
      match c {
        case Upsert(id, doc) => documents := documents[id := doc];
        case Delete(id) => documents := documents - {id};
        case Noop =>
      }
      applied := applied + 1;
    }

    /** Restoring what is saved here loads exactly the documents there are. */
    method Snapshot() returns (s: Saved)
      ensures s.applied == applied && Loaded(s.documents) == documents
    {
      var list: seq<(DocId, Document)> := [];
      var rest := documents.Keys;
      while rest != {}
        invariant rest <= documents.Keys && Loaded(list) == documents - rest
        decreases |rest|
      {
        var id :| id in rest;
        LoadedSnoc(list, documents, rest, id);
        list := list + [(id, documents[id])];
        rest := rest - {id};
      }
      assert documents - {} == documents;
      s := Saved(list, applied);
    }

    /** No snapshot, no change; otherwise nothing of the old state is left. */
    method Restore(s: Option<Saved>)
      modifies this
      ensures s.None? ==> documents == old(documents) && applied == old(applied)
      ensures s.Some? ==> documents == Loaded(s.value.documents) && applied == s.value.applied
    {
      if s.None? {
        return;
      }
      var list := s.value.documents;
      var rest := documents.Keys;
      while rest != {}
        invariant documents.Keys == rest
        decreases |rest|
      {
        var id :| id in rest;
        documents := documents - {id};
        rest := rest - {id};
      }
      assert documents == map[];
      for i := 0 to |list|
        invariant documents == Loaded(list[..i])
      {
        assert list[..i + 1][..i] == list[..i];
        documents := documents[list[i].0 := list[i].1];
      }
      assert list[..|list|] == list;
      applied := s.value.applied;
    }

    /**
     * Catching up from a snapshot that another replica took after `a` commands, by the commands from
     * `t <= a` on, ends where applying all commands from the start ends.
     */
    method CatchUp(s: Saved, commands: seq<Command>, t: nat, a: nat)
      requires t <= a <= |commands| && Loaded(s.documents) == Replay(map[], commands[..a])
      modifies this
      ensures documents == Replay(map[], commands)
    {
      Restore(Some(s));
      ghost var from := documents;
      for i := t to |commands|
        invariant documents == Replay(from, commands[t..i])
      {
        assert commands[t..i + 1][..i - t] == commands[t..i] && commands[t..i + 1][i - t] == commands[i];
        Apply(commands[i]);
      }
      assert commands[t..|commands|] == commands[t..];
      SnapshotReplay(map[], commands, t, a);
    }
  }
}
