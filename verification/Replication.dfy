/** The replicated commands and the document map they act on (cluster/state_machine.py). */
module Replication {
  import opened Options

  type DocId = string

  /** What a replica stores for one document; the float, JSON and text contents are opaque. */
  datatype Document = Document(vector: seq<int>, metadata: int, text: Option<string>)

  type Documents = map<DocId, Document>

  datatype Command =
    | Upsert(id: DocId, doc: Document)
    | Delete(id: DocId)
    | Noop

  function Apply(docs: Documents, c: Command): Documents {
    match c
    case Upsert(id, doc) => docs[id := doc]
    case Delete(id) => docs - {id}
    case Noop => docs
  }

  function Replay(docs: Documents, cs: seq<Command>): Documents {
    if cs == [] then docs else Apply(Replay(docs, cs[..|cs| - 1]), cs[|cs| - 1])
  }

  lemma {:induction false} ReplayAppend(docs: Documents, a: seq<Command>, b: seq<Command>)
    ensures Replay(docs, a + b) == Replay(Replay(docs, a), b)
    decreases |b|
  {
    if b == [] {
      assert a + b == a;
    } else {
      var b' := b[..|b| - 1];
      ReplayAppend(docs, a, b');
      assert (a + b)[..|a + b| - 1] == a + b';
    }
  }

  predicate Writes(c: Command, id: DocId) {
    (c.Upsert? || c.Delete?) && c.id == id
  }

  /** What a run of commands leaves under one id: the last write to it, or what was there before. */
  function Final(docs: Documents, cs: seq<Command>, id: DocId): Option<Document> {
    if cs == [] then if id in docs then Some(docs[id]) else None
    else
      var c := cs[|cs| - 1];
      if !Writes(c, id) then Final(docs, cs[..|cs| - 1], id)
      else if c.Upsert? then Some(c.doc)
      else None
  }

  lemma {:induction false} ReplayIsLastWrite(docs: Documents, cs: seq<Command>, id: DocId)
    ensures var r := Replay(docs, cs); Final(docs, cs, id) == if id in r then Some(r[id]) else None
    decreases |cs|
  {
    if cs != [] {
      ReplayIsLastWrite(docs, cs[..|cs| - 1], id);
    }
  }

  /** If two maps agree on an id, or it is written at all, replaying the same commands agrees on it. */
  lemma {:induction false} FinalAgrees(a: Documents, b: Documents, cs: seq<Command>, id: DocId)
    requires Final(a, [], id) == Final(b, [], id) || exists c <- cs :: Writes(c, id)
    ensures Final(a, cs, id) == Final(b, cs, id)
    decreases |cs|
  {
    if cs != [] {
      var rest, c := cs[..|cs| - 1], cs[|cs| - 1];
      if !Writes(c, id) {
        if w :| w in cs && Writes(w, id) {
          assert cs == rest + [c];
          assert w in rest;
        }
        FinalAgrees(a, b, rest, id);
      }
    }
  }

  lemma {:induction false} UntouchedStays(docs: Documents, cs: seq<Command>, id: DocId)
    requires forall c <- cs :: !Writes(c, id)
    ensures Final(docs, cs, id) == Final(docs, [], id)
    decreases |cs|
  {
    if cs != [] {
      UntouchedStays(docs, cs[..|cs| - 1], id);
    }
  }

  /**
   * A snapshot taken too late does no harm: commands `t..n` replayed on the state after `a >= t`
   * commands give the state after `n`.  Log compaction relies on this, for it cuts the log at `t`
   * but saves the state machine as it is, at `a`.
   */
  lemma SnapshotReplay(docs: Documents, cs: seq<Command>, t: nat, a: nat)
    requires t <= a <= |cs|
    ensures Replay(Replay(docs, cs[..a]), cs[t..]) == Replay(docs, cs)
  {
    var early, late := Replay(docs, cs[..t]), Replay(docs, cs[..a]);
    assert cs[..t] + cs[t..] == cs && cs[..t] + cs[t..a] == cs[..a];
    ReplayAppend(docs, cs[..t], cs[t..]);
    ReplayAppend(docs, cs[..t], cs[t..a]);
    forall id: DocId ensures Final(late, cs[t..], id) == Final(early, cs[t..], id) {
      if !exists c <- cs[t..] :: Writes(c, id) {
        forall c <- cs[t..a] ensures !Writes(c, id) {
          assert c in cs[t..];
        }
        UntouchedStays(early, cs[t..a], id);
        ReplayIsLastWrite(early, cs[t..a], id);
      }
      FinalAgrees(late, early, cs[t..], id);
    }
    SameDocuments(late, early, cs[t..]);
  }

  lemma SameDocuments(a: Documents, b: Documents, cs: seq<Command>)
    requires forall id: DocId :: Final(a, cs, id) == Final(b, cs, id)
    ensures Replay(a, cs) == Replay(b, cs)
  {
    var x, y := Replay(a, cs), Replay(b, cs);
    forall id: DocId ensures id in x <==> id in y
      ensures id in x ==> x[id] == y[id]
    {
      ReplayIsLastWrite(a, cs, id);
      ReplayIsLastWrite(b, cs, id);
    }
  }
}
