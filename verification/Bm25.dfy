/** The incremental inverted index, against the documents it holds (text/bm25.py). */
module Bm25 {
  import opened Options

  type Key = nat
  type Term = string
  type Documents = map<Key, seq<Term>>
  type Postings = map<Term, map<Key, nat>>

  // ------------------------------------------------------------ from scratch

  function Count(tokens: seq<Term>, t: Term): nat {
    if tokens == [] then 0 else Count(tokens[..|tokens| - 1], t) + if tokens[|tokens| - 1] == t then 1 else 0
  }

  /** The documents that contain a term. */
  function Holders(docs: Documents, t: Term): set<Key> {
    set k | k in docs && t in docs[k]
  }

  function PostingOf(docs: Documents, t: Term): map<Key, nat> {
    map k | k in Holders(docs, t) :: Count(docs[k], t)
  }

  ghost function TotalLength(docs: Documents): nat
    decreases |docs|
  {
    if docs == map[] then 0
    else
      var k :| k in docs;
      Fewer(docs, k);
      |docs[k]| + TotalLength(docs - {k})
  }

  lemma Fewer(docs: Documents, k: Key)
    requires k in docs
    ensures |docs - {k}| < |docs|
  {
    assert (docs - {k}).Keys == docs.Keys - {k};
  }

  /** In whatever order the documents are added up. */
  lemma {:induction false} TotalWithout(docs: Documents, k: Key)
    requires k in docs
    ensures TotalLength(docs) == |docs[k]| + TotalLength(docs - {k})
    decreases |docs|
  {
    var x :| x in docs && TotalLength(docs) == |docs[x]| + TotalLength(docs - {x});
    if x != k {
      Fewer(docs, x);
      Fewer(docs, k);
      TotalWithout(docs - {x}, k);
      TotalWithout(docs - {k}, x);
      assert docs - {x} - {k} == docs - {k} - {x};
    }
  }

  lemma TotalWith(docs: Documents, k: Key, tokens: seq<Term>)
    requires k !in docs
    ensures TotalLength(docs[k := tokens]) == TotalLength(docs) + |tokens|
  {
    TotalWithout(docs[k := tokens], k);
    assert docs[k := tokens] - {k} == docs;
  }

  // ------------------------------------------------------- what the index holds

  datatype Index = Index(postings: Postings, docLen: map<Key, nat>, docTerms: map<Key, seq<Term>>, totalLen: int)

  predicate PostingRight(postings: Postings, docs: Documents, t: Term) {
    && (t in postings <==> Holders(docs, t) != {})
    && (t in postings ==> postings[t] == PostingOf(docs, t))
  }

  ghost predicate AllRight(postings: Postings, docs: Documents) {
    forall t :: PostingRight(postings, docs, t)
  }

  /** The distinct terms of a document. */
  ghost predicate TermsRight(terms: seq<Term>, tokens: seq<Term>) {
    (forall i, j | 0 <= i < j < |terms| :: terms[i] != terms[j]) && forall t :: t in terms <==> t in tokens
  }

  ghost predicate LengthsRight(ix: Index, docs: Documents) {
    && ix.docLen == (map k | k in docs :: |docs[k]|)
    && ix.docTerms.Keys == docs.Keys && (forall k <- docs :: TermsRight(ix.docTerms[k], docs[k]))
    && ix.totalLen == TotalLength(docs)
  }

  ghost predicate Reflects(ix: Index, docs: Documents) {
    AllRight(ix.postings, docs) && LengthsRight(ix, docs)
  }

  /**
   * Incremental equals from scratch: postings, lengths and total length depend on nothing but the
   * surviving documents, whatever was added, replaced and removed before, in whatever order.
   */
  lemma Canonical(ix: Index, iy: Index, docs: Documents)
    requires Reflects(ix, docs) && Reflects(iy, docs)
    ensures ix.postings == iy.postings && ix.docLen == iy.docLen && ix.totalLen == iy.totalLen
  {
    forall t ensures t in ix.postings <==> t in iy.postings
      ensures t in ix.postings ==> ix.postings[t] == iy.postings[t]
    {
      assert PostingRight(ix.postings, docs, t) && PostingRight(iy.postings, docs, t);
    }
  }

  // -------------------------------------------------------- one posting at a time

  lemma {:induction false} CountIn(tokens: seq<Term>, t: Term)
    ensures Count(tokens, t) > 0 <==> t in tokens
    decreases |tokens|
  {
    if tokens != [] {
      CountIn(tokens[..|tokens| - 1], t);
      assert tokens == tokens[..|tokens| - 1] + [tokens[|tokens| - 1]];
    }
  }

  /** A posting without the key, and without an entry if nothing is left. */
  function Dropped(postings: Postings, t: Term, key: Key): Postings {
    if t !in postings then postings
    else if postings[t] - {key} == map[] then postings - {t}
    else postings[t := postings[t] - {key}]
  }

  lemma DroppedRight(postings: Postings, docs: Documents, t: Term, key: Key)
    requires PostingRight(postings, docs, t)
    ensures PostingRight(Dropped(postings, t, key), docs - {key}, t)
  {
    assert Holders(docs - {key}, t) == Holders(docs, t) - {key};
    if t in postings {
      assert PostingOf(docs, t) - {key} == PostingOf(docs - {key}, t);
      assert (postings[t] - {key}).Keys == Holders(docs, t) - {key};
    }
  }

  /** A term the document does not contain has the same posting without it. */
  lemma Unaffected(postings: Postings, docs: Documents, t: Term, key: Key)
    requires key in docs ==> t !in docs[key]
    ensures PostingRight(postings, docs, t) <==> PostingRight(postings, docs - {key}, t)
  {
    assert Holders(docs - {key}, t) == Holders(docs, t);
    assert PostingOf(docs - {key}, t) == PostingOf(docs, t);
  }

  function Noted(postings: Postings, t: Term, key: Key, count: nat): Postings {
    postings[t := (if t in postings then postings[t] else map[])[key := count]]
  }

  lemma NotedRight(postings: Postings, docs: Documents, t: Term, key: Key, tokens: seq<Term>)
    requires PostingRight(postings, docs, t) && key !in docs && t in tokens
    ensures PostingRight(Noted(postings, t, key, Count(tokens, t)), docs[key := tokens], t)
  {
    assert Holders(docs[key := tokens], t) == Holders(docs, t) + {key};
    assert PostingOf(docs[key := tokens], t) == PostingOf(docs, t)[key := Count(tokens, t)];
    if t !in postings {
      assert PostingOf(docs, t) == map[];
    }
  }

  /** Between two states of the documents: the terms in `done` are right for the second, the others for the first. */
  ghost predicate Halfway(postings: Postings, docs: Documents, next: Documents, done: set<Term>) {
    forall t :: HalfwayAt(postings, docs, next, done, t)
  }

  predicate HalfwayAt(postings: Postings, docs: Documents, next: Documents, done: set<Term>, t: Term) {
    PostingRight(postings, if t in done then next else docs, t)
  }

  lemma HalfwayStart(postings: Postings, docs: Documents, next: Documents)
    requires AllRight(postings, docs)
    ensures Halfway(postings, docs, next, {})
  {}

  lemma HalfwayDrop(postings: Postings, docs: Documents, key: Key, done: set<Term>, t: Term)
    requires Halfway(postings, docs, docs - {key}, done) && t !in done
    ensures Halfway(Dropped(postings, t, key), docs, docs - {key}, done + {t})
  {
    assert HalfwayAt(postings, docs, docs - {key}, done, t);
    DroppedRight(postings, docs, t, key);
    forall u ensures HalfwayAt(Dropped(postings, t, key), docs, docs - {key}, done + {t}, u) {
      assert HalfwayAt(postings, docs, docs - {key}, done, u);
    }
  }

  lemma HalfwayDropped(postings: Postings, docs: Documents, key: Key, done: set<Term>)
    requires Halfway(postings, docs, docs - {key}, done) && key in docs && forall t <- docs[key] :: t in done
    ensures AllRight(postings, docs - {key})
  {
    forall t ensures PostingRight(postings, docs - {key}, t) {
      assert HalfwayAt(postings, docs, docs - {key}, done, t);
      if t !in done {
        Unaffected(postings, docs, t, key);
      }
    }
  }

  lemma HalfwayNote(postings: Postings, docs: Documents, key: Key, tokens: seq<Term>, done: set<Term>, t: Term)
    requires Halfway(postings, docs, docs[key := tokens], done) && t !in done && key !in docs && t in tokens
    ensures Halfway(Noted(postings, t, key, Count(tokens, t)), docs, docs[key := tokens], done + {t})
  {
    var next, noted := docs[key := tokens], Noted(postings, t, key, Count(tokens, t));
    assert HalfwayAt(postings, docs, next, done, t);
    NotedRight(postings, docs, t, key, tokens);
    forall u ensures HalfwayAt(noted, docs, next, done + {t}, u) {
      assert HalfwayAt(postings, docs, next, done, u);
    }
  }

  lemma HalfwayNoted(postings: Postings, docs: Documents, key: Key, tokens: seq<Term>, done: set<Term>)
    requires Halfway(postings, docs, docs[key := tokens], done) && key !in docs && forall t <- tokens :: t in done
    ensures AllRight(postings, docs[key := tokens])
  {
    var next := docs[key := tokens];
    assert next - {key} == docs;
    forall t ensures PostingRight(postings, next, t) {
      assert HalfwayAt(postings, docs, next, done, t);
      if t !in done {
        Unaffected(postings, next, t, key);
      }
    }
  }

  lemma LengthsRemoved(ix: Index, docs: Documents, key: Key)
    requires LengthsRight(ix, docs) && key in docs
    ensures LengthsRight(Index(ix.postings, ix.docLen - {key}, ix.docTerms - {key}, ix.totalLen - ix.docLen[key]), docs - {key})
  {
    TotalWithout(docs, key);
    assert ix.docLen - {key} == map k | k in docs - {key} :: |(docs - {key})[k]|;
    forall k <- docs - {key} ensures TermsRight((ix.docTerms - {key})[k], (docs - {key})[k]) {
      assert TermsRight(ix.docTerms[k], docs[k]);
    }
  }

  lemma LengthsAdded(ix: Index, docs: Documents, key: Key, tokens: seq<Term>, terms: seq<Term>)
    requires LengthsRight(ix, docs) && key !in docs && TermsRight(terms, tokens)
    ensures LengthsRight(Index(ix.postings, ix.docLen[key := |tokens|], ix.docTerms[key := terms], ix.totalLen + |tokens|), docs[key := tokens])
  {
    TotalWith(docs, key, tokens);
    var next := docs[key := tokens];
    assert ix.docLen[key := |tokens|] == map k | k in next :: |next[k]|;
    forall k <- next ensures TermsRight(ix.docTerms[key := terms][k], next[k]) {
      if k != key {
        assert TermsRight(ix.docTerms[k], docs[k]);
      }
    }
  }

  // ------------------------------------------------------------------ scoring

  /** The parameters, and the logarithm as an unknown function. */
  datatype Model = Model(k1: real, b: real, ln: real -> real)

  predicate Sensible(p: Model) {
    p.k1 >= 0.0 && 0.0 <= p.b <= 1.0
  }

  /** The length norms are taken against; 1 where there is nothing to average. */
  ghost function Average(docs: Documents): real {
    var total := TotalLength(docs) as real;
    if docs == map[] || total == 0.0 then 1.0 else total / |docs| as real
  }

  function Idf(p: Model, n: nat, df: nat): real {
    if df == 0 then 0.0 else p.ln(1.0 + (n as real - df as real + 0.5) / (df as real + 0.5))
  }

  function Denominator(p: Model, tf: nat, length: nat, average: real): real
    requires average > 0.0
  {
    tf as real + p.k1 * (1.0 - p.b + p.b * length as real / average)
  }

  lemma Ratio(a: real, b: real)
    requires a >= 0.0 && b > 0.0
    ensures a / b >= 0.0
  {}

  lemma Product(a: real, b: real)
    requires a >= 0.0 && b >= 0.0
    ensures a * b >= 0.0
  {}

  lemma DenominatorPositive(p: Model, tf: nat, length: nat, average: real)
    requires Sensible(p) && tf > 0 && average > 0.0
    ensures Denominator(p, tf, length, average) > 0.0
  {
    Product(p.b, length as real);
    var norm := p.b * length as real / average;
    Ratio(p.b * length as real, average);
    var factor := 1.0 - p.b + norm;
    assert factor >= 0.0;
    Product(p.k1, factor);
    var extra := p.k1 * factor;
    assert Denominator(p, tf, length, average) == tf as real + extra;
  }

  /** What one query term adds to the score of a document that contains it. */
  function Gain(p: Model, idf: real, tf: nat, length: nat, average: real): real
    requires Sensible(p) && tf > 0 && average > 0.0
  {
    DenominatorPositive(p, tf, length, average);
    idf * (tf as real * (p.k1 + 1.0)) / Denominator(p, tf, length, average)
  }

  lemma AveragePositive(docs: Documents)
    ensures Average(docs) > 0.0
  {
    if docs != map[] && TotalLength(docs) > 0 {
      assert |docs| > 0;
    }
  }

  ghost function TermGain(p: Model, docs: Documents, t: Term, k: Key): real
    requires Sensible(p) && k in docs
  {
    if t !in docs[k] then 0.0
    else
      CountIn(docs[k], t);
      AveragePositive(docs);
      Gain(p, Idf(p, |docs|, |Holders(docs, t)|), Count(docs[k], t), |docs[k]|, Average(docs))
  }

  /** The score of a document, from the documents alone. */
  ghost function Score(p: Model, docs: Documents, query: seq<Term>, k: Key): real
    requires Sensible(p) && k in docs
  {
    if query == [] then 0.0
    else Score(p, docs, query[..|query| - 1], k) + TermGain(p, docs, query[|query| - 1], k)
  }

  /** The documents a query can return. */
  function Matching(docs: Documents, query: seq<Term>, allow: Key -> bool): set<Key> {
    set k | k in docs && allow(k) && exists t <- query :: t in docs[k]
  }

  datatype Scored = Scored(key: Key, score: real)

  /** Higher scores first, then lower keys. */
  predicate Precedes(a: Scored, b: Scored) {
    a.score > b.score || (a.score == b.score && a.key < b.key)
  }

  /** The first `n` of all matching documents, ranked, with the scores the documents alone give. */
  ghost predicate Ranked(p: Model, docs: Documents, query: seq<Term>, allow: Key -> bool, n: nat, hits: seq<Scored>)
    requires Sensible(p)
  {
    var all := Matching(docs, query, allow);
    && |hits| == (if |all| < n then |all| else n)
    && (forall h <- hits :: h.key in all && h.score == Score(p, docs, query, h.key))
    && (forall i, j | 0 <= i < j < |hits| :: Precedes(hits[i], hits[j]))
    && forall k <- all :: (exists h <- hits :: h.key == k) || forall h <- hits :: Precedes(h, Scored(k, Score(p, docs, query, k)))
  }
}
