/** The inverted index as an object that is updated in place (text/bm25.py). */
module Bm25Index {
  import opened Options
  import opened Bm25
  import opened Bm25Search

  lemma CountPrefix(tokens: seq<Term>, i: nat, t: Term)
    requires i < |tokens|
    ensures Count(tokens[..i + 1], t) == Count(tokens[..i], t) + if tokens[i] == t then 1 else 0
  {
    assert tokens[..i + 1][..i] == tokens[..i];
  }

  /** The distinct terms, in the order they first occur, and how often each occurs. */
  method Frequencies(tokens: seq<Term>) returns (terms: seq<Term>, tf: map<Term, nat>)
    ensures TermsRight(terms, tokens)
    ensures forall t <- terms :: t in tf && tf[t] == Count(tokens, t)
  {
    terms, tf := [], map[];
    for i := 0 to |tokens|
      invariant (forall x, y | 0 <= x < y < |terms| :: terms[x] != terms[y])
      invariant forall t :: t in terms <==> t in tokens[..i]
      invariant forall t :: t in tf <==> t in terms
      invariant forall t <- tf :: tf[t] == Count(tokens[..i], t)
    {
      var t := tokens[i];
      forall u ensures Count(tokens[..i + 1], u) == Count(tokens[..i], u) + if t == u then 1 else 0 {
        CountPrefix(tokens, i, u);
      }
      CountIn(tokens[..i], t);
      assert tokens[..i + 1] == tokens[..i] + [t];
      if t in tf {
        tf := tf[t := tf[t] + 1];
      } else {
        terms, tf := terms + [t], tf[t := 1];
      }
    }
    assert tokens[..|tokens|] == tokens;
  }

  class InvertedIndex {
    const p: Model
    /** Text to terms; what it does is not modelled. */
    const tokenize: string -> seq<Term>
    var postings: Postings
    var docLen: map<Key, nat>
    var docTerms: map<Key, seq<Term>>
    var totalLen: int
    /** The documents in the index, by key, as their terms. */
    ghost var docs: Documents

    function State(): Index
      reads this
    {
      Index(postings, docLen, docTerms, totalLen)
    }

    ghost predicate Valid()
      reads this
    {
      Sensible(p) && Reflects(State(), docs)
    }

    constructor (p: Model, tokenize: string -> seq<Term>)
      requires Sensible(p)
      ensures Valid() && docs == map[] && this.p == p && this.tokenize == tokenize
    {
      this.p, this.tokenize := p, tokenize;
      postings, docLen, docTerms, totalLen, docs := map[], map[], map[], 0, map[];
    }

    /** Takes a key out of the postings of its terms. */
    method DropPostings(terms: seq<Term>, key: Key)
      requires AllRight(postings, docs) && key in docs && TermsRight(terms, docs[key])
      modifies this`postings
      ensures AllRight(postings, docs - {key})
    {
      ghost var done: set<Term> := {};
      HalfwayStart(postings, docs, docs - {key});
      for i := 0 to |terms|
        invariant Halfway(postings, docs, docs - {key}, done) && forall t :: t in done <==> t in terms[..i]
      {
        var t := terms[i];
        HalfwayDrop(postings, docs, key, done, t);
        if t in postings {
          var rest := postings[t] - {key};
          if rest == map[] {
            postings := postings - {t};
          } else {
            postings := postings[t := rest];
          }
        }
        assert terms[..i + 1] == terms[..i] + [t];
        done := done + {t};
      }
      assert terms[..|terms|] == terms;
      HalfwayDropped(postings, docs, key, done);
    }

    method Remove(key: Key)
      requires Valid()
      modifies this
      ensures Valid() && docs == old(docs) - {key}
    {
      if key !in docLen {
        assert docs - {key} == docs;
        return;
      }
      LengthsRemoved(State(), docs, key);
      totalLen := totalLen - docLen[key];
      docLen := docLen - {key};
      DropPostings(docTerms[key], key);
      docTerms := docTerms - {key};
      docs := docs - {key};
    }

    /** Puts a key into the postings of its terms. */
    method NotePostings(terms: seq<Term>, tf: map<Term, nat>, key: Key, ghost tokens: seq<Term>)
      requires AllRight(postings, docs) && key !in docs
      requires TermsRight(terms, tokens) && forall t <- terms :: t in tf && tf[t] == Count(tokens, t)
      modifies this`postings
      ensures AllRight(postings, docs[key := tokens])
    {
      ghost var done: set<Term> := {};
      HalfwayStart(postings, docs, docs[key := tokens]);
      for i := 0 to |terms|
        invariant Halfway(postings, docs, docs[key := tokens], done) && forall t :: t in done <==> t in terms[..i]
      {
        var t := terms[i];
        assert t in tokens;
        HalfwayNote(postings, docs, key, tokens, done, t);
        var posting: map<Key, nat> := if t in postings then postings[t] else map[];
        postings := postings[t := posting[key := tf[t]]];
        assert terms[..i + 1] == terms[..i] + [t];
        done := done + {t};
      }
      assert terms[..|terms|] == terms;
      HalfwayNoted(postings, docs, key, tokens, done);
    }

    /** Indexes a document, or indexes it anew. */
    method Add(key: Key, text: string)
      requires Valid()
      modifies this
      ensures Valid() && docs == old(docs)[key := tokenize(text)]
    {
      ghost var before := docs;
      if key in docLen {
        Remove(key);
      }
      assert docs == before - {key};
      var tokens := tokenize(text);
      assert before[key := tokens] == docs[key := tokens];
      if tokens == [] {
        LengthsAdded(State(), docs, key, tokens, []);
        HalfwayStart(postings, docs, docs[key := tokens]);
        HalfwayNoted(postings, docs, key, tokens, {});
        docLen := docLen[key := 0];
        docTerms := docTerms[key := []];
        docs := docs[key := tokens];
        return;
      }
      var terms, tf := Frequencies(tokens);
      LengthsAdded(State(), docs, key, tokens, terms);
      NotePostings(terms, tf, key, tokens);
      docLen := docLen[key := |tokens|];
      docTerms := docTerms[key := terms];
      totalLen := totalLen + |tokens|;
      docs := docs[key := tokens];
    }

    /** The average length, or 1 where there is nothing to average. */
    method AverageLength() returns (a: real)
      requires Valid()
      ensures a == Average(docs)
    {
      assert docLen.Keys == docs.Keys;
      assert |docLen| == |docLen.Keys| && |docs| == |docs.Keys|;
      a := if |docLen| == 0 || totalLen == 0 then 1.0 else totalLen as real / |docLen| as real;
    }

    /** The inverse document frequency of a term that has a posting. */
    method TermIdf(t: Term) returns (idf: real)
      requires Valid() && t in postings
      ensures idf == Idf(p, |docs|, |Holders(docs, t)|)
      ensures postings[t] == PostingOf(docs, t)
    {
      assert PostingRight(postings, docs, t);
      assert postings[t].Keys == Holders(docs, t) && |postings[t]| == |postings[t].Keys|;
      assert docLen.Keys == docs.Keys && |docLen| == |docLen.Keys| && |docs| == |docs.Keys|;
      idf := Idf(p, |docLen|, |postings[t]|);
    }

    /** The gain of one document, from what the index has recorded of it. */
    method GainOf(k: Key, t: Term, idf: real, posting: map<Key, nat>, average: real, ghost allow: Key -> bool) returns (gain: real)
      requires Valid() && average == Average(docs) && posting == PostingOf(docs, t) && k in posting && allow(k)
      requires idf == Idf(p, |docs|, |Holders(docs, t)|)
      ensures k in Gains(p, docs, t, allow) && gain == Gains(p, docs, t, allow)[k]
    {
      CountIn(docs[k], t);
      AveragePositive(docs);
      gain := Gain(p, idf, posting[k], docLen[k], average);
    }

    /** The gains of one query term for the allowed documents that contain it. */
    method Contributions(t: Term, average: real, allow: Key -> bool) returns (gains: map<Key, real>)
      requires Valid() && average == Average(docs)
      ensures gains == Gains(p, docs, t, allow)
    {
      gains := map[];
      if t !in postings {
        assert PostingRight(postings, docs, t);
        return;
      }
      var idf := TermIdf(t);
      gains := Collect(t, idf, postings[t], average, allow);
    }

    method Collect(t: Term, idf: real, posting: map<Key, nat>, average: real, allow: Key -> bool) returns (gains: map<Key, real>)
      requires Valid() && average == Average(docs) && posting == PostingOf(docs, t) && idf == Idf(p, |docs|, |Holders(docs, t)|)
      ensures gains == Gains(p, docs, t, allow)
    {
      ghost var all := Gains(p, docs, t, allow);
      assert all.Keys == set k | k in posting.Keys && allow(k);
      gains := map[];
      CollectingEnds(all, posting.Keys, allow, gains);
      var rest := posting.Keys;
      while rest != {}
        invariant Collecting(all, posting.Keys, allow, gains, rest)
        decreases |rest|
      {
        var k :| k in rest;
        CollectingStep(all, posting.Keys, allow, gains, rest, k);
        if allow(k) {
          var gain := GainOf(k, t, idf, posting, average, allow);
          gains := gains[k := gain];
        }
        rest := rest - {k};
      }
      CollectingEnds(all, posting.Keys, allow, gains);
    }

    /**
     * The best `k` documents for a query.  The answer is the one scoring the surviving documents
     * from scratch would give.
     */
    method Search(query: string, k: nat, allow: Key -> bool) returns (hits: seq<Scored>)
      requires Valid()
      ensures Ranked(p, docs, tokenize(query), allow, k, hits)
    {
      var terms := tokenize(query);
      if terms == [] || |docLen| == 0 {
        assert docLen.Keys == docs.Keys;
        assert Matching(docs, terms, allow) == {};
        return [];
      }
      var average := AverageLength();
      var scores: map<Key, real> := map[];
      for i := 0 to |terms|
        invariant Scoring(Totals(p, docs, terms[..i]), Matching(docs, terms[..i], allow), scores)
      {
        GainedScores(p, docs, terms[..i], terms[i], allow, scores);
        var gains := Contributions(terms[i], average, allow);
        scores := AddAll(scores, gains);
        assert terms[..i + 1] == terms[..i] + [terms[i]];
      }
      assert terms[..|terms|] == terms;
      var sorted := Sort(Items(scores));
      hits := if |sorted| < k then sorted else sorted[..k];
      TakeRanked(p, docs, terms, allow, k, scores, sorted);
    }
  }
}
