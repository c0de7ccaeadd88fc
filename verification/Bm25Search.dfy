/** Ranked retrieval from the inverted index (text/bm25.py). */
module Bm25Search {
  import opened Options
  import opened Bm25

  /** The scores of all documents. */
  ghost function Totals(p: Model, docs: Documents, query: seq<Term>): map<Key, real>
    requires Sensible(p)
  {
    map k | k in docs :: Score(p, docs, query, k)
  }

  /** The allowed documents that contain a term. */
  function Admitted(docs: Documents, t: Term, allow: Key -> bool): set<Key> {
    set k | k in Holders(docs, t) && allow(k)
  }

  /** What one term adds, for the allowed documents that contain it. */
  ghost function Gains(p: Model, docs: Documents, t: Term, allow: Key -> bool): map<Key, real>
    requires Sensible(p)
  {
    map k | k in Admitted(docs, t, allow) :: TermGain(p, docs, t, k)
  }

  /** Scores of exactly the keys that match. */
  predicate Scoring(totals: map<Key, real>, matching: set<Key>, scores: map<Key, real>) {
    scores.Keys == matching && matching <= totals.Keys && forall k <- scores :: scores[k] == totals[k]
  }

  lemma {:induction false} NoTermNoScore(p: Model, docs: Documents, query: seq<Term>, k: Key)
    requires Sensible(p) && k in docs && forall t <- query :: t !in docs[k]
    ensures Score(p, docs, query, k) == 0.0
    decreases |query|
  {
    if query != [] {
      NoTermNoScore(p, docs, query[..|query| - 1], k);
    }
  }

  function OrZero(m: map<Key, real>, k: Key): real {
    if k in m then m[k] else 0.0
  }

  /** Scores and gains added up. */
  function Added(before: map<Key, real>, gains: map<Key, real>): map<Key, real> {
    map k | k in before.Keys + gains.Keys :: AddedAt(before, gains, k)
  }

  function AddedAt(before: map<Key, real>, gains: map<Key, real>, k: Key): real {
    OrZero(before, k) + OrZero(gains, k)
  }

  /** The allowed keys in `rest` are still to be collected. */
  predicate Collecting(all: map<Key, real>, keys: set<Key>, allow: Key -> bool, gains: map<Key, real>, rest: set<Key>) {
    && rest <= keys && gains.Keys == (set k | k in keys && k !in rest && allow(k))
    && forall k <- gains :: k in all && gains[k] == all[k]
  }

  lemma CollectingStep(all: map<Key, real>, keys: set<Key>, allow: Key -> bool, gains: map<Key, real>, rest: set<Key>, k: Key)
    requires Collecting(all, keys, allow, gains, rest) && k in rest
    requires allow(k) ==> k in all
    ensures Collecting(all, keys, allow, if allow(k) then gains[k := all[k]] else gains, rest - {k})
  {}

  lemma CollectingEnds(all: map<Key, real>, keys: set<Key>, allow: Key -> bool, gains: map<Key, real>)
    ensures Collecting(all, keys, allow, map[], keys)
    ensures Collecting(all, keys, allow, gains, {}) && all.Keys == (set k | k in keys && allow(k)) ==> gains == all
  {}

  /** The keys in `rest` have not had their gains added yet. */
  predicate Adding(before: map<Key, real>, gains: map<Key, real>, scores: map<Key, real>, rest: set<Key>) {
    && rest <= gains.Keys && scores.Keys == before.Keys + (gains.Keys - rest)
    && forall k <- scores :: scores[k] == if k in rest then before[k] else AddedAt(before, gains, k)
  }

  lemma AddingStep(before: map<Key, real>, gains: map<Key, real>, scores: map<Key, real>, rest: set<Key>, k: Key, sum: real)
    requires Adding(before, gains, scores, rest) && k in rest
    requires sum == (if k in scores then scores[k] else 0.0) + gains[k]
    ensures Adding(before, gains, scores[k := sum], rest - {k})
  {}

  lemma AddingEnds(before: map<Key, real>, gains: map<Key, real>, scores: map<Key, real>)
    ensures Adding(before, gains, before, gains.Keys)
    ensures Adding(before, gains, scores, {}) ==> scores == Added(before, gains)
  {}

  /** Adds the gains of one query term to the scores. */
  method AddAll(before: map<Key, real>, gains: map<Key, real>) returns (scores: map<Key, real>)
    ensures scores == Added(before, gains)
  {
    scores := before;
    AddingEnds(before, gains, scores);
    var rest := gains.Keys;
    while rest != {}
      invariant Adding(before, gains, scores, rest)
      decreases |rest|
    {
      var k :| k in rest;
      var sum := (if k in scores then scores[k] else 0.0) + gains[k];
      AddingStep(before, gains, scores, rest, k, sum);
      scores := scores[k := sum];
      rest := rest - {k};
    }
    AddingEnds(before, gains, scores);
  }

  lemma MatchingSnoc(docs: Documents, query: seq<Term>, t: Term, allow: Key -> bool)
    ensures Matching(docs, query + [t], allow) == Matching(docs, query, allow) + Admitted(docs, t, allow)
  {
    forall k ensures k in Matching(docs, query + [t], allow) <==>
                     k in Matching(docs, query, allow) || (k in Holders(docs, t) && allow(k))
    {
      if k in Matching(docs, query, allow) {
        var u :| u in query && u in docs[k];
        assert u in query + [t];
      }
      if k in Holders(docs, t) {
        assert t in query + [t];
      }
    }
  }

  lemma ScoreSnoc(p: Model, docs: Documents, query: seq<Term>, t: Term, k: Key)
    requires Sensible(p) && k in docs
    ensures Score(p, docs, query + [t], k) == Score(p, docs, query, k) + TermGain(p, docs, t, k)
  {
    assert (query + [t])[..|query|] == query && (query + [t])[|query|] == t;
  }

  /** One more term adds its gain to the total of every allowed document. */
  lemma TotalsSnoc(p: Model, docs: Documents, query: seq<Term>, t: Term, allow: Key -> bool)
    requires Sensible(p)
    ensures Totals(p, docs, query + [t]).Keys == Totals(p, docs, query).Keys == docs.Keys
    ensures forall k <- docs | allow(k) ::
      Totals(p, docs, query + [t])[k] == Totals(p, docs, query)[k] + OrZero(Gains(p, docs, t, allow), k)
  {
    forall k <- docs | allow(k)
      ensures Totals(p, docs, query + [t])[k] == Totals(p, docs, query)[k] + OrZero(Gains(p, docs, t, allow), k)
    {
      ScoreSnoc(p, docs, query, t, k);
    }
  }

  lemma AddedScores(gains: map<Key, real>, totals: map<Key, real>, next: map<Key, real>, matching: set<Key>, more: set<Key>, before: map<Key, real>)
    requires Scoring(totals, matching, before) && totals.Keys == next.Keys && gains.Keys <= totals.Keys
    requires more == matching + gains.Keys && forall k <- more :: next[k] == totals[k] + OrZero(gains, k)
    requires forall k <- more - matching :: totals[k] == 0.0
    ensures Scoring(next, more, Added(before, gains))
  {}

  lemma GainedScores(p: Model, docs: Documents, query: seq<Term>, t: Term, allow: Key -> bool, before: map<Key, real>)
    requires Sensible(p) && Scoring(Totals(p, docs, query), Matching(docs, query, allow), before)
    ensures Scoring(Totals(p, docs, query + [t]), Matching(docs, query + [t], allow), Added(before, Gains(p, docs, t, allow)))
  {
    var matching, more := Matching(docs, query, allow), Matching(docs, query + [t], allow);
    TotalsSnoc(p, docs, query, t, allow);
    MatchingSnoc(docs, query, t, allow);
    forall k <- more - matching ensures Totals(p, docs, query)[k] == 0.0 {
      NoTermNoScore(p, docs, query, k);
    }
    AddedScores(Gains(p, docs, t, allow), Totals(p, docs, query), Totals(p, docs, query + [t]), matching, more, before);
  }

  // ------------------------------------------------------------------ ranking

  lemma {:induction false} BestExists(all: set<Scored>)
    requires all != {}
    ensures exists x :: x in all && forall y <- all :: x == y || Precedes(x, y)
    decreases |all|
  {
    var z :| z in all;
    var rest := all - {z};
    if rest == {} {
      assert forall y <- all :: y == z || y in rest;
    } else {
      BestExists(rest);
      var x :| x in rest && forall y <- rest :: x == y || Precedes(x, y);
      BestOfTwo(rest, x, z);
      assert all == rest + {z};
    }
  }

  lemma BestOfTwo(rest: set<Scored>, x: Scored, z: Scored)
    requires x in rest && forall y <- rest :: x == y || Precedes(x, y)
    ensures exists w :: w in rest + {z} && forall y <- rest + {z} :: w == y || Precedes(w, y)
  {
    var w := if Precedes(z, x) then z else x;
    forall y <- rest + {z} ensures w == y || Precedes(w, y) {
      if y != z {
        assert y in rest;
      }
    }
    assert w in rest + {z};
  }

  method Sort(all: set<Scored>) returns (s: seq<Scored>)
    ensures |s| == |all| && (forall x :: x in s <==> x in all)
    ensures forall i, j | 0 <= i < j < |s| :: Precedes(s[i], s[j])
  {
    s := [];
    var rest := all;
    while rest != {}
      invariant rest <= all && |s| + |rest| == |all|
      invariant forall x :: x in s <==> x in all && x !in rest
      invariant forall i, j | 0 <= i < j < |s| :: Precedes(s[i], s[j])
      invariant forall x, y | x in s && y in rest :: Precedes(x, y)
      decreases |rest|
    {
      BestExists(rest);
      var x :| x in rest && forall y <- rest :: x == y || Precedes(x, y);
      s, rest := s + [x], rest - {x};
    }
  }

  function Items(scores: map<Key, real>): set<Scored> {
    set k | k in scores :: Scored(k, scores[k])
  }

  lemma {:induction false} ItemCount(scores: map<Key, real>)
    ensures |Items(scores)| == |scores.Keys|
    decreases |scores.Keys|
  {
    if scores.Keys != {} {
      var k :| k in scores;
      var rest := scores - {k};
      assert rest.Keys == scores.Keys - {k};
      ItemCount(rest);
      assert Items(scores) == Items(rest) + {Scored(k, scores[k])};
    } else {
      assert Items(scores) == {};
    }
  }

  /** The first `n` of the sorted scores are the answer. */
  lemma TakeRanked(p: Model, docs: Documents, query: seq<Term>, allow: Key -> bool, n: nat, scores: map<Key, real>, s: seq<Scored>)
    requires Sensible(p) && Scoring(Totals(p, docs, query), Matching(docs, query, allow), scores)
    requires |s| == |Items(scores)| && (forall x :: x in s <==> x in Items(scores))
    requires forall i, j | 0 <= i < j < |s| :: Precedes(s[i], s[j])
    ensures Ranked(p, docs, query, allow, n, if |s| < n then s else s[..n])
  {
    ItemCount(scores);
    var hits := if |s| < n then s else s[..n];
    forall h <- hits ensures h.key in scores && h.score == scores[h.key] {
      assert h in s && h in Items(scores);
    }
    forall k <- scores ensures (exists h <- hits :: h.key == k) || forall h <- hits :: Precedes(h, Scored(k, scores[k])) {
      var x := Scored(k, scores[k]);
      assert x in Items(scores) && x in s;
      var i :| 0 <= i < |s| && s[i] == x;
      if i < |hits| {
        assert hits[i] == x && hits[i].key == k;
      }
    }
  }
}
