/** The laws of the ranking function: what makes a document score higher (text/bm25.py). */
module Bm25Laws {
  import opened Bm25

  lemma Back(a: real, b: real)
    requires b != 0.0
    ensures a / b * b == a
  {}

  /**
   * The formula of the gain of a term that occurs `tf` times in a document, among `n` documents of which
   * `df` contain it: k1 dampens repetition, b weighs the length against the average.
   */
  predicate Formula(p: Model, gain: real, tf: real, length: real, df: real, n: real, average: real)
    requires average > 0.0 && df > 0.0
  {
    gain * (tf + p.k1 * (1.0 - p.b + p.b * length / average)) == p.ln(1.0 + (n - df + 0.5) / (df + 0.5)) * (tf * (p.k1 + 1.0))
  }

  lemma FormulaOf(p: Model, gain: real, tf: nat, length: nat, df: nat, n: nat, average: real)
    requires Sensible(p) && tf > 0 && average > 0.0 && df > 0 && gain == Gain(p, Idf(p, n, df), tf, length, average)
    ensures Formula(p, gain, tf as real, length as real, df as real, n as real, average)
  {
    DenominatorPositive(p, tf, length, average);
    Back(Idf(p, n, df) * (tf as real * (p.k1 + 1.0)), Denominator(p, tf, length, average));
  }

  lemma GainFormula(p: Model, docs: Documents, t: Term, k: Key)
    requires Sensible(p) && k in docs && t in docs[k]
    ensures Average(docs) > 0.0 && |Holders(docs, t)| > 0
    ensures Formula(p, TermGain(p, docs, t, k), Count(docs[k], t) as real, |docs[k]| as real, |Holders(docs, t)| as real, |docs| as real, Average(docs))
  {
    CountIn(docs[k], t);
    AveragePositive(docs);
    assert k in Holders(docs, t);
    FormulaOf(p, TermGain(p, docs, t, k), Count(docs[k], t), |docs[k]|, |Holders(docs, t)|, |docs|, Average(docs));
  }

  lemma Sign(z: real, w: real)
    requires w > 0.0 && z * w >= 0.0
    ensures z >= 0.0
  {
    if z < 0.0 {
      Positive(-z, w);
    }
  }

  lemma CrossMultiplied(x: real, y: real, b: real, d: real)
    ensures (y - x) * (b * d) == y * d * b - x * b * d
  {}

  /** A fraction with a larger numerator or a smaller denominator is larger. */
  lemma FractionUp(a: real, b: real, c: real, d: real)
    requires b > 0.0 && d > 0.0 && a * d <= c * b
    ensures a / b <= c / d
  {
    Back(a, b);
    Back(c, d);
    Positive(b, d);
    CrossMultiplied(a / b, c / d, b, d);
    Sign(c / d - a / b, b * d);
  }

  lemma Positive(a: real, b: real)
    requires a > 0.0 && b > 0.0
    ensures a * b > 0.0
  {}

  lemma Ordered(a: real, b: real, c: real)
    requires a <= b && c >= 0.0
    ensures a * c <= b * c
  {}

  /** The part of the denominator that does not depend on how often the term occurs. */
  function Norm(p: Model, length: nat, average: real): real
    requires average > 0.0
  {
    p.k1 * (1.0 - p.b + p.b * length as real / average)
  }

  lemma NormNonNegative(p: Model, length: nat, average: real)
    requires Sensible(p) && average > 0.0
    ensures Norm(p, length, average) >= 0.0
  {
    Product(p.b, length as real);
    Ratio(p.b * length as real, average);
    Product(p.k1, 1.0 - p.b + p.b * length as real / average);
  }

  lemma Bounded(w: real, x: real, norm: real)
    requires w >= 0.0 && x > 0.0 && norm >= 0.0
    ensures 0.0 <= w * x / (x + norm) <= w
  {
    Product(w, x);
    Product(w, norm);
    Ratio(w * x, x + norm);
    assert w * x * 1.0 <= w * (x + norm);
    FractionUp(w * x, x + norm, w, 1.0);
  }

  /** A gain, as the weight of the term times a factor of the document. */
  lemma GainIs(p: Model, idf: real, tf: nat, length: nat, average: real)
    requires Sensible(p) && tf > 0 && average > 0.0
    ensures Norm(p, length, average) >= 0.0 && tf as real + Norm(p, length, average) > 0.0
    ensures Gain(p, idf, tf, length, average) == idf * (p.k1 + 1.0) * tf as real / (tf as real + Norm(p, length, average))
  {
    NormNonNegative(p, length, average);
    assert idf * (tf as real * (p.k1 + 1.0)) == idf * (p.k1 + 1.0) * tf as real;
  }

  /** A gain is never negative, and never more than k1 + 1 times the weight of the term. */
  lemma GainBounded(p: Model, idf: real, tf: nat, length: nat, average: real)
    requires Sensible(p) && tf > 0 && average > 0.0 && idf >= 0.0
    ensures 0.0 <= Gain(p, idf, tf, length, average) <= idf * (p.k1 + 1.0)
  {
    GainIs(p, idf, tf, length, average);
    Product(idf, p.k1 + 1.0);
    Bounded(idf * (p.k1 + 1.0), tf as real, Norm(p, length, average));
  }

  lemma Saturates(w: real, x: real, y: real, norm: real)
    requires w >= 0.0 && 0.0 < x <= y && norm >= 0.0
    ensures w * x / (x + norm) <= w * y / (y + norm)
  {
    Product(w, norm);
    Ordered(x, y, w * norm);
    assert w * x * (y + norm) == w * x * y + x * (w * norm);
    assert w * y * (x + norm) == w * x * y + y * (w * norm);
    FractionUp(w * x, x + norm, w * y, y + norm);
  }

  /** More occurrences never score less. */
  lemma MoreOccurrences(p: Model, idf: real, tf: nat, more: nat, length: nat, average: real)
    requires Sensible(p) && 0 < tf <= more && average > 0.0 && idf >= 0.0
    ensures Gain(p, idf, tf, length, average) <= Gain(p, idf, more, length, average)
  {
    GainIs(p, idf, tf, length, average);
    GainIs(p, idf, more, length, average);
    Product(idf, p.k1 + 1.0);
    Saturates(idf * (p.k1 + 1.0), tf as real, more as real, Norm(p, length, average));
  }

  lemma Dampens(top: real, x: real, small: real, large: real)
    requires top >= 0.0 && x > 0.0 && 0.0 <= small <= large
    ensures top / (x + large) <= top / (x + small)
  {
    Ordered(x + small, x + large, top);
    assert top * (x + small) <= top * (x + large);
    FractionUp(top, x + large, top, x + small);
  }

  /** The same occurrences in a longer document never score more. */
  lemma LongerDocument(p: Model, idf: real, tf: nat, length: nat, longer: nat, average: real)
    requires Sensible(p) && tf > 0 && length <= longer && average > 0.0 && idf >= 0.0
    ensures Gain(p, idf, tf, longer, average) <= Gain(p, idf, tf, length, average)
  {
    GainIs(p, idf, tf, length, average);
    GainIs(p, idf, tf, longer, average);
    Product(idf, p.k1 + 1.0);
    Product(idf * (p.k1 + 1.0), tf as real);
    NormUp(p, length, longer, average);
    Dampens(idf * (p.k1 + 1.0) * tf as real, tf as real, Norm(p, length, average), Norm(p, longer, average));
  }

  lemma NormUp(p: Model, length: nat, longer: nat, average: real)
    requires Sensible(p) && length <= longer && average > 0.0
    ensures Norm(p, length, average) <= Norm(p, longer, average)
  {
    Ordered(length as real, longer as real, p.b);
    Ordered(p.b * length as real, p.b * longer as real, average);
    FractionUp(p.b * length as real, average, p.b * longer as real, average);
    Ordered(1.0 - p.b + p.b * length as real / average, 1.0 - p.b + p.b * longer as real / average, p.k1);
  }

  /** A logarithm: monotone, and positive beyond one. */
  ghost predicate Logarithm(ln: real -> real) {
    (forall x: real, y: real | x <= y :: ln(x) <= ln(y)) && forall x: real | x > 1.0 :: ln(x) > 0.0
  }

  /** A term that fewer documents contain weighs no less, and a term that no document contains nothing. */
  lemma RarerTerm(p: Model, n: nat, df: nat, more: nat)
    requires Logarithm(p.ln) && 0 < df <= more <= n
    ensures 0.0 < Idf(p, n, more) <= Idf(p, n, df) && Idf(p, n, 0) == 0.0
  {
    var a, b := n as real - more as real + 0.5, more as real + 0.5;
    var c, d := n as real - df as real + 0.5, df as real + 0.5;
    Ordered(a, c, d);
    Ordered(d, b, c);
    FractionUp(a, b, c, d);
    PositiveRatio(a, b);
  }

  lemma PositiveRatio(a: real, b: real)
    requires a > 0.0 && b > 0.0
    ensures a / b > 0.0
  {
    Back(a, b);
    if a / b <= 0.0 {
      Product(-(a / b), b);
    }
  }

  /** Only terms of the query count: a document that contains one scores more than one that contains none. */
  lemma {:induction false} MatchScores(p: Model, docs: Documents, query: seq<Term>, k: Key)
    requires Sensible(p) && Logarithm(p.ln) && k in docs
    ensures Score(p, docs, query, k) >= 0.0
    ensures (exists t <- query :: t in docs[k]) <==> Score(p, docs, query, k) > 0.0
    decreases |query|
  {
    if query != [] {
      var n := |query| - 1;
      MatchScores(p, docs, query[..n], k);
      TermScores(p, docs, query[n], k);
      assert query == query[..n] + [query[n]];
    }
  }

  lemma TermScores(p: Model, docs: Documents, t: Term, k: Key)
    requires Sensible(p) && Logarithm(p.ln) && k in docs
    ensures if t in docs[k] then TermGain(p, docs, t, k) > 0.0 else TermGain(p, docs, t, k) == 0.0
  {
    if t in docs[k] {
      CountIn(docs[k], t);
      AveragePositive(docs);
      assert k in Holders(docs, t);
      HoldersWithin(docs, t);
      RarerTerm(p, |docs|, |Holders(docs, t)|, |Holders(docs, t)|);
      PositiveGain(p, Idf(p, |docs|, |Holders(docs, t)|), Count(docs[k], t), |docs[k]|, Average(docs));
    }
  }

  lemma HoldersWithin(docs: Documents, t: Term)
    ensures |Holders(docs, t)| <= |docs|
  {
    assert docs.Keys == Holders(docs, t) + (docs.Keys - Holders(docs, t));
    assert |docs| == |docs.Keys|;
  }

  lemma PositiveGain(p: Model, idf: real, tf: nat, length: nat, average: real)
    requires Sensible(p) && tf > 0 && average > 0.0 && idf > 0.0
    ensures Gain(p, idf, tf, length, average) > 0.0
  {
    DenominatorPositive(p, tf, length, average);
    Positive(tf as real, p.k1 + 1.0);
    Positive(idf, tf as real * (p.k1 + 1.0));
    PositiveRatio(idf * (tf as real * (p.k1 + 1.0)), Denominator(p, tf, length, average));
  }

  /** Exactly the documents that score at all match. */
  lemma MatchingScored(p: Model, docs: Documents, query: seq<Term>, allow: Key -> bool, k: Key)
    requires Sensible(p) && Logarithm(p.ln) && k in docs
    ensures k in Matching(docs, query, allow) <==> allow(k) && Score(p, docs, query, k) > 0.0
  {
    MatchScores(p, docs, query, k);
  }

  // ----------------------------------------------------------------- counting

  /** Where a term occurs. */
  function Places(tokens: seq<Term>, t: Term): set<nat> {
    set i: nat | i < |tokens| && tokens[i] == t
  }

  /** The frequency of a term is the number of its occurrences. */
  lemma {:induction false} CountIsPlaces(tokens: seq<Term>, t: Term)
    ensures Count(tokens, t) == |Places(tokens, t)|
    decreases |tokens|
  {
    if tokens != [] {
      var n := |tokens| - 1;
      CountIsPlaces(tokens[..n], t);
      if tokens[n] == t {
        assert Places(tokens, t) == Places(tokens[..n], t) + {n};
      } else {
        assert Places(tokens, t) == Places(tokens[..n], t);
      }
    }
  }

  /** The norm is the average length, wherever there is any text. */
  lemma AverageIs(docs: Documents)
    ensures TotalLength(docs) > 0 ==> docs != map[] && Average(docs) * |docs| as real == TotalLength(docs) as real
    ensures TotalLength(docs) == 0 ==> Average(docs) == 1.0
  {
    if TotalLength(docs) > 0 {
      assert |docs| > 0;
      Back(TotalLength(docs) as real, |docs| as real);
    }
  }
}
