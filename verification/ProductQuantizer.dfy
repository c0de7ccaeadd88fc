/** Product quantisation over exact reals: codes, tables and the distances they give (index/pq.py). */
module ProductQuantizer {
  import opened Vectors

  datatype Metric = L2 | DotProduct | Cosine

  /** Smaller is closer.  Cosine is for vectors that have been normalised. */
  function Distance(metric: Metric, a: Vec, b: Vec): real
    requires |a| == |b|
  {
    match metric
    case L2 => Dist2(a, b)
    case DotProduct => -Dot(a, b)
    case Cosine => 1.0 - Dot(a, b)
  }

  function Constant(metric: Metric): real {
    if metric == Cosine then 1.0 else 0.0
  }

  /** The part of a distance that adds up over sub-spaces. */
  function Plain(metric: Metric, a: Vec, b: Vec): real
    requires |a| == |b|
  {
    if metric == L2 then Dist2(a, b) else -Dot(a, b)
  }

  lemma DistanceIsPlain(metric: Metric, a: Vec, b: Vec)
    requires |a| == |b|
    ensures Distance(metric, a, b) == Plain(metric, a, b) + Constant(metric)
  {}

  // --------------------------------------------------------- lists of sub-vectors

  /** `m` sub-vectors of dimension `d`. */
  predicate Parts(ps: seq<Vec>, m: nat, d: nat) {
    |ps| == m && forall i | 0 <= i < m :: |ps[i]| == d
  }

  lemma Times(m: nat, d: nat)
    ensures 0 <= m * d && (m + 1) * d == m * d + d
  {}

  function Join(ps: seq<Vec>, d: nat): (v: Vec)
    requires Parts(ps, |ps|, d)
    ensures |v| == |ps| * d
  {
    if ps == [] then [] else
      Times(|ps| - 1, d);
      Join(ps[..|ps| - 1], d) + ps[|ps| - 1]
  }

  function Split(v: Vec, m: nat, d: nat): (ps: seq<Vec>)
    requires |v| == m * d
    ensures Parts(ps, m, d)
    decreases m
  {
    if m == 0 then [] else
      Times(m - 1, d);
      Split(v[..(m - 1) * d], m - 1, d) + [v[(m - 1) * d..]]
  }

  lemma {:induction false} JoinSplit(v: Vec, m: nat, d: nat)
    requires |v| == m * d
    ensures Join(Split(v, m, d), d) == v
    decreases m
  {
    if m > 0 {
      Times(m - 1, d);
      JoinSplit(v[..(m - 1) * d], m - 1, d);
      var ps := Split(v, m, d);
      assert ps[..m - 1] == Split(v[..(m - 1) * d], m - 1, d);
      assert v == v[..(m - 1) * d] + v[(m - 1) * d..];
    }
  }

  /** The sub-vector of sub-space `s` is the slice the source takes. */
  lemma {:induction false} SplitAt(v: Vec, m: nat, d: nat, s: nat)
    requires |v| == m * d && s < m
    ensures 0 <= s * d <= s * d + d <= |v| && Split(v, m, d)[s] == v[s * d..s * d + d]
    decreases m
  {
    Times(m - 1, d);
    if s < m - 1 {
      SplitAt(v[..(m - 1) * d], m - 1, d, s);
      assert v[..(m - 1) * d][s * d..s * d + d] == v[s * d..s * d + d];
    } else {
      assert s * d + d == |v|;
    }
  }

  /** Distances sub-space by sub-space. */
  function PlainSum(metric: Metric, a: seq<Vec>, b: seq<Vec>, d: nat): real
    requires Parts(a, |a|, d) && Parts(b, |a|, d)
  {
    if a == [] then 0.0
    else PlainSum(metric, a[..|a| - 1], b[..|b| - 1], d) + Plain(metric, a[|a| - 1], b[|b| - 1])
  }

  lemma PlainAppend(metric: Metric, a: Vec, b: Vec, c: Vec, d: Vec)
    requires |a| == |b| && |c| == |d|
    ensures Plain(metric, a + c, b + d) == Plain(metric, a, b) + Plain(metric, c, d)
  {
    Dist2Append(a, b, c, d);
    DotAppend(a, b, c, d);
  }

  /** Both distance families add up over the sub-spaces. */
  lemma {:induction false} PlainJoin(metric: Metric, a: seq<Vec>, b: seq<Vec>, d: nat)
    requires Parts(a, |a|, d) && Parts(b, |a|, d)
    ensures |Join(a, d)| == |Join(b, d)| && Plain(metric, Join(a, d), Join(b, d)) == PlainSum(metric, a, b, d)
    decreases |a|
  {
    if a != [] {
      var n := |a| - 1;
      PlainJoin(metric, a[..n], b[..n], d);
      PlainAppend(metric, Join(a[..n], d), Join(b[..n], d), a[n], b[n]);
    }
  }

  // ------------------------------------------------------------ codes and tables

  type Book = seq<Vec>
  type Code = seq<nat>

  /** `m` books of `k` centroids of dimension `d`. */
  predicate Books(books: seq<Book>, m: nat, k: nat, d: nat) {
    |books| == m && forall s | 0 <= s < m :: Parts(books[s], k, d)
  }

  predicate Fits(code: Code, m: nat, k: nat) {
    |code| == m && forall s | 0 <= s < m :: code[s] < k
  }

  /** The centroids that a code names. */
  function Picked(books: seq<Book>, m: nat, k: nat, d: nat, code: Code): (ps: seq<Vec>)
    requires Books(books, m, k, d) && Fits(code, m, k)
    ensures Parts(ps, m, d) && forall s | 0 <= s < m :: ps[s] == books[s][code[s]]
  {
    seq(m, s requires 0 <= s < m => books[s][code[s]])
  }

  /** The reconstruction of a code. */
  function Decoded(books: seq<Book>, m: nat, k: nat, d: nat, code: Code): (v: Vec)
    requires Books(books, m, k, d) && Fits(code, m, k)
    ensures |v| == m * d
  {
    Join(Picked(books, m, k, d, code), d)
  }

  lemma {:induction false} DotCommutes(a: Vec, b: Vec)
    requires |a| == |b|
    ensures Dot(a, b) == Dot(b, a)
    decreases |a|
  {
    if a != [] {
      DotCommutes(a[..|a| - 1], b[..|b| - 1]);
    }
  }

  lemma {:induction false} Dist2Commutes(a: Vec, b: Vec)
    requires |a| == |b|
    ensures Dist2(a, b) == Dist2(b, a)
    decreases |a|
  {
    if a != [] {
      var n := |a| - 1;
      Dist2Commutes(a[..n], b[..n]);
      SquareEven(a[n] - b[n]);
      assert -(a[n] - b[n]) == b[n] - a[n];
    }
  }

  lemma PlainCommutes(metric: Metric, a: Vec, b: Vec)
    requires |a| == |b|
    ensures Plain(metric, a, b) == Plain(metric, b, a)
  {
    Dist2Commutes(a, b);
    DotCommutes(a, b);
  }

  /** The plain distances from a sub-vector to every centroid of a book. */
  predicate IsRow(metric: Metric, x: Vec, book: Book, row: seq<real>)
    requires Parts(book, |book|, |x|)
  {
    |row| == |book| && forall c | 0 <= c < |book| :: row[c] == Plain(metric, x, book[c])
  }

  /** The table of a query, a row for every sub-space. */
  predicate IsTable(metric: Metric, books: seq<Book>, m: nat, k: nat, d: nat, q: Vec, table: seq<seq<real>>)
    requires Books(books, m, k, d) && |q| == m * d
  {
    |table| == m && forall s | 0 <= s < m :: IsRow(metric, Split(q, m, d)[s], books[s], table[s])
  }

  /** The distances between the centroids of a book. */
  predicate IsSquare(metric: Metric, book: Book, k: nat, d: nat, square: seq<seq<real>>)
    requires Parts(book, k, d)
  {
    |square| == k && forall i | 0 <= i < k :: IsRow(metric, book[i], book, square[i])
  }

  predicate IsPairTable(metric: Metric, books: seq<Book>, m: nat, k: nat, d: nat, tables: seq<seq<seq<real>>>)
    requires Books(books, m, k, d)
  {
    |tables| == m && forall s | 0 <= s < m :: IsSquare(metric, books[s], k, d, tables[s])
  }

  /** The sum of the entries a code selects. */
  function Selected(table: seq<seq<real>>, k: nat, code: Code): real
    requires Fits(code, |table|, k) && forall s | 0 <= s < |table| :: |table[s]| == k
    decreases |code|
  {
    if code == [] then 0.0
    else Selected(table[..|table| - 1], k, code[..|code| - 1]) + table[|table| - 1][code[|code| - 1]]
  }

  lemma {:induction false} SelectedIsPlain(metric: Metric, table: seq<seq<real>>, k: nat, code: Code, qs: seq<Vec>, cs: seq<Vec>, d: nat)
    requires Fits(code, |table|, k) && forall s | 0 <= s < |table| :: |table[s]| == k
    requires Parts(qs, |table|, d) && Parts(cs, |table|, d)
    requires forall s | 0 <= s < |table| :: table[s][code[s]] == Plain(metric, qs[s], cs[s])
    ensures Selected(table, k, code) == PlainSum(metric, qs, cs, d)
    decreases |code|
  {
    if code != [] {
      var n := |code| - 1;
      SelectedIsPlain(metric, table[..n], k, code[..n], qs[..n], cs[..n], d);
    }
  }

  /** ADC is exact on reconstructions: a score from the table is the distance from the query to the decoded code. */
  lemma AdcExact(metric: Metric, books: seq<Book>, m: nat, k: nat, d: nat, q: Vec, table: seq<seq<real>>, code: Code)
    requires Books(books, m, k, d) && |q| == m * d && Fits(code, m, k) && IsTable(metric, books, m, k, d, q, table)
    ensures (forall s | 0 <= s < m :: |table[s]| == k)
    ensures Selected(table, k, code) + Constant(metric) == Distance(metric, q, Decoded(books, m, k, d, code))
  {
    var qs, cs := Split(q, m, d), Picked(books, m, k, d, code);
    forall s | 0 <= s < m ensures |table[s]| == k && table[s][code[s]] == Plain(metric, qs[s], cs[s]) {
      assert IsRow(metric, qs[s], books[s], table[s]);
    }
    SelectedIsPlain(metric, table, k, code, qs, cs, d);
    PlainJoin(metric, qs, cs, d);
    JoinSplit(q, m, d);
    DistanceIsPlain(metric, q, Join(cs, d));
  }

  /** SDC is exact too: it is the distance between the two decoded codes. */
  lemma SdcExact(metric: Metric, books: seq<Book>, m: nat, k: nat, d: nat, a: Code, b: Code)
    requires Books(books, m, k, d) && Fits(a, m, k) && Fits(b, m, k)
    ensures PlainSum(metric, Picked(books, m, k, d, a), Picked(books, m, k, d, b), d) + Constant(metric)
         == Distance(metric, Decoded(books, m, k, d, a), Decoded(books, m, k, d, b))
  {
    PlainJoin(metric, Picked(books, m, k, d, a), Picked(books, m, k, d, b), d);
    DistanceIsPlain(metric, Decoded(books, m, k, d, a), Decoded(books, m, k, d, b));
  }

  // ------------------------------------------------------------------ encoding

  /** The first of the nearest. */
  predicate NearestIn(book: Book, x: Vec, j: nat)
    requires Parts(book, |book|, |x|)
  {
    && j < |book| && (forall c | 0 <= c < |book| :: Dist2(x, book[j]) <= Dist2(x, book[c]))
    && forall c | 0 <= c < j :: Dist2(x, book[j]) < Dist2(x, book[c])
  }

  /** The nearest centroid in every sub-space. */
  predicate NearestCode(books: seq<Book>, m: nat, k: nat, d: nat, v: Vec, code: Code)
    requires Books(books, m, k, d) && |v| == m * d
  {
    Fits(code, m, k) && forall s | 0 <= s < m :: NearestIn(books[s], Split(v, m, d)[s], code[s])
  }

  lemma {:induction false} SmallerSum(a: seq<Vec>, b: seq<Vec>, c: seq<Vec>, d: nat)
    requires Parts(a, |a|, d) && Parts(b, |a|, d) && Parts(c, |a|, d)
    requires forall s | 0 <= s < |a| :: Dist2(a[s], b[s]) <= Dist2(a[s], c[s])
    ensures PlainSum(L2, a, b, d) <= PlainSum(L2, a, c, d)
    decreases |a|
  {
    if a != [] {
      var n := |a| - 1;
      SmallerSum(a[..n], b[..n], c[..n], d);
    }
  }

  /** Encoding is optimal: no code at all decodes closer to the vector. */
  lemma EncodeOptimal(books: seq<Book>, m: nat, k: nat, d: nat, v: Vec, code: Code, other: Code)
    requires Books(books, m, k, d) && |v| == m * d && NearestCode(books, m, k, d, v, code) && Fits(other, m, k)
    ensures Dist2(v, Decoded(books, m, k, d, code)) <= Dist2(v, Decoded(books, m, k, d, other))
  {
    var vs, cs, os := Split(v, m, d), Picked(books, m, k, d, code), Picked(books, m, k, d, other);
    forall s | 0 <= s < m ensures Dist2(vs[s], cs[s]) <= Dist2(vs[s], os[s]) {
      assert NearestIn(books[s], vs[s], code[s]);
    }
    SmallerSum(vs, cs, os, d);
    PlainJoin(L2, vs, cs, d);
    PlainJoin(L2, vs, os, d);
    JoinSplit(v, m, d);
  }

  /** There is only one such code. */
  lemma EncodeUnique(books: seq<Book>, m: nat, k: nat, d: nat, v: Vec, a: Code, b: Code)
    requires Books(books, m, k, d) && |v| == m * d && NearestCode(books, m, k, d, v, a) && NearestCode(books, m, k, d, v, b)
    ensures a == b
  {
    forall s | 0 <= s < m ensures a[s] == b[s] {
      NearestUnique(books[s], Split(v, m, d)[s], a[s], b[s]);
    }
  }

  lemma NearestUnique(book: Book, x: Vec, i: nat, j: nat)
    requires Parts(book, |book|, |x|) && NearestIn(book, x, i) && NearestIn(book, x, j)
    ensures i == j
  {
    assert Dist2(x, book[i]) <= Dist2(x, book[j]) && Dist2(x, book[j]) <= Dist2(x, book[i]);
  }

  /** Encoding a reconstruction loses nothing more. */
  lemma EncodeDecoded(books: seq<Book>, m: nat, k: nat, d: nat, first: Code, again: Code)
    requires Books(books, m, k, d) && Fits(first, m, k) && NearestCode(books, m, k, d, Decoded(books, m, k, d, first), again)
    ensures Decoded(books, m, k, d, again) == Decoded(books, m, k, d, first)
  {
    var v, w := Decoded(books, m, k, d, first), Decoded(books, m, k, d, again);
    EncodeOptimal(books, m, k, d, v, again, first);
    Dist2Self(v);
    Dist2NonNegative(v, w);
    Dist2Zero(v, w);
  }
}
