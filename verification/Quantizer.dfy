/** The product quantiser as an object (index/pq.py). */
module Quantizer {
  import opened Options
  import opened Vectors
  import opened ProductQuantizer
  import KMeans
  import Lloyd

  /** A row of the table of a query, entry by entry as the source computes it. */
  method TableRow(metric: Metric, q: Vec, book: Book) returns (row: seq<real>)
    requires Parts(book, |book|, |q|)
    ensures IsRow(metric, q, book, row)
  {
    row := [];
    for c := 0 to |book|
      invariant |row| == c && forall j | 0 <= j < c :: row[j] == Plain(metric, q, book[j])
    {
      PlainCommutes(metric, q, book[c]);
      row := row + [if metric == L2 then Dist2(book[c], q) else -Dot(book[c], q)];
    }
  }

  /** A row of the table between centroids, from inner products. */
  method PairRow(metric: Metric, x: Vec, book: Book) returns (row: seq<real>)
    requires Parts(book, |book|, |x|)
    ensures IsRow(metric, x, book, row)
  {
    row := [];
    for c := 0 to |book|
      invariant |row| == c && forall j | 0 <= j < c :: row[j] == Plain(metric, x, book[j])
    {
      ExpandedIsDist2(x, book[c]);
      row := row + [if metric == L2 then Expanded(x, book[c]) else -Dot(x, book[c])];
    }
  }

  method PairSquare(metric: Metric, book: Book, k: nat, d: nat) returns (square: seq<seq<real>>)
    requires Parts(book, k, d)
    ensures IsSquare(metric, book, k, d, square)
  {
    square := [];
    for i := 0 to k
      invariant |square| == i && forall j | 0 <= j < i :: IsRow(metric, book[j], book, square[j])
    {
      var row := PairRow(metric, book[i], book);
      square := square + [row];
    }
  }

  method NearestCentroid(x: Vec, book: Book) returns (j: nat)
    requires book != [] && Parts(book, |book|, |x|)
    ensures NearestIn(book, x, j)
  {
    var row := PairRow(L2, x, book);
    j := ArgMin(row);
  }

  /** The sub-vectors of all points in one sub-space. */
  function Column(data: seq<Vec>, m: nat, d: nat, s: nat): (r: seq<Vec>)
    requires s < m && forall x <- data :: |x| == m * d
    ensures |r| == |data| && KMeans.Shape(r, d)
  {
    seq(|data|, i requires 0 <= i < |data| => Split(data[i], m, d)[s])
  }

  /** A book that k-means may make for a sub-space. */
  ghost predicate Fitted(data: seq<Vec>, m: nat, d: nat, k: nat, seeds: seq<seq<Vec>>, iters: nat, tol: real, s: nat, book: Book)
    requires s < m && data != [] && (forall x <- data :: |x| == m * d) && Books(seeds, m, k, d)
  {
    Lloyd.FitFor(Column(data, m, d, s), d, k, seeds[s], iters, tol, book)
  }

  method FitBook(data: seq<Vec>, m: nat, d: nat, k: nat, seeds: seq<seq<Vec>>, s: nat, iters: nat, tol: real)
    returns (book: Option<Book>)
    requires k > 0 && s < m && (forall x <- data :: |x| == m * d) && Books(seeds, m, k, d)
    ensures book.None? <==> data == []
    ensures book.Some? ==> Parts(book.value, k, d) && Fitted(data, m, d, k, seeds, iters, tol, s, book.value)
  {
    book := Lloyd.Train(Column(data, m, d, s), d, k, seeds[s], iters, tol);
  }

  /** The books of the first sub-spaces are what k-means makes of them. */
  ghost predicate AllFitted(data: seq<Vec>, m: nat, d: nat, k: nat, seeds: seq<seq<Vec>>, iters: nat, tol: real, books: seq<Book>)
    requires |books| <= m && (books == [] || data != []) && (forall x <- data :: |x| == m * d) && Books(seeds, m, k, d)
    decreases |books|
  {
    books == [] ||
    var s := |books| - 1;
    AllFitted(data, m, d, k, seeds, iters, tol, books[..s]) && Fitted(data, m, d, k, seeds, iters, tol, s, books[s])
  }

  lemma FittedMore(data: seq<Vec>, m: nat, d: nat, k: nat, seeds: seq<seq<Vec>>, iters: nat, tol: real, books: seq<Book>, book: Book)
    requires |books| < m && data != [] && (forall x <- data :: |x| == m * d) && Books(seeds, m, k, d)
    requires AllFitted(data, m, d, k, seeds, iters, tol, books) && Fitted(data, m, d, k, seeds, iters, tol, |books|, book)
    ensures AllFitted(data, m, d, k, seeds, iters, tol, books + [book])
  {
    assert (books + [book])[..|books|] == books && (books + [book])[|books|] == book;
  }

  method FitBooks(data: seq<Vec>, m: nat, d: nat, k: nat, seeds: seq<seq<Vec>>, iters: nat, tol: real)
    returns (books: Option<seq<Book>>)
    requires k > 0 && (forall x <- data :: |x| == m * d) && Books(seeds, m, k, d)
    ensures books.Some? <==> data != [] || m == 0
    ensures books.Some? ==> Books(books.value, m, k, d) && AllFitted(data, m, d, k, seeds, iters, tol, books.value)
  {
    var made: seq<Book> := [];
    for s := 0 to m
      invariant |made| == s && (forall i | 0 <= i < s :: Parts(made[i], k, d))
      invariant s > 0 ==> data != []
      invariant AllFitted(data, m, d, k, seeds, iters, tol, made)
    {
      var book := FitBook(data, m, d, k, seeds, s, iters, tol);
      if book.None? {
        return None;
      }
      FittedMore(data, m, d, k, seeds, iters, tol, made, book.value);
      made := made + [book.value];
    }
    return Some(made);
  }

  class Trained {
    const metric: Metric
    const m: nat
    const k: nat
    const d: nat
    /** No books until the quantiser has been trained. */
    var books: Option<seq<Book>>
    /** The table between centroids, computed when it is first needed. */
    var pairs: Option<seq<seq<seq<real>>>>

    predicate Valid()
      reads this
    {
      && k > 0
      && (books.Some? ==> Books(books.value, m, k, d))
      && (pairs.Some? ==> books.Some? && IsPairTable(metric, books.value, m, k, d, pairs.value))
    }

    constructor (metric: Metric, m: nat, k: nat, d: nat)
      requires k > 0
      ensures Valid() && books == None && this.metric == metric && this.m == m && this.k == k && this.d == d
    {
      this.metric, this.m, this.k, this.d := metric, m, k, d;
      books, pairs := None, None;
    }

    /** One book for each sub-space, fitted by k-means to the sub-vectors; `seeds` are its random starting centres. */
    method Train(data: seq<Vec>, seeds: seq<seq<Vec>>, iters: nat, tol: real) returns (ok: bool)
      requires Valid() && (forall x <- data :: |x| == m * d) && Books(seeds, m, k, d)
      modifies this
      ensures Valid() && ok == (data != [] || m == 0)
      ensures if ok then books.Some? && pairs == None else books == old(books) && pairs == old(pairs)
      ensures ok ==> AllFitted(data, m, d, k, seeds, iters, tol, books.value)
    {
      var made := FitBooks(data, m, d, k, seeds, iters, tol);
      ok := made.Some?;
      if ok {
        books, pairs := made, None;
      }
    }

    /** The code of a vector: in every sub-space the nearest centroid. */
    method Encode(v: Vec) returns (code: Option<Code>)
      requires Valid() && |v| == m * d
      ensures code.Some? <==> books.Some?
      ensures code.Some? ==> NearestCode(books.value, m, k, d, v, code.value)
    {
      if books.None? {
        return None;
      }
      var c: Code := [];
      for s := 0 to m
        invariant |c| == s && forall i | 0 <= i < s :: NearestIn(books.value[i], Split(v, m, d)[i], c[i])
      {
        var j := NearestCentroid(Split(v, m, d)[s], books.value[s]);
        c := c + [j];
      }
      code := Some(c);
    }

    /** The reconstruction of a code. */
    method Decode(code: Code) returns (v: Option<Vec>)
      requires Valid() && Fits(code, m, k)
      ensures v.Some? <==> books.Some?
      ensures v.Some? ==> v.value == Decoded(books.value, m, k, d, code)
    {
      if books.None? {
        return None;
      }
      var out: Vec := [];
      ghost var picked := Picked(books.value, m, k, d, code);
      for s := 0 to m
        invariant out == Join(picked[..s], d)
      {
        assert picked[..s + 1][..s] == picked[..s];
        out := out + books.value[s][code[s]];
      }
      assert picked[..m] == picked;
      v := Some(out);
    }

    /** The table of a query and the constant that goes with it. */
    method DistanceTable(q: Vec) returns (table: Option<(seq<seq<real>>, real)>)
      requires Valid() && |q| == m * d
      ensures table.Some? <==> books.Some?
      ensures table.Some? ==> IsTable(metric, books.value, m, k, d, q, table.value.0) && table.value.1 == Constant(metric)
    {
      if books.None? {
        return None;
      }
      var rows: seq<seq<real>> := [];
      for s := 0 to m
        invariant |rows| == s && forall i | 0 <= i < s :: IsRow(metric, Split(q, m, d)[i], books.value[i], rows[i])
      {
        var row := TableRow(metric, Split(q, m, d)[s], books.value[s]);
        rows := rows + [row];
      }
      table := Some((rows, if metric == Cosine then 1.0 else 0.0));
    }

    /** The score of a code is the distance from the query to what the code decodes to. */
    method Adc(q: Vec, table: seq<seq<real>>, const_: real, code: Code) returns (score: real)
      requires Valid() && books.Some? && |q| == m * d && Fits(code, m, k)
      requires IsTable(metric, books.value, m, k, d, q, table) && const_ == Constant(metric)
      ensures score == Distance(metric, q, Decoded(books.value, m, k, d, code))
    {
      AdcExact(metric, books.value, m, k, d, q, table, code);
      var acc := 0.0;
      for s := 0 to m
        invariant acc == Selected(table[..s], k, code[..s])
      {
        assert table[..s + 1][..s] == table[..s] && code[..s + 1][..s] == code[..s];
        acc := acc + table[s][code[s]];
      }
      assert table[..m] == table && code[..m] == code;
      score := acc + const_;
    }

    method SymmetricTables() returns (tables: seq<seq<seq<real>>>)
      requires Valid() && books.Some?
      modifies this`pairs
      ensures Valid() && IsPairTable(metric, books.value, m, k, d, tables) && pairs == Some(tables)
    {
      if pairs.None? {
        var made: seq<seq<seq<real>>> := [];
        for s := 0 to m
          invariant |made| == s && forall i | 0 <= i < s :: IsSquare(metric, books.value[i], k, d, made[i])
        {
          var square := PairSquare(metric, books.value[s], k, d);
          made := made + [square];
        }
        pairs := Some(made);
      }
      tables := pairs.value;
    }

    /** The distance between two codes is that between what they decode to; `None` before training. */
    method Sdc(a: Code, b: Code) returns (score: Option<real>)
      requires Valid() && Fits(a, m, k) && Fits(b, m, k)
      modifies this`pairs
      ensures Valid() && (score.Some? <==> books.Some?)
      ensures score.Some? ==>
        score.value == Distance(metric, Decoded(books.value, m, k, d, a), Decoded(books.value, m, k, d, b))
    {
      if books.None? {
        return None;
      }
      var tables := SymmetricTables();
      var sum := PairSum(tables, a, b);
      SdcExact(metric, books.value, m, k, d, a, b);
      score := Some(sum + if metric == Cosine then 1.0 else 0.0);
    }

    method PairSum(tables: seq<seq<seq<real>>>, a: Code, b: Code) returns (sum: real)
      requires Valid() && books.Some? && IsPairTable(metric, books.value, m, k, d, tables) && Fits(a, m, k) && Fits(b, m, k)
      ensures sum == PlainSum(metric, Picked(books.value, m, k, d, a), Picked(books.value, m, k, d, b), d)
    {
      sum := 0.0;
      ghost var pa, pb := Picked(books.value, m, k, d, a), Picked(books.value, m, k, d, b);
      for s := 0 to m
        invariant sum == PlainSum(metric, pa[..s], pb[..s], d)
      {
        assert pa[..s + 1][..s] == pa[..s] && pb[..s + 1][..s] == pb[..s];
        assert IsSquare(metric, books.value[s], k, d, tables[s]);
        assert IsRow(metric, books.value[s][a[s]], books.value[s], tables[s][a[s]]);
        sum := sum + tables[s][a[s]][b[s]];
      }
      assert pa[..m] == pa && pb[..m] == pb;
    }
  }
}
