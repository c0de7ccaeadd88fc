/** Lloyd's algorithm over exact reals (index/pq.py). */
module KMeans {
  import opened Options
  import opened Vectors

  predicate Shape(points: seq<Vec>, d: nat) {
    forall x <- points :: |x| == d
  }

  // ------------------------------------------------- a mean is the best centre

  function Sum(xs: seq<real>): real {
    if xs == [] then 0.0 else Sum(xs[..|xs| - 1]) + xs[|xs| - 1]
  }

  /** The cost of `c` as the centre of numbers. */
  function Spread(xs: seq<real>, c: real): real {
    if xs == [] then 0.0 else Spread(xs[..|xs| - 1], c) + Square(xs[|xs| - 1] - c)
  }

  /** By how much the numbers exceed `m`, together. */
  function Excess(xs: seq<real>, m: real): real {
    if xs == [] then 0.0 else Excess(xs[..|xs| - 1], m) + (xs[|xs| - 1] - m)
  }

  lemma Distribute(t: real, u: real, v: real)
    ensures t * (u + v) == t * u + t * v
  {}

  lemma {:induction false} ExcessIs(xs: seq<real>, m: real)
    ensures Excess(xs, m) == Sum(xs) - m * (|xs| as real)
    decreases |xs|
  {
    if xs != [] {
      ExcessIs(xs[..|xs| - 1], m);
      Distribute(m, (|xs| - 1) as real, 1.0);
    }
  }

  /** A square lies above its tangent. */
  lemma Tangent(x: real, m: real, c: real)
    ensures Square(x - c) >= Square(x - m) + 2.0 * (m - c) * (x - m)
  {
    var u, v := x - m, m - c;
    assert x - c == u + v;
    assert (u + v) * (u + v) == u * u + 2.0 * v * u + v * v;
    SquareNonNegative(v);
  }

  lemma {:induction false} SpreadTangent(xs: seq<real>, m: real, c: real)
    ensures Spread(xs, c) >= Spread(xs, m) + 2.0 * (m - c) * Excess(xs, m)
    decreases |xs|
  {
    if xs != [] {
      var n := |xs| - 1;
      SpreadTangent(xs[..n], m, c);
      Tangent(xs[n], m, c);
      Distribute(2.0 * (m - c), Excess(xs[..n], m), xs[n] - m);
    }
  }

  /** The mean of numbers spreads them least. */
  lemma MeanSpreadsLeast(xs: seq<real>, m: real, c: real)
    requires m * (|xs| as real) == Sum(xs)
    ensures Spread(xs, m) <= Spread(xs, c)
  {
    ExcessIs(xs, m);
    SpreadTangent(xs, m, c);
  }

  // ------------------------------------------------------------ whole vectors

  function Column(points: seq<Vec>, d: nat, j: nat): seq<real>
    requires Shape(points, d) && j < d
  {
    seq(|points|, i requires 0 <= i < |points| => points[i][j])
  }

  /** The cost of `c` as the centre of points. */
  function Cost(points: seq<Vec>, d: nat, c: Vec): real
    requires Shape(points, d) && |c| == d
    decreases |points|
  {
    if points == [] then 0.0 else Cost(points[..|points| - 1], d, c) + Dist2(points[|points| - 1], c)
  }

  function Cropped(points: seq<Vec>, d: nat, j: nat): (r: seq<Vec>)
    requires Shape(points, d) && j <= d
    ensures Shape(r, j)
  {
    seq(|points|, i requires 0 <= i < |points| => points[i][..j])
  }

  lemma ColumnInit(points: seq<Vec>, d: nat, j: nat)
    requires Shape(points, d) && points != [] && j < d
    ensures Shape(points[..|points| - 1], d)
    ensures Column(points, d, j)[..|points| - 1] == Column(points[..|points| - 1], d, j)
    ensures Cropped(points, d, j)[..|points| - 1] == Cropped(points[..|points| - 1], d, j)
  {}

  lemma ColumnLast(points: seq<Vec>, d: nat, c: Vec)
    requires Shape(points, d) && points != [] && |c| == d && d > 0
    ensures
      var x := points[|points| - 1];
      && Cost(points, d, c) == Cost(points[..|points| - 1], d, c) + Dist2(x[..d - 1], c[..d - 1]) + Square(x[d - 1] - c[d - 1])
  {}

  lemma CroppedLast(points: seq<Vec>, d: nat, c: Vec)
    requires Shape(points, d) && points != [] && |c| == d && d > 0
    ensures
      var init, x := points[..|points| - 1], points[|points| - 1];
      && Cost(Cropped(points, d, d - 1), d - 1, c[..d - 1])
         == Cost(Cropped(init, d, d - 1), d - 1, c[..d - 1]) + Dist2(x[..d - 1], c[..d - 1])
  {
    ColumnInit(points, d, d - 1);
  }

  lemma SpreadLast(points: seq<Vec>, d: nat, c: real)
    requires Shape(points, d) && points != [] && d > 0
    ensures
      var init, x := points[..|points| - 1], points[|points| - 1];
      Spread(Column(points, d, d - 1), c) == Spread(Column(init, d, d - 1), c) + Square(x[d - 1] - c)
  {
    ColumnInit(points, d, d - 1);
  }

  /** Coordinate by coordinate, a cost is the spread of a column more. */
  lemma {:induction false} CostByColumn(points: seq<Vec>, d: nat, c: Vec)
    requires Shape(points, d) && |c| == d && d > 0
    ensures Cost(points, d, c) == Cost(Cropped(points, d, d - 1), d - 1, c[..d - 1]) + Spread(Column(points, d, d - 1), c[d - 1])
    decreases |points|
  {
    if points != [] {
      CostByColumn(points[..|points| - 1], d, c);
      ColumnLast(points, d, c);
      CroppedLast(points, d, c);
      SpreadLast(points, d, c[d - 1]);
    }
  }

  /** `m` is the mean of the points, in every coordinate. */
  predicate IsMean(points: seq<Vec>, d: nat, m: Vec)
    requires Shape(points, d)
  {
    |m| == d && forall j: nat | j < d :: MeanAt(points, d, m, j)
  }

  predicate MeanAt(points: seq<Vec>, d: nat, m: Vec, j: nat)
    requires Shape(points, d) && j < d <= |m|
  {
    m[j] * (|points| as real) == Sum(Column(points, d, j))
  }

  lemma CroppedMean(points: seq<Vec>, d: nat, m: Vec)
    requires Shape(points, d) && IsMean(points, d, m) && d > 0
    ensures IsMean(Cropped(points, d, d - 1), d - 1, m[..d - 1])
  {
    var e := d - 1;
    var cropped, init := Cropped(points, d, e), m[..e];
    forall j: nat | j < e ensures MeanAt(cropped, e, init, j) {
      assert MeanAt(points, d, m, j);
      assert Column(cropped, e, j) == Column(points, d, j);
    }
  }

  lemma LastColumn(points: seq<Vec>, d: nat, m: Vec, c: Vec)
    requires Shape(points, d) && IsMean(points, d, m) && |c| == d && d > 0
    ensures Spread(Column(points, d, d - 1), m[d - 1]) <= Spread(Column(points, d, d - 1), c[d - 1])
  {
    assert MeanAt(points, d, m, d - 1);
    MeanSpreadsLeast(Column(points, d, d - 1), m[d - 1], c[d - 1]);
  }

  /** The mean is the centre of least cost. */
  lemma {:induction false} MeanCostsLeast(points: seq<Vec>, d: nat, m: Vec, c: Vec)
    requires Shape(points, d) && IsMean(points, d, m) && |c| == d
    ensures Cost(points, d, m) <= Cost(points, d, c)
    decreases d
  {
    if d == 0 {
      assert m == c;
    } else {
      CostByColumn(points, d, m);
      CostByColumn(points, d, c);
      LastColumn(points, d, m, c);
      CroppedMean(points, d, m);
      MeanCostsLeast(Cropped(points, d, d - 1), d - 1, m[..d - 1], c[..d - 1]);
    }
  }

  // --------------------------------------------------------------- assignments

  /** The points assigned to centre `c`. */
  function Cluster(data: seq<Vec>, a: seq<nat>, c: nat): (r: seq<Vec>)
    requires |a| == |data|
    ensures forall x <- r :: x in data
    decreases |data|
  {
    if data == [] then []
    else
      var n := |data| - 1;
      var rest := Cluster(data[..n], a[..n], c);
      if a[n] == c then rest + [data[n]] else rest
  }

  predicate Assigned(a: seq<nat>, n: nat, k: nat) {
    |a| == n && forall i | 0 <= i < n :: a[i] < k
  }

  /** What an assignment costs. */
  function Total(data: seq<Vec>, d: nat, a: seq<nat>, centers: seq<Vec>): real
    requires Shape(data, d) && Shape(centers, d) && Assigned(a, |data|, |centers|)
    decreases |data|
  {
    if data == [] then 0.0
    else
      var n := |data| - 1;
      Total(data[..n], d, a[..n], centers) + Dist2(data[n], centers[a[n]])
  }

  /** Moving one centre changes the cost of its own cluster only. */
  lemma {:induction false} MoveOne(data: seq<Vec>, d: nat, a: seq<nat>, centers: seq<Vec>, t: nat, c: Vec)
    requires Shape(data, d) && Shape(centers, d) && Assigned(a, |data|, |centers|) && t < |centers| && |c| == d
    ensures Shape(Cluster(data, a, t), d) && Shape(centers[t := c], d)
    ensures Total(data, d, a, centers[t := c]) - Total(data, d, a, centers)
         == Cost(Cluster(data, a, t), d, c) - Cost(Cluster(data, a, t), d, centers[t])
    decreases |data|
  {
    if data != [] {
      var n := |data| - 1;
      MoveOne(data[..n], d, a[..n], centers, t, c);
      var rest := Cluster(data[..n], a[..n], t);
      if a[n] == t {
        assert (rest + [data[n]])[..|rest|] == rest;
      }
    }
  }

  predicate Nearest(data: seq<Vec>, d: nat, centers: seq<Vec>, a: seq<nat>)
    requires Shape(data, d) && Shape(centers, d)
  {
    && Assigned(a, |data|, |centers|)
    && forall i, c | 0 <= i < |data| && 0 <= c < |centers| :: Dist2(data[i], centers[a[i]]) <= Dist2(data[i], centers[c])
  }

  /** No assignment costs less than the nearest one. */
  lemma {:induction false} NearestCostsLeast(data: seq<Vec>, d: nat, centers: seq<Vec>, a: seq<nat>, b: seq<nat>)
    requires Shape(data, d) && Shape(centers, d) && Nearest(data, d, centers, a) && Assigned(b, |data|, |centers|)
    ensures Total(data, d, a, centers) <= Total(data, d, b, centers)
    decreases |data|
  {
    if data != [] {
      var n := |data| - 1;
      NearestCostsLeast(data[..n], d, centers, a[..n], b[..n]);
    }
  }

  /** New centres: means of the clusters that have points, points of the data elsewhere. */
  predicate Update(data: seq<Vec>, d: nat, a: seq<nat>, centers: seq<Vec>, next: seq<Vec>)
    requires Shape(data, d) && Shape(centers, d) && Assigned(a, |data|, |centers|)
  {
    && |next| == |centers| && Shape(next, d)
    && forall c: nat | c < |centers| ::
         var points := Cluster(data, a, c);
         if points == [] then next[c] in data else IsMean(points, d, next[c])
  }

  /** The first `t` centres moved. */
  function Mixed(next: seq<Vec>, centers: seq<Vec>, t: nat): seq<Vec>
    requires |next| == |centers| && t <= |centers|
  {
    next[..t] + centers[t..]
  }

  lemma MixedStep(next: seq<Vec>, centers: seq<Vec>, t: nat)
    requires |next| == |centers| && 0 < t <= |centers|
    ensures Mixed(next, centers, t - 1)[t - 1] == centers[t - 1]
    ensures Mixed(next, centers, t) == Mixed(next, centers, t - 1)[t - 1 := next[t - 1]]
  {}

  /** Moving one centre as the update says costs no more. */
  lemma MoveBetter(data: seq<Vec>, d: nat, a: seq<nat>, centers: seq<Vec>, t: nat, c: Vec)
    requires Shape(data, d) && Shape(centers, d) && Assigned(a, |data|, |centers|) && t < |centers| && |c| == d
    requires var points := Cluster(data, a, t); points == [] || IsMean(points, d, c)
    ensures Shape(centers[t := c], d) && Total(data, d, a, centers[t := c]) <= Total(data, d, a, centers)
  {
    MoveOne(data, d, a, centers, t, c);
    var points := Cluster(data, a, t);
    if points != [] {
      MeanCostsLeast(points, d, c, centers[t]);
    }
  }

  lemma {:induction false} MoveAll(data: seq<Vec>, d: nat, a: seq<nat>, centers: seq<Vec>, next: seq<Vec>, t: nat)
    requires Shape(data, d) && Shape(centers, d) && Assigned(a, |data|, |centers|)
    requires Update(data, d, a, centers, next) && t <= |centers|
    ensures Shape(Mixed(next, centers, t), d) && Total(data, d, a, Mixed(next, centers, t)) <= Total(data, d, a, centers)
    decreases t
  {
    if t == 0 {
      assert Mixed(next, centers, 0) == centers;
    } else {
      MoveAll(data, d, a, centers, next, t - 1);
      MixedStep(next, centers, t);
      MoveBetter(data, d, a, Mixed(next, centers, t - 1), t - 1, next[t - 1]);
    }
  }

  /**
   * Lloyd monotonicity: whatever centre an empty cluster is given, the cost of the nearest
   * assignment to the new centres is no more than that of the nearest assignment to the old ones.
   */
  lemma LloydMonotone(data: seq<Vec>, d: nat, centers: seq<Vec>, a: seq<nat>, next: seq<Vec>, b: seq<nat>)
    requires Shape(data, d) && Shape(centers, d) && Nearest(data, d, centers, a)
    requires Update(data, d, a, centers, next) && Nearest(data, d, next, b)
    ensures Total(data, d, b, next) <= Total(data, d, a, centers)
  {
    MoveAll(data, d, a, centers, next, |centers|);
    assert Mixed(next, centers, |centers|) == next;
    NearestCostsLeast(data, d, next, b, a);
  }
}
