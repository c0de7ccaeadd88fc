/** The loops of k-means (index/pq.py). */
module Lloyd {
  import opened Options
  import opened Vectors
  import opened KMeans

  // --------------------------------------------------------------- assignment

  /** The first of the nearest centres, and its squared distance. */
  predicate NearestOf(x: Vec, centers: seq<Vec>, j: nat, dist: real)
    requires Shape(centers, |x|)
  {
    && j < |centers| && dist == Dist2(x, centers[j]) && (forall c | 0 <= c < |centers| :: dist <= Dist2(x, centers[c]))
    && forall c | 0 <= c < j :: dist < Dist2(x, centers[c])
  }

  method NearestCentre(x: Vec, d: nat, centers: seq<Vec>) returns (j: nat, dist: real)
    requires |x| == d && Shape(centers, d) && centers != []
    ensures NearestOf(x, centers, j, dist)
  {
    var row := Row(x, d, centers);
    j := ArgMin(row);
    dist := row[j];
  }

  predicate AllNearest(data: seq<Vec>, d: nat, centers: seq<Vec>, a: seq<nat>, dist: seq<real>)
    requires Shape(data, d) && Shape(centers, d)
  {
    |a| == |dist| == |data| && forall i | 0 <= i < |data| :: NearestOf(data[i], centers, a[i], dist[i])
  }

  /** The nearest centre of every point, the first of them where there are several, and its squared distance. */
  method AssignNearest(data: seq<Vec>, d: nat, centers: seq<Vec>) returns (a: seq<nat>, dist: seq<real>)
    requires Shape(data, d) && Shape(centers, d) && centers != []
    ensures AllNearest(data, d, centers, a, dist)
    ensures Nearest(data, d, centers, a)
    ensures |dist| == |data| && forall i | 0 <= i < |data| :: dist[i] == Dist2(data[i], centers[a[i]])
  {
    a, dist := [], [];
    for i := 0 to |data|
      invariant |a| == |dist| == i && forall x | 0 <= x < i :: NearestOf(data[x], centers, a[x], dist[x])
    {
      var j, m := NearestCentre(data[i], d, centers);
      a, dist := a + [j], dist + [m];
    }
  }

  /** One row of the matrix of squared distances. */
  method Row(x: Vec, d: nat, centers: seq<Vec>) returns (row: seq<real>)
    requires |x| == d && Shape(centers, d)
    ensures |row| == |centers| && forall c | 0 <= c < |centers| :: row[c] == Dist2(x, centers[c])
  {
    row := [];
    for c := 0 to |centers|
      invariant |row| == c && forall j | 0 <= j < c :: row[j] == Dist2(x, centers[j])
    {
      ExpandedIsDist2(x, centers[c]);
      row := row + [Expanded(x, centers[c])];
    }
  }

  method SumOf(xs: seq<real>) returns (s: real)
    ensures s == Sum(xs)
  {
    s := 0.0;
    for i := 0 to |xs|
      invariant s == Sum(xs[..i])
    {
      assert xs[..i + 1][..i] == xs[..i];
      s := s + xs[i];
    }
    assert xs[..|xs|] == xs;
  }

  lemma {:induction false} InertiaIsTotal(data: seq<Vec>, d: nat, a: seq<nat>, centers: seq<Vec>, dist: seq<real>)
    requires Shape(data, d) && Shape(centers, d) && Assigned(a, |data|, |centers|)
    requires |dist| == |data| && forall i | 0 <= i < |data| :: dist[i] == Dist2(data[i], centers[a[i]])
    ensures Sum(dist) == Total(data, d, a, centers)
    decreases |data|
  {
    if data != [] {
      var n := |data| - 1;
      InertiaIsTotal(data[..n], d, a[..n], centers, dist[..n]);
    }
  }

  // --------------------------------------------------------------- new centres

  function Plus(u: Vec, v: Vec): Vec
    requires |u| == |v|
  {
    seq(|u|, j requires 0 <= j < |u| => u[j] + v[j])
  }

  function Zero(d: nat): Vec {
    seq(d, j => 0.0)
  }

  function VecSum(points: seq<Vec>, d: nat): (r: Vec)
    requires Shape(points, d)
    ensures |r| == d
    decreases |points|
  {
    if points == [] then Zero(d) else Plus(VecSum(points[..|points| - 1], d), points[|points| - 1])
  }

  lemma {:induction false} SumByColumn(points: seq<Vec>, d: nat, j: nat)
    requires Shape(points, d) && j < d
    ensures VecSum(points, d)[j] == Sum(Column(points, d, j))
    decreases |points|
  {
    if points != [] {
      SumByColumn(points[..|points| - 1], d, j);
      ColumnInit(points, d, j);
    }
  }

  /** Sums and counts of the points assigned to each centre. */
  method Accumulate(data: seq<Vec>, d: nat, a: seq<nat>, k: nat) returns (sums: seq<Vec>, counts: seq<nat>)
    requires Shape(data, d) && Assigned(a, |data|, k)
    ensures |sums| == |counts| == k
    ensures forall c: nat | c < k :: sums[c] == VecSum(Cluster(data, a, c), d) && counts[c] == |Cluster(data, a, c)|
  {
    sums, counts := seq(k, c => Zero(d)), seq(k, c => 0);
    for i := 0 to |data|
      invariant |sums| == |counts| == k
      invariant forall c: nat | c < k :: sums[c] == VecSum(Cluster(data[..i], a[..i], c), d) && counts[c] == |Cluster(data[..i], a[..i], c)|
    {
      ClusterSnoc(data, d, a, i);
      var c := a[i];
      sums := sums[c := Plus(sums[c], data[i])];
      counts := counts[c := counts[c] + 1];
    }
    assert data[..|data|] == data && a[..|a|] == a;
  }

  lemma ClusterSnoc(data: seq<Vec>, d: nat, a: seq<nat>, i: nat)
    requires Shape(data, d) && |a| == |data| && i < |data|
    ensures forall c: nat :: Cluster(data[..i + 1], a[..i + 1], c) ==
                             if a[i] == c then Cluster(data[..i], a[..i], c) + [data[i]] else Cluster(data[..i], a[..i], c)
    ensures
      var points := Cluster(data[..i], a[..i], a[i]);
      VecSum(points + [data[i]], d) == Plus(VecSum(points, d), data[i])
  {
    assert data[..i + 1][..i] == data[..i] && a[..i + 1][..i] == a[..i];
    var points := Cluster(data[..i], a[..i], a[i]);
    assert (points + [data[i]])[..|points|] == points;
  }

  lemma DivideBack(s: real, n: real)
    requires n != 0.0
    ensures (s / n) * n == s
  {}

  lemma MeanIn(points: seq<Vec>, d: nat, m: Vec, n: nat, j: nat)
    requires Shape(points, d) && j < d <= |m| && n == |points| > 0 && m[j] == VecSum(points, d)[j] / n as real
    ensures MeanAt(points, d, m, j)
  {
    SumByColumn(points, d, j);
    DivideBack(VecSum(points, d)[j], n as real);
  }

  /** Sums divided by counts are means. */
  method Mean(sum: Vec, n: nat, ghost points: seq<Vec>, ghost d: nat) returns (m: Vec)
    requires n > 0 && Shape(points, d) && sum == VecSum(points, d) && n == |points|
    ensures IsMean(points, d, m)
  {
    m := [];
    for j := 0 to |sum|
      invariant |m| == j && forall i | 0 <= i < j :: m[i] == sum[i] / n as real
    {
      m := m + [sum[j] / n as real];
    }
    forall j: nat | j < d ensures MeanAt(points, d, m, j) {
      MeanIn(points, d, m, n, j);
    }
  }

  // ------------------------------------------------------------ empty clusters

  /** `w` are distinct points, the worst represented first, and none better represented than a point left out. */
  predicate Worst(dist: seq<real>, w: seq<nat>) {
    && (forall i, j | 0 <= i < j < |w| :: w[i] != w[j])
    && (forall i | 0 <= i < |w| :: w[i] < |dist|)
    && (forall i <- w :: forall j: nat | j < |dist| && j !in w :: dist[j] <= dist[i])
    && forall i, j | 0 <= i < j < |w| :: dist[w[j]] <= dist[w[i]]
  }

  /** The furthest of the points not picked yet. */
  method NextWorst(dist: seq<real>, w: seq<nat>) returns (x: nat)
    requires exists i: nat :: i < |dist| && i !in w
    ensures x < |dist| && x !in w && forall j: nat | j < |dist| && j !in w :: dist[j] <= dist[x]
  {
    var best: Option<nat> := None;
    for i := 0 to |dist|
      invariant best.Some? ==> best.value < i && best.value !in w && forall j: nat | j < i && j !in w :: dist[j] <= dist[best.value]
      invariant best.None? ==> forall j: nat | j < i :: j in w
    {
      if i !in w && (best.None? || dist[i] > dist[best.value]) {
        best := Some(i);
      }
    }
    x := best.value;
  }

  function Range(n: nat): (r: set<nat>)
    ensures |r| == n && forall i: nat :: i in r <==> i < n
  {
    if n == 0 then {} else Range(n - 1) + {n - 1}
  }

  function Used(w: seq<nat>): (r: set<nat>)
    ensures |r| <= |w| && forall i :: i in r <==> i in w
  {
    if w == [] then {} else Used(w[..|w| - 1]) + {w[|w| - 1]}
  }

  lemma SubsetSize(a: set<nat>, b: set<nat>)
    requires a <= b
    ensures |a| <= |b|
  {
    assert b == a + (b - a);
  }

  lemma SomeLeft(n: nat, w: seq<nat>)
    requires |w| < n
    ensures exists i: nat :: i < n && i !in w
  {
    if Range(n) <= Used(w) {
      SubsetSize(Range(n), Used(w));
      assert false;
    }
    var i :| i in Range(n) && i !in Used(w);
    assert i < n && i !in w;
  }

  method PickWorst(dist: seq<real>, count: nat) returns (w: seq<nat>)
    requires count <= |dist|
    ensures |w| == count && Worst(dist, w)
  {
    w := [];
    while |w| < count
      invariant |w| <= count && Worst(dist, w)
    {
      SomeLeft(|dist|, w);
      var x := NextWorst(dist, w);
      w := w + [x];
    }
  }

  method CountEmpty(counts: seq<nat>) returns (e: nat)
    ensures e <= |counts|
    ensures e == Empties(counts)
  {
    e := 0;
    for c := 0 to |counts|
      invariant e <= c && e == Empties(counts[..c])
    {
      assert counts[..c + 1][..c] == counts[..c];
      if counts[c] == 0 {
        e := e + 1;
      }
    }
    assert counts[..|counts|] == counts;
  }

  function Empties(counts: seq<nat>): nat {
    if counts == [] then 0 else Empties(counts[..|counts| - 1]) + if counts[|counts| - 1] == 0 then 1 else 0
  }

  /** There is a point left for every empty cluster. */
  lemma {:induction false} EnoughPoints(counts: seq<nat>, c: nat, j: nat)
    requires c < j <= |counts| && counts[c] == 0
    ensures Empties(counts[..c]) < Empties(counts[..j])
    decreases j
  {
    assert counts[..j][..j - 1] == counts[..j - 1];
    if c < j - 1 {
      EnoughPoints(counts, c, j - 1);
    }
  }

  lemma EmptiesStep(counts: seq<nat>, c: nat)
    requires c < |counts|
    ensures Empties(counts[..c + 1]) == Empties(counts[..c]) + if counts[c] == 0 then 1 else 0
    ensures counts[c] == 0 ==> Empties(counts[..c]) < Empties(counts)
  {
    assert counts[..c + 1][..c] == counts[..c] && counts[..|counts|] == counts;
    if counts[c] == 0 { EnoughPoints(counts, c, |counts|); }
  }

  /** How many clusters before `c` are empty. */
  function EmptyBefore(data: seq<Vec>, a: seq<nat>, c: nat): nat
    requires |a| == |data|
  {
    if c == 0 then 0 else EmptyBefore(data, a, c - 1) + if Cluster(data, a, c - 1) == [] then 1 else 0
  }

  /** What a centre is replaced by: the mean of its cluster or, if that is empty, the next of the points `w`. */
  predicate Replaced(data: seq<Vec>, d: nat, a: seq<nat>, w: seq<nat>, c: nat, x: Vec)
    requires Shape(data, d) && |a| == |data| && forall i <- w :: i < |data|
  {
    var points := Cluster(data, a, c);
    |x| == d &&
    if points == [] then EmptyBefore(data, a, c) < |w| && w[EmptyBefore(data, a, c)] in w && x == data[w[EmptyBefore(data, a, c)]]
    else IsMean(points, d, x)
  }

  lemma {:induction false} EmptiesBefore(data: seq<Vec>, a: seq<nat>, counts: seq<nat>, c: nat)
    requires |a| == |data| && c <= |counts| && forall x: nat | x < |counts| :: counts[x] == |Cluster(data, a, x)|
    ensures Empties(counts[..c]) == EmptyBefore(data, a, c)
    decreases c
  {
    if c > 0 {
      EmptiesBefore(data, a, counts, c - 1);
      assert counts[..c][..c - 1] == counts[..c - 1];
    }
  }

  predicate AllReplaced(data: seq<Vec>, d: nat, a: seq<nat>, w: seq<nat>, next: seq<Vec>)
    requires Shape(data, d) && |a| == |data| && forall i <- w :: i < |data|
  {
    forall c: nat | c < |next| :: Replaced(data, d, a, w, c, next[c])
  }

  lemma AllReplacedSnoc(data: seq<Vec>, d: nat, a: seq<nat>, w: seq<nat>, next: seq<Vec>, x: Vec)
    requires Shape(data, d) && |a| == |data| && forall i <- w :: i < |data|
    requires AllReplaced(data, d, a, w, next) && Replaced(data, d, a, w, |next|, x)
    ensures AllReplaced(data, d, a, w, next + [x])
  {
    forall c: nat | c < |next + [x]| ensures Replaced(data, d, a, w, c, (next + [x])[c]) {
      if c < |next| {
        assert Replaced(data, d, a, w, c, next[c]);
      }
    }
  }

  /** The mean of a cluster with points; the next of the worst-represented points for an empty one. */
  method NewCentre(data: seq<Vec>, d: nat, ghost a: seq<nat>, w: seq<nat>, ghost c: nat, sum: Vec, count: nat, used: nat) returns (x: Vec)
    requires Shape(data, d) && |a| == |data| && forall i <- w :: i < |data|
    requires sum == VecSum(Cluster(data, a, c), d) && count == |Cluster(data, a, c)|
    requires used == EmptyBefore(data, a, c) && (count == 0 ==> used < |w|)
    ensures Replaced(data, d, a, w, c, x)
  {
    if count > 0 {
      x := Mean(sum, count, Cluster(data, a, c), d);
    } else {
      assert w[used] in w;
      x := data[w[used]];
    }
  }

  /** Means for the clusters with points; the worst-represented points, in turn, for the others. */
  method Recentre(data: seq<Vec>, d: nat, a: seq<nat>, dist: seq<real>, centers: seq<Vec>) returns (next: seq<Vec>, ghost worst: seq<nat>)
    requires Shape(data, d) && Shape(centers, d) && Assigned(a, |data|, |centers|) && |dist| == |data| && |centers| <= |data|
    ensures Worst(dist, worst) && |worst| == EmptyBefore(data, a, |centers|)
    ensures |next| == |centers| && AllReplaced(data, d, a, worst, next)
  {
    var sums, counts := Accumulate(data, d, a, |centers|);
    EmptiesBefore(data, a, counts, |counts|);
    assert counts[..|counts|] == counts;
    var e := CountEmpty(counts);
    var w := PickWorst(dist, e);
    worst := w;
    next := Replace(data, d, a, w, sums, counts);
  }

  lemma NextEmpty(data: seq<Vec>, a: seq<nat>, counts: seq<nat>, c: nat)
    requires |a| == |data| && c < |counts| && forall x: nat | x < |counts| :: counts[x] == |Cluster(data, a, x)|
    ensures EmptyBefore(data, a, c + 1) == EmptyBefore(data, a, c) + if counts[c] == 0 then 1 else 0
    ensures counts[c] == 0 ==> EmptyBefore(data, a, c) < Empties(counts)
  {
    EmptiesStep(counts, c);
    EmptiesBefore(data, a, counts, c);
  }

  method Replace(data: seq<Vec>, d: nat, ghost a: seq<nat>, w: seq<nat>, sums: seq<Vec>, counts: seq<nat>) returns (next: seq<Vec>)
    requires Shape(data, d) && |a| == |data| && (forall i <- w :: i < |data|) && |w| == Empties(counts) && |sums| == |counts|
    requires forall c: nat | c < |counts| :: sums[c] == VecSum(Cluster(data, a, c), d)
    requires forall c: nat | c < |counts| :: counts[c] == |Cluster(data, a, c)|
    ensures |next| == |counts| && AllReplaced(data, d, a, w, next)
  {
    next := [];
    var used := 0;
    for c := 0 to |counts|
      invariant |next| == c && used == EmptyBefore(data, a, c)
      invariant AllReplaced(data, d, a, w, next)
    {
      NextEmpty(data, a, counts, c);
      var x := NewCentre(data, d, a, w, c, sums[c], counts[c], used);
      AllReplacedSnoc(data, d, a, w, next, x);
      next := next + [x];
      if counts[c] == 0 {
        used := used + 1;
      }
    }
  }

  lemma ReplacedUpdates(data: seq<Vec>, d: nat, a: seq<nat>, w: seq<nat>, centers: seq<Vec>, next: seq<Vec>)
    requires Shape(data, d) && Shape(centers, d) && Assigned(a, |data|, |centers|) && forall i <- w :: i < |data|
    requires |next| == |centers| && AllReplaced(data, d, a, w, next)
    ensures Update(data, d, a, centers, next)
  {
    forall c: nat | c < |centers|
      ensures |next[c]| == d
      ensures if Cluster(data, a, c) == [] then next[c] in data else IsMean(Cluster(data, a, c), d, next[c])
    {
      assert Replaced(data, d, a, w, c, next[c]);
    }
    forall x <- next ensures |x| == d {
      var c :| 0 <= c < |next| && next[c] == x;
      assert Replaced(data, d, a, w, c, next[c]);
    }
  }

  // ------------------------------------------------------------------ the loop

  function Abs(x: real): real {
    if x < 0.0 then -x else x
  }

  function MaxReal(x: real, y: real): real {
    if x < y then y else x
  }

  /**
   * Whether the loop stops.  `None` stands for the infinity that the previous inertia starts as: the
   * difference is then infinite, and so is the bound if the tolerance is positive.
   */
  predicate Converged(prev: Option<real>, inertia: real, tol: real) {
    match prev
    case None => tol > 0.0
    case Some(p) => Abs(p - inertia) <= tol * MaxReal(p, 1.0)
  }

  /** Without tolerance the loop goes on until an iteration leaves the inertia as it was. */
  lemma ConvergedExactly(prev: real, inertia: real)
    ensures Converged(Some(prev), inertia, 0.0) <==> inertia == prev
  {}

  /** No nearest assignment to `centers` costs more than `bound`. */
  ghost predicate CostsAtMost(data: seq<Vec>, d: nat, centers: seq<Vec>, bound: real)
    requires Shape(data, d) && Shape(centers, d)
  {
    forall b | Nearest(data, d, centers, b) :: Total(data, d, b, centers) <= bound
  }

  predicate Descending(xs: seq<real>) {
    forall i, j | 0 <= i < j < |xs| :: xs[j] <= xs[i]
  }

  /** One iteration, from the assignment to the new centres. */
  ghost predicate StepBy(data: seq<Vec>, d: nat, centers: seq<Vec>, inertia: real, next: seq<Vec>, a: seq<nat>, dist: seq<real>, worst: seq<nat>)
  {
    && Shape(data, d) && Shape(centers, d) && AllNearest(data, d, centers, a, dist) && inertia == Sum(dist)
    && Worst(dist, worst) && |worst| == EmptyBefore(data, a, |centers|)
    && |next| == |centers| && AllReplaced(data, d, a, worst, next)
  }

  ghost predicate LloydStep(data: seq<Vec>, d: nat, centers: seq<Vec>, inertia: real, next: seq<Vec>) {
    exists a: seq<nat>, dist: seq<real>, worst: seq<nat> :: StepBy(data, d, centers, inertia, next, a, dist, worst)
  }

  /** The loop stops after iteration `i`, if it gets there. */
  predicate StopsAt(inertias: seq<real>, tol: real, i: nat)
    requires i < |inertias|
  {
    Converged(if i == 0 then None else Some(inertias[i - 1]), inertias[i], tol)
  }

  /** The whole loop: the centres before and after each iteration, which ends at the first that stops it, or after `iters`. */
  ghost predicate Ran(data: seq<Vec>, d: nat, centers0: seq<Vec>, iters: nat, tol: real, path: seq<seq<Vec>>, inertias: seq<real>) {
    && Going(data, d, centers0, tol, path, inertias)
    && |inertias| <= iters && (|inertias| == iters || (inertias != [] && StopsAt(inertias, tol, |inertias| - 1)))
  }

  /** Each of these iterations leads from one list of centres to the next, and none but the last may stop the loop. */
  ghost predicate Going(data: seq<Vec>, d: nat, centers0: seq<Vec>, tol: real, path: seq<seq<Vec>>, inertias: seq<real>)
    decreases |inertias|
  {
    && |path| == |inertias| + 1 && path[0] == centers0
    && (inertias != [] ==>
          var n := |inertias| - 1;
          && Going(data, d, centers0, tol, path[..n + 1], inertias[..n])
          && LloydStep(data, d, path[n], inertias[n], path[n + 1])
          && (n > 0 ==> !StopsAt(inertias, tol, n - 1)))
  }

  lemma GoesOn(data: seq<Vec>, d: nat, centers0: seq<Vec>, tol: real, path: seq<seq<Vec>>, inertias: seq<real>,
               centers: seq<Vec>, inertia: real, next: seq<Vec>, a: seq<nat>, dist: seq<real>, worst: seq<nat>)
    requires Going(data, d, centers0, tol, path, inertias)
    requires inertias != [] ==> !StopsAt(inertias, tol, |inertias| - 1)
    requires centers == path[|path| - 1] && StepBy(data, d, centers, inertia, next, a, dist, worst)
    ensures Going(data, d, centers0, tol, path + [next], inertias + [inertia])
  {
    var n := |inertias|;
    assert LloydStep(data, d, centers, inertia, next);
    assert (path + [next])[..n + 1] == path && (inertias + [inertia])[..n] == inertias;
  }

  /** The first inertia is what the starting centres cost. */
  lemma {:induction false} FirstInertia(data: seq<Vec>, d: nat, centers0: seq<Vec>, tol: real, path: seq<seq<Vec>>, inertias: seq<real>)
    requires Shape(data, d) && Shape(centers0, d) && Going(data, d, centers0, tol, path, inertias) && inertias != []
    ensures exists a :: Nearest(data, d, centers0, a) && inertias[0] == Total(data, d, a, centers0)
    decreases |inertias|
  {
    if |inertias| > 1 {
      var n := |inertias| - 1;
      FirstInertia(data, d, centers0, tol, path[..n + 1], inertias[..n]);
    } else {
      var a: seq<nat>, dist: seq<real>, worst: seq<nat> :| StepBy(data, d, path[0], inertias[0], path[1], a, dist, worst);
      InertiaIsTotal(data, d, a, centers0, dist);
    }
  }

  lemma DescendingMore(xs: seq<real>, x: real)
    requires Descending(xs) && (xs != [] ==> x <= xs[|xs| - 1])
    ensures Descending(xs + [x])
  {}

  /** One iteration: the inertia of the old centres, and new centres that cost no more. */
  method Improve(data: seq<Vec>, d: nat, centers: seq<Vec>)
    returns (next: seq<Vec>, inertia: real, ghost a: seq<nat>, ghost dist: seq<real>, ghost worst: seq<nat>)
    requires Shape(data, d) && Shape(centers, d) && centers != [] && |centers| <= |data|
    ensures |next| == |centers| && Shape(next, d)
    ensures Nearest(data, d, centers, a) && inertia == Total(data, d, a, centers)
    ensures StepBy(data, d, centers, inertia, next, a, dist, worst)
    ensures CostsAtMost(data, d, next, inertia)
  {
    var b, nearest := AssignNearest(data, d, centers);
    a, dist := b, nearest;
    inertia := SumOf(nearest);
    InertiaIsTotal(data, d, a, centers, dist);
    next, worst := Recentre(data, d, b, nearest, centers);
    ReplacedUpdates(data, d, a, worst, centers, next);
    forall b | Nearest(data, d, next, b) ensures Total(data, d, b, next) <= inertia {
      LloydMonotone(data, d, centers, a, next, b);
    }
  }

  /** The previous inertia starts as infinity, so a positive tolerance stops the loop at once. */
  lemma RanLength(data: seq<Vec>, d: nat, centers0: seq<Vec>, iters: nat, tol: real, path: seq<seq<Vec>>, inertias: seq<real>)
    requires Ran(data, d, centers0, iters, tol, path, inertias)
    ensures iters > 0 && tol > 0.0 ==> |inertias| == 1
    ensures iters > 1 ==> (|inertias| > 1 <==> tol <= 0.0)
  {
    NoEarlyStop(data, d, centers0, tol, path, inertias);
    if inertias != [] {
      assert StopsAt(inertias, tol, 0) <==> tol > 0.0;
    }
  }

  lemma {:induction false} NoEarlyStop(data: seq<Vec>, d: nat, centers0: seq<Vec>, tol: real, path: seq<seq<Vec>>, inertias: seq<real>)
    requires Going(data, d, centers0, tol, path, inertias)
    ensures |inertias| > 1 ==> !StopsAt(inertias, tol, 0)
    decreases |inertias|
  {
    if |inertias| > 2 {
      var n := |inertias| - 1;
      NoEarlyStop(data, d, centers0, tol, path[..n + 1], inertias[..n]);
    }
  }

  /** What holds of the loop between iterations. */
  ghost predicate Looping(data: seq<Vec>, d: nat, centers0: seq<Vec>, tol: real, path: seq<seq<Vec>>, inertias: seq<real>, centers: seq<Vec>) {
    && |centers| == |centers0| && Shape(data, d) && Shape(centers, d) && Descending(inertias)
    && Going(data, d, centers0, tol, path, inertias) && centers == path[|path| - 1]
    && (inertias != [] ==> CostsAtMost(data, d, centers, inertias[|inertias| - 1]))
  }

  /** The next iteration, if none has stopped the loop. */
  method Advance(data: seq<Vec>, d: nat, ghost centers0: seq<Vec>, ghost tol: real, ghost path: seq<seq<Vec>>, ghost inertias: seq<real>, centers: seq<Vec>)
    returns (next: seq<Vec>, inertia: real)
    requires centers != [] && |centers| <= |data| && Looping(data, d, centers0, tol, path, inertias, centers)
    requires inertias != [] ==> !StopsAt(inertias, tol, |inertias| - 1)
    ensures Looping(data, d, centers0, tol, path + [next], inertias + [inertia], next)
  {
    ghost var a, dist, worst;
    next, inertia, a, dist, worst := Improve(data, d, centers);
    DescendingMore(inertias, inertia);
    GoesOn(data, d, centers0, tol, path, inertias, centers, inertia, next, a, dist, worst);
  }

  method Loop(data: seq<Vec>, d: nat, centers0: seq<Vec>, iters: nat, tol: real)
    returns (centers: seq<Vec>, ghost path: seq<seq<Vec>>, ghost inertias: seq<real>)
    requires Shape(data, d) && Shape(centers0, d) && centers0 != [] && |centers0| <= |data|
    ensures Looping(data, d, centers0, tol, path, inertias, centers) && Ran(data, d, centers0, iters, tol, path, inertias)
  {
    centers, path, inertias := centers0, [centers0], [];
    var prev: Option<real> := None;
    var t := 0;
    while t < iters
      invariant t <= iters && |inertias| == t && Looping(data, d, centers0, tol, path, inertias, centers)
      invariant prev == if t == 0 then None else Some(inertias[t - 1])
      invariant t > 0 ==> !StopsAt(inertias, tol, t - 1)
    {
      var next, inertia := Advance(data, d, centers0, tol, path, inertias, centers);
      centers := next;
      path, inertias := path + [next], inertias + [inertia];
      if Converged(prev, inertia, tol) {
        break;
      }
      prev := Some(inertia);
      t := t + 1;
    }
  }

  /**
   * Lloyd's loop: `path` are the centres it goes through and `inertias` what each costs.  Inertia never
   * increases from one iteration to the next, and the centres that are returned cost no more than the
   * last.  With a positive tolerance the loop always stops after its first iteration; with none it
   * goes on.
   */
  method Iterate(data: seq<Vec>, d: nat, centers0: seq<Vec>, iters: nat, tol: real)
    returns (centers: seq<Vec>, ghost path: seq<seq<Vec>>, ghost inertias: seq<real>)
    requires Shape(data, d) && Shape(centers0, d) && centers0 != [] && |centers0| <= |data|
    ensures |centers| == |centers0| && Shape(centers, d)
    ensures Ran(data, d, centers0, iters, tol, path, inertias) && centers == path[|path| - 1]
    ensures Descending(inertias)
    ensures inertias != [] ==> CostsAtMost(data, d, centers, inertias[|inertias| - 1])
    ensures iters == 0 ==> inertias == [] && centers == centers0
    ensures iters > 0 ==> inertias != [] && exists a :: Nearest(data, d, centers0, a) && inertias[0] == Total(data, d, a, centers0)
    ensures iters > 0 && tol > 0.0 ==> |inertias| == 1
    ensures iters > 1 ==> (|inertias| > 1 <==> tol <= 0.0)
  {
    centers, path, inertias := Loop(data, d, centers0, iters, tol);
    RanLength(data, d, centers0, iters, tol, path, inertias);
    if inertias != [] {
      FirstInertia(data, d, centers0, tol, path, inertias);
    }
  }

  /**
   * What k-means promises of its centres: with no more points than centres they are the points, the last
   * one repeated; otherwise they are where Lloyd's loop ends from the starting centres `seeds`, and cost
   * no more than these.
   */
  ghost predicate FitFor(data: seq<Vec>, d: nat, k: nat, seeds: seq<Vec>, iters: nat, tol: real, centers: seq<Vec>)
    requires Shape(data, d) && Shape(seeds, d) && |seeds| == k && data != []
  {
    && |centers| == k && Shape(centers, d)
    && (|data| <= k ==> centers[..|data|] == data && forall i | |data| <= i < k :: centers[i] == data[|data| - 1])
    && (|data| > k ==>
          && (exists path, inertias :: Ran(data, d, seeds, iters, tol, path, inertias) && centers == path[|path| - 1])
          && forall a | Nearest(data, d, seeds, a) :: CostsAtMost(data, d, centers, Total(data, d, a, seeds)))
  }

  /**
   * The whole of k-means.  `seeds` are the starting centres, drawn at random from the data.  There is
   * no result without data.
   */
  method Train(data: seq<Vec>, d: nat, k: nat, seeds: seq<Vec>, iters: nat, tol: real) returns (centers: Option<seq<Vec>>)
    requires k > 0 && Shape(data, d) && |seeds| == k && Shape(seeds, d)
    ensures centers.None? <==> data == []
    ensures centers.Some? ==> FitFor(data, d, k, seeds, iters, tol, centers.value)
  {
    if data == [] {
      return None;
    }
    if |data| <= k {
      return Some(data + seq(k - |data|, i => data[|data| - 1]));
    }
    var found, path, inertias := Iterate(data, d, seeds, iters, tol);
    centers := Some(found);
    forall a | Nearest(data, d, seeds, a) ensures CostsAtMost(data, d, found, Total(data, d, a, seeds)) {
      if iters > 0 {
        var b :| Nearest(data, d, seeds, b) && inertias[0] == Total(data, d, b, seeds);
        NearestCostsLeast(data, d, seeds, b, a);
        assert inertias[|inertias| - 1] <= inertias[0];
      } else {
        forall b | Nearest(data, d, found, b) ensures Total(data, d, b, found) <= Total(data, d, a, seeds) {
          NearestCostsLeast(data, d, seeds, b, a);
        }
      }
    }
  }
}
