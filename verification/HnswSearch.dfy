/** What a search returns, greedy descent and the choice of neighbours (index/hnsw.py). */
module HnswSearch {
  import opened HnswBeam

  // --------------------------------------------------------------- theorems

  /**
   * Best of visited: for every graph, filter and `ef`, exactly min(ef, acceptable visited nodes)
   * distinct results, each with its true distance, and no acceptable visited node that is left out
   * is closer than any result.
   */
  lemma BestOfVisited(dist: Key -> real, ok: Key -> bool, ef: nat, visited: set<Key>, results: set<Near>)
    requires BestOf(dist, ok, ef, visited, results)
    ensures |results| == if |Accepted(dist, ok, visited)| < ef then |Accepted(dist, ok, visited)| else ef
    ensures forall x, y | x in results && y in results && x.k == y.k :: x == y
    ensures forall x <- results :: x.k in visited && ok(x.k) && x.d == dist(x.k)
    ensures forall n <- visited | ok(n) && (forall x <- results :: x.k != n) :: forall x <- results :: x.d <= dist(n)
  {
    BestOfSize(dist, ok, ef, visited, results);
    forall n <- visited | ok(n) && (forall x <- results :: x.k != n) ensures forall x <- results :: x.d <= dist(n) {
      assert Near(dist(n), n) in Accepted(dist, ok, visited) - results;
    }
  }

  lemma AcceptedWithin(dist: Key -> real, ok: Key -> bool, s: set<Key>, t: set<Key>)
    requires s <= t
    ensures Accepted(dist, ok, s) <= Accepted(dist, ok, t)
  {}

  /**
   * Exhaustive beam: if at most `ef` acceptable nodes can be reached from the entry points, the
   * results are exactly those, in spite of the early stop and the skipped nodes.
   */
  lemma Exhaustive(layer: Layer, dist: Key -> real, ok: Key -> bool, ef: nat, start: set<Key>, visited: set<Key>, results: set<Near>)
    requires BestOf(dist, ok, ef, visited, results) && start <= visited <= Reach(layer, start)
    requires |results| == ef || Closed(layer, visited)
    requires |Accepted(dist, ok, Reach(layer, start))| <= ef
    ensures results == Accepted(dist, ok, Reach(layer, start))
  {
    var all := Reach(layer, start);
    AcceptedWithin(dist, ok, visited, all);
    if |results| == ef {
      Smaller(results, Accepted(dist, ok, all));
    } else {
      ClosedHoldsReach(layer, start, visited);
      assert Accepted(dist, ok, visited) - results == {};
    }
  }

  /** The `k` nearest of `all`, in order: what comparing with every one of them would give. */
  predicate Knn(s: seq<Near>, all: set<Near>, k: nat) {
    && Ascending(s)
    && (forall x <- s :: x in all)
    && |s| == (if |all| < k then |all| else k)
    && forall x <- all :: x in s || forall y <- s :: Before(y, x)
  }

  function Items(s: seq<Near>): set<Near> {
    set x | x in s
  }

  lemma {:induction false} AscendingCount(s: seq<Near>)
    requires Ascending(s)
    ensures |Items(s)| == |s|
    decreases |s|
  {
    if s != [] {
      var init := s[..|s| - 1];
      AscendingCount(init);
      assert Items(s) == Items(init) + {s[|s| - 1]};
      assert s[|s| - 1] !in init;
    }
  }

  /** What one such list holds, any other holds. */
  lemma KnnWithin(s: seq<Near>, t: seq<Near>, all: set<Near>, k: nat, x: Near)
    requires Knn(s, all, k) && Knn(t, all, k) && x in s
    ensures x in t
  {
    if x !in t {
      AscendingCount(s);
      AscendingCount(t);
      assert x in Items(s) - Items(t);
      if Items(t) <= Items(s) {
        Smaller(Items(t), Items(s));
      }
      assert false;
    }
  }

  /** There is only one such list. */
  lemma KnnUnique(s: seq<Near>, t: seq<Near>, all: set<Near>, k: nat)
    requires Knn(s, all, k) && Knn(t, all, k)
    ensures s == t
  {
    forall x ensures x in s <==> x in t {
      if x in s { KnnWithin(s, t, all, k, x); }
      if x in t { KnnWithin(t, s, all, k, x); }
    }
    SameItems(s, t);
  }

  lemma LastIsGreatest(s: seq<Near>, x: Near)
    requires Ascending(s) && s != [] && x in s
    ensures x == s[|s| - 1] || Before(x, s[|s| - 1])
  {}

  lemma ItemsInit(s: seq<Near>)
    requires Ascending(s) && s != []
    ensures Items(s[..|s| - 1]) == Items(s) - {s[|s| - 1]} && Ascending(s[..|s| - 1])
  {
    assert s == s[..|s| - 1] + [s[|s| - 1]];
  }

  lemma {:induction false} SameItems(s: seq<Near>, t: seq<Near>)
    requires Ascending(s) && Ascending(t) && Items(s) == Items(t) && |s| == |t|
    ensures s == t
    decreases |s|
  {
    if s != [] {
      var n := |s| - 1;
      assert s[n] in Items(s) && t[n] in Items(t);
      LastIsGreatest(s, t[n]);
      LastIsGreatest(t, s[n]);
      ItemsInit(s);
      ItemsInit(t);
      SameItems(s[..n], t[..n]);
      assert s == s[..n] + [s[n]] && t == t[..n] + [t[n]];
    }
  }

  /** The first `k` of all in ascending order are the `k` nearest. */
  lemma TakeIsKnn(s: seq<Near>, all: set<Near>, k: nat)
    requires Ascending(s) && |s| == |all| && forall x :: x in s <==> x in all
    ensures Knn(if |s| < k then s else s[..k], all, k)
  {
    if |s| >= k {
      forall x <- all ensures x in s[..k] || forall y <- s[..k] :: Before(y, x) {
        var i :| 0 <= i < |s| && s[i] == x;
      }
    }
  }

  /** The first `k` of the best `ef` are the best `k`. */
  lemma TakeBest(dist: Key -> real, ok: Key -> bool, ef: nat, visited: set<Key>, results: set<Near>, s: seq<Near>, k: nat)
    requires BestOf(dist, ok, ef, visited, results) && k <= ef && Knn(s, results, k)
    ensures BestOf(dist, ok, k, visited, Items(s))
  {
    AscendingCount(s);
    forall x <- Accepted(dist, ok, visited) - Items(s) ensures |s| == k && forall y <- Items(s) :: y.d <= x.d {
      if x in results {
        Smaller(Items(s), results);
        assert x !in s;
      }
    }
  }

  // ---------------------------------------------------------- greedy descent

  /** The first of the nearest. */
  method ArgMin(dist: Key -> real, nbs: seq<Key>) returns (j: nat)
    requires nbs != []
    ensures j < |nbs| && forall i | 0 <= i < |nbs| :: dist(nbs[j]) <= dist(nbs[i])
    ensures forall i | 0 <= i < j :: dist(nbs[j]) < dist(nbs[i])
  {
    j := 0;
    for i := 1 to |nbs|
      invariant j < i && forall x | 0 <= x < i :: dist(nbs[j]) <= dist(nbs[x])
      invariant forall x | 0 <= x < j :: dist(nbs[j]) < dist(nbs[x])
    {
      if dist(nbs[i]) < dist(nbs[j]) {
        j := i;
      }
    }
  }

  ghost function CloserNodes(layer: Layer, dist: Key -> real, d: real): set<Key> {
    set n | n in Nodes(layer) && dist(n) < d
  }

  /** `m` is the first of the nearest neighbours of `n`, and closer. */
  ghost predicate Steepest(layer: Layer, dist: Key -> real, n: Key, m: Key) {
    var nbs := Links(layer, n);
    dist(m) < dist(n) && exists j: nat | j < |nbs| ::
      && nbs[j] == m && (forall i | 0 <= i < |nbs| :: dist(m) <= dist(nbs[i])) && forall i | 0 <= i < j :: dist(m) < dist(nbs[i])
  }

  /** A local minimum. */
  predicate Bottom(layer: Layer, dist: Key -> real, n: Key) {
    forall m <- Links(layer, n) :: dist(n) <= dist(m)
  }

  ghost predicate Descent(layer: Layer, dist: Key -> real, p: seq<Key>)
    decreases |p|
  {
    p != [] && (|p| > 1 ==> Steepest(layer, dist, p[|p| - 2], p[|p| - 1]) && Descent(layer, dist, p[..|p| - 1]))
  }

  /** The steepest descent from one node ends at the other. */
  ghost predicate Descends(layer: Layer, dist: Key -> real, from: Key, to: Key) {
    Bottom(layer, dist, to) && exists p :: Descent(layer, dist, p) && p[0] == from && p[|p| - 1] == to
  }

  lemma SteepestUnique(layer: Layer, dist: Key -> real, n: Key, m: Key, k: Key)
    requires Steepest(layer, dist, n, m) && Steepest(layer, dist, n, k)
    ensures m == k
  {}

  /** Two descents from the same node go the same way, as far as the shorter goes. */
  lemma {:induction false} DescentPrefix(layer: Layer, dist: Key -> real, p: seq<Key>, q: seq<Key>)
    requires Descent(layer, dist, p) && Descent(layer, dist, q) && p[0] == q[0] && |p| <= |q|
    ensures p == q[..|p|]
    decreases |p| + |q|
  {
    if |p| < |q| {
      DescentPrefix(layer, dist, p, q[..|q| - 1]);
      assert q[..|q| - 1][..|p|] == q[..|p|];
    } else if |p| > 1 {
      var n := |p| - 1;
      DescentPrefix(layer, dist, p[..n], q[..n]);
      assert p[..n][n - 1] == q[..n][n - 1];
      SteepestUnique(layer, dist, p[n - 1], p[n], q[n]);
      assert p == p[..n] + [p[n]] && q == q[..n] + [q[n]];
    }
  }

  lemma {:induction false} DescentStep(layer: Layer, dist: Key -> real, q: seq<Key>, i: nat)
    requires Descent(layer, dist, q) && i + 1 < |q|
    ensures Steepest(layer, dist, q[i], q[i + 1])
    decreases |q|
  {
    if i + 2 < |q| {
      DescentStep(layer, dist, q[..|q| - 1], i);
    }
  }

  /** So there is only one node where it can end. */
  lemma DescendsUnique(layer: Layer, dist: Key -> real, from: Key, a: Key, b: Key)
    requires Descends(layer, dist, from, a) && Descends(layer, dist, from, b)
    ensures a == b
  {
    var p :| Descent(layer, dist, p) && p[0] == from && p[|p| - 1] == a;
    var q :| Descent(layer, dist, q) && q[0] == from && q[|q| - 1] == b;
    if |p| <= |q| { OneEnd(layer, dist, p, q); } else { OneEnd(layer, dist, q, p); }
  }

  lemma OneEnd(layer: Layer, dist: Key -> real, p: seq<Key>, q: seq<Key>)
    requires Descent(layer, dist, p) && Descent(layer, dist, q) && p[0] == q[0] && |p| <= |q|
    requires Bottom(layer, dist, p[|p| - 1])
    ensures p == q
  {
    DescentPrefix(layer, dist, p, q);
    if |p| < |q| {
      DescentStep(layer, dist, q, |p| - 1);
      assert false;
    }
  }

  lemma DescentMore(layer: Layer, dist: Key -> real, p: seq<Key>, m: Key)
    requires Descent(layer, dist, p) && Steepest(layer, dist, p[|p| - 1], m)
    ensures Descent(layer, dist, p + [m])
  {
    assert (p + [m])[..|p|] == p;
  }

  /** Steepest descent: ends, at a node that is reachable, no further than the first, and none of whose neighbours is closer. */
  method GreedyDescend(layer: Layer, dist: Key -> real, ep0: Key) returns (ep: Key)
    ensures dist(ep) <= dist(ep0) && forall n <- Links(layer, ep) :: dist(ep) <= dist(n)
    ensures ep in Reach(layer, {ep0}) && Descends(layer, dist, ep0, ep)
  {
    ep := ep0;
    StartReached(layer, {ep0});
    var improved := true;
    ghost var path := [ep0];
    while improved
      invariant dist(ep) <= dist(ep0) && ep in Reach(layer, {ep0})
      invariant !improved ==> Bottom(layer, dist, ep)
      invariant Descent(layer, dist, path) && path[0] == ep0 && path[|path| - 1] == ep
      decreases |CloserNodes(layer, dist, dist(ep))|, improved
    {
      improved := false;
      var nbs := Links(layer, ep);
      if nbs == [] {
        break;
      }
      var j := ArgMin(dist, nbs);
      if dist(nbs[j]) < dist(ep) {
        ReachStep(layer, {ep0}, ep, nbs[j]);
        LinkIsNode(layer, ep, nbs[j]);
        ghost var a, b := CloserNodes(layer, dist, dist(nbs[j])), CloserNodes(layer, dist, dist(ep));
        assert nbs[j] in b && nbs[j] !in a;
        Smaller(a, b);
        assert Steepest(layer, dist, ep, nbs[j]);
        DescentMore(layer, dist, path, nbs[j]);
        path := path + [nbs[j]];
        ep := nbs[j];
        improved := true;
      }
    }
  }

  // --------------------------------------------------- choice of neighbours

  function At(dist: Key -> real, c: Key): Near {
    Near(dist(c), c)
  }

  /** Not closer to one of `chosen` than to the base. */
  predicate Apart(pair: (Key, Key) -> real, dist: Key -> real, chosen: seq<Key>, c: Key) {
    forall s <- chosen :: pair(c, s) >= dist(c)
  }

  /** Some chosen neighbour that is nearer to the base is closer to `c` than the base is. */
  predicate Shadowed(pair: (Key, Key) -> real, dist: Key -> real, chosen: seq<Key>, c: Key) {
    exists s <- chosen :: Before(At(dist, s), At(dist, c)) && pair(c, s) < dist(c)
  }

  /**
   * The choice of neighbours that point in different directions: nearest first, a candidate is kept
   * exactly if no nearer neighbour that is kept shadows it, until there are `m`.
   */
  predicate Greedy(pair: (Key, Key) -> real, dist: Key -> real, pool: set<Key>, m: nat, kept: seq<Key>) {
    && Sorted(dist, kept) && |kept| <= m && (forall c <- kept :: c in pool && !Shadowed(pair, dist, kept, c))
    && forall c <- pool | c !in kept ::
         Shadowed(pair, dist, kept, c) || (|kept| == m && forall s <- kept :: Before(At(dist, s), At(dist, c)))
  }

  /** Some candidates in order, and nothing left out of `pool` is nearer than any of them. */
  predicate NearestOf(dist: Key -> real, pool: set<Key>, s: seq<Key>) {
    && Sorted(dist, s) && (forall c <- s :: c in pool)
    && forall c <- pool | c !in s :: forall x <- s :: Before(At(dist, x), At(dist, c))
  }

  /** What is promised of the choice of at most `m` neighbours out of `pool`: the diverse ones, and then the nearest of the rest. */
  ghost predicate Selection(pair: (Key, Key) -> real, dist: Key -> real, pool: set<Key>, m: nat, selected: seq<Key>) {
    && Distinct(selected) && (forall c <- selected :: c in pool)
    && |selected| == (if |pool| < m then |pool| else m)
    // the nearest comes first
    && (selected != [] ==> forall c <- pool :: c == selected[0] || Before(At(dist, selected[0]), At(dist, c)))
    && exists kept: nat :: kept <= |selected| && KeptFirst(pair, dist, pool, m, selected, kept)
  }

  predicate KeptFirst(pair: (Key, Key) -> real, dist: Key -> real, pool: set<Key>, m: nat, selected: seq<Key>, kept: nat)
    requires kept <= |selected|
  {
    && Greedy(pair, dist, pool, m, selected[..kept])
    && NearestOf(dist, pool - Elements(selected[..kept]), selected[kept..])
  }

  predicate Sorted(dist: Key -> real, s: seq<Key>) {
    forall i, j | 0 <= i < j < |s| :: Before(At(dist, s[i]), At(dist, s[j]))
  }

  method SortKeys(dist: Key -> real, pool: set<Key>) returns (s: seq<Key>)
    ensures Sorted(dist, s) && |s| == |pool| && forall k :: k in s <==> k in pool
  {
    s := [];
    var rest := pool;
    while rest != {}
      invariant rest <= pool && |s| + |rest| == |pool| && Sorted(dist, s)
      invariant forall k :: k in s <==> k in pool && k !in rest
      invariant forall a, b | a in s && b in rest :: Before(At(dist, a), At(dist, b))
      decreases |rest|
    {
      ghost var one :| one in rest;
      assert Near(dist(one), one) in Measured(dist, rest);
      var x := Nearest(Measured(dist, rest));
      assert forall b <- rest :: Near(dist(b), b) in Measured(dist, rest);
      s, rest := s + [x.k], rest - {x.k};
    }
  }

  method IsApart(pair: (Key, Key) -> real, dist: Key -> real, chosen: seq<Key>, c: Key) returns (keep: bool)
    ensures keep <==> Apart(pair, dist, chosen, c)
  {
    for i := 0 to |chosen|
      invariant forall s <- chosen[..i] :: pair(c, s) >= dist(c)
    {
      if pair(c, chosen[i]) < dist(c) {
        return false;
      }
    }
    assert chosen[..|chosen|] == chosen;
    return true;
  }

  lemma SortedDistinct(dist: Key -> real, s: seq<Key>, i: nat)
    requires Sorted(dist, s) && i < |s|
    ensures s[i] !in s[..i]
  {}

  /** The first `i` candidates have been kept or discarded. */
  predicate Sieving(pair: (Key, Key) -> real, dist: Key -> real, pool: seq<Key>, i: nat, kept: seq<Key>, discarded: seq<Key>) {
    && i <= |pool| && |kept| + |discarded| == i
    && Distinct(kept + discarded) && (forall c <- kept + discarded :: c in pool[..i]) && (forall c <- pool[..i] :: c in kept + discarded)
    && (i > 0 ==> kept != [] && kept[0] == pool[0])
    && Sorted(dist, kept) && Sorted(dist, discarded)
    && (forall c <- kept :: !Shadowed(pair, dist, kept, c)) && forall c <- discarded :: Shadowed(pair, dist, kept, c)
  }

  /** The next candidate is further than all before it. */
  lemma NextFurther(dist: Key -> real, pool: seq<Key>, i: nat, s: seq<Key>)
    requires Sorted(dist, pool) && i < |pool| && Sorted(dist, s) && forall c <- s :: c in pool[..i]
    ensures Sorted(dist, s + [pool[i]]) && forall c <- s :: Before(At(dist, c), At(dist, pool[i]))
  {
    forall c <- s ensures Before(At(dist, c), At(dist, pool[i])) {
      var j :| 0 <= j < i && pool[j] == c;
    }
  }

  /** For a candidate further than all chosen, shadowed means not apart. */
  lemma ShadowedIffNear(pair: (Key, Key) -> real, dist: Key -> real, chosen: seq<Key>, c: Key)
    requires forall s <- chosen :: Before(At(dist, s), At(dist, c))
    ensures Shadowed(pair, dist, chosen, c) <==> !Apart(pair, dist, chosen, c)
  {}

  /** A further neighbour shadows none that is nearer. */
  lemma ShadowSnoc(pair: (Key, Key) -> real, dist: Key -> real, chosen: seq<Key>, n: Key, c: Key)
    requires Before(At(dist, c), At(dist, n)) || c == n
    ensures Shadowed(pair, dist, chosen + [n], c) <==> Shadowed(pair, dist, chosen, c)
  {
    if Shadowed(pair, dist, chosen, c) {
      var s :| s in chosen && Before(At(dist, s), At(dist, c)) && pair(c, s) < dist(c);
      assert s in chosen + [n];
    }
  }

  lemma SieveKeep(pair: (Key, Key) -> real, dist: Key -> real, pool: seq<Key>, i: nat, kept: seq<Key>, discarded: seq<Key>)
    requires Sorted(dist, pool) && Sieving(pair, dist, pool, i, kept, discarded) && i < |pool| && Apart(pair, dist, kept, pool[i])
    ensures Sieving(pair, dist, pool, i + 1, kept + [pool[i]], discarded)
  {
    var n := pool[i];
    SortedDistinct(dist, pool, i);
    assert pool[..i + 1] == pool[..i] + [n];
    DistinctInsert(kept, discarded, n);
    assert forall c <- kept :: c in kept + discarded;
    assert forall c <- discarded :: c in kept + discarded;
    NextFurther(dist, pool, i, kept);
    NextFurther(dist, pool, i, discarded);
    ShadowedIffNear(pair, dist, kept, n);
    forall c | c in kept || c in discarded || c == n
      ensures Shadowed(pair, dist, kept + [n], c) <==> Shadowed(pair, dist, kept, c)
    {
      ShadowSnoc(pair, dist, kept, n, c);
    }
  }

  lemma SieveDiscard(pair: (Key, Key) -> real, dist: Key -> real, pool: seq<Key>, i: nat, kept: seq<Key>, discarded: seq<Key>)
    requires Sorted(dist, pool) && Sieving(pair, dist, pool, i, kept, discarded) && i < |pool| && !Apart(pair, dist, kept, pool[i])
    ensures Sieving(pair, dist, pool, i + 1, kept, discarded + [pool[i]])
  {
    var n := pool[i];
    SortedDistinct(dist, pool, i);
    assert pool[..i + 1] == pool[..i] + [n];
    DistinctInsert(kept + discarded, [], n);
    assert kept + (discarded + [n]) == kept + discarded + [n] + [];
    assert forall c <- kept :: c in kept + discarded;
    assert forall c <- discarded :: c in kept + discarded;
    NextFurther(dist, pool, i, kept);
    NextFurther(dist, pool, i, discarded);
    ShadowedIffNear(pair, dist, kept, n);
  }

  /** Goes through the candidates, nearest first, until `m` are kept. */
  method Sieve(pair: (Key, Key) -> real, dist: Key -> real, pool: seq<Key>, m: nat)
    returns (kept: seq<Key>, discarded: seq<Key>, ghost seen: nat)
    requires Sorted(dist, pool)
    ensures |kept| <= m && Sieving(pair, dist, pool, seen, kept, discarded) && (|kept| == m || seen == |pool|)
  {
    kept, discarded := [], [];
    var i := 0;
    while i < |pool| && |kept| < m
      invariant |kept| <= m && Sieving(pair, dist, pool, i, kept, discarded)
    {
      var keep := IsApart(pair, dist, kept, pool[i]);
      if keep {
        SieveKeep(pair, dist, pool, i, kept, discarded);
        kept := kept + [pool[i]];
      } else {
        SieveDiscard(pair, dist, pool, i, kept, discarded);
        discarded := discarded + [pool[i]];
      }
      i := i + 1;
    }
    seen := i;
  }

  lemma DistinctInsert(a: seq<Key>, b: seq<Key>, c: Key)
    requires Distinct(a + b) && c !in a + b
    ensures Distinct(a + [c] + b)
    ensures forall x :: x in a + [c] + b <==> x in a + b || x == c
  {
    var s, t := a + b, a + [c] + b;
    forall i, j | 0 <= i < j < |t| ensures t[i] != t[j] {
      var i2, j2 := if i < |a| then i else i - 1, if j < |a| then j else j - 1;
      if i != |a| && j != |a| {
        assert s[i2] == t[i] && s[j2] == t[j];
      } else if i == |a| {
        assert s[j2] == t[j];
      } else {
        assert s[i2] == t[i];
      }
    }
    forall x ensures x in t <==> x in s || x == c {
      if x in s {
        var i :| 0 <= i < |s| && s[i] == x;
        assert t[if i < |a| then i else i + 1] == x;
      }
      if x in t {
        var i :| 0 <= i < |t| && t[i] == x;
        if i != |a| { assert s[if i < |a| then i else i - 1] == x; }
      }
      assert t[|a|] == c;
    }
  }

  method SelectNeighbors(pair: (Key, Key) -> real, dist: Key -> real, base: Key, candidates: set<Key>, m: nat)
    returns (selected: seq<Key>)
    ensures Selection(pair, dist, candidates - {base}, m, selected)
  {
    var pool := SortKeys(dist, candidates - {base});
    var kept, discarded;
    ghost var seen;
    kept, discarded, seen := Sieve(pair, dist, pool, m);
    selected := kept;
    var j := 0;
    while j < |discarded| && |selected| < m
      invariant j <= |discarded| && |selected| <= m && selected == kept + discarded[..j]
    {
      selected := selected + [discarded[j]];
      j := j + 1;
    }
    Chosen(pair, dist, candidates - {base}, pool, m, kept, discarded, seen, j);
  }

  /** The candidates, sorted. */
  ghost predicate Pooled(dist: Key -> real, pool: set<Key>, sorted: seq<Key>) {
    Sorted(dist, sorted) && |sorted| == |pool| && forall k :: k in sorted <==> k in pool
  }

  lemma KeptGreedy(pair: (Key, Key) -> real, dist: Key -> real, pool: set<Key>, sorted: seq<Key>, m: nat,
                   kept: seq<Key>, discarded: seq<Key>, seen: nat)
    requires Pooled(dist, pool, sorted) && |kept| <= m && Sieving(pair, dist, sorted, seen, kept, discarded)
    requires |kept| == m || seen == |sorted|
    ensures Greedy(pair, dist, pool, m, kept)
  {
    forall c <- kept ensures c in pool {
      assert c in kept + discarded;
      assert c in sorted[..seen];
    }
    forall c <- pool | c !in kept
      ensures Shadowed(pair, dist, kept, c) || (|kept| == m && forall s <- kept :: Before(At(dist, s), At(dist, c)))
    {
      var i :| 0 <= i < |sorted| && sorted[i] == c;
      if i < seen {
        assert c in sorted[..seen];
        assert c in kept + discarded && c in discarded;
      } else {
        forall s <- kept ensures Before(At(dist, s), At(dist, c)) {
          assert s in kept + discarded && s in sorted[..seen];
        }
      }
    }
  }

  lemma RestNearest(pair: (Key, Key) -> real, dist: Key -> real, pool: set<Key>, sorted: seq<Key>,
                    kept: seq<Key>, discarded: seq<Key>, seen: nat, j: nat)
    requires Pooled(dist, pool, sorted) && Sieving(pair, dist, sorted, seen, kept, discarded) && j <= |discarded|
    requires j > 0 ==> seen == |sorted|
    ensures NearestOf(dist, pool - Elements(kept), discarded[..j])
  {
    forall c <- discarded[..j] ensures c in pool - Elements(kept) {
      var i :| 0 <= i < j && discarded[i] == c;
      assert (kept + discarded)[|kept| + i] == c;
      assert c in sorted[..seen];
    }
    forall c <- pool - Elements(kept), x <- discarded[..j] | c !in discarded[..j] ensures Before(At(dist, x), At(dist, c)) {
      assert c in sorted[..seen];
      assert c in kept + discarded && c in discarded;
      var i :| 0 <= i < |discarded| && discarded[i] == c;
      assert i >= j;
    }
  }

  lemma Chosen(pair: (Key, Key) -> real, dist: Key -> real, pool: set<Key>, sorted: seq<Key>, m: nat,
               kept: seq<Key>, discarded: seq<Key>, seen: nat, j: nat)
    requires Pooled(dist, pool, sorted) && |kept| <= m && Sieving(pair, dist, sorted, seen, kept, discarded)
    requires |kept| == m || seen == |sorted|
    requires j <= |discarded| && |kept| + j <= m && (j == |discarded| || |kept| + j == m)
    ensures Selection(pair, dist, pool, m, kept + discarded[..j])
  {
    var selected := kept + discarded[..j];
    assert selected == (kept + discarded)[..|kept| + j];
    assert selected[..|kept|] == kept && selected[|kept|..] == discarded[..j];
    KeptGreedy(pair, dist, pool, sorted, m, kept, discarded, seen);
    RestNearest(pair, dist, pool, sorted, kept, discarded, seen, j);
    assert KeptFirst(pair, dist, pool, m, selected, |kept|);
    ChosenSound(pair, dist, pool, sorted, m, kept, discarded, seen, selected);
  }

  lemma ChosenSound(pair: (Key, Key) -> real, dist: Key -> real, pool: set<Key>, sorted: seq<Key>, m: nat,
                    kept: seq<Key>, discarded: seq<Key>, seen: nat, selected: seq<Key>)
    requires Pooled(dist, pool, sorted) && Sieving(pair, dist, sorted, seen, kept, discarded)
    requires |kept| == m || seen == |sorted|
    requires |kept| <= |selected| <= m && |selected| <= seen && selected == (kept + discarded)[..|selected|] && (|selected| == m || |selected| == seen)
    ensures Distinct(selected) && (forall c <- selected :: c in pool)
    ensures |selected| == (if |pool| < m then |pool| else m)
    ensures selected != [] ==> forall c <- pool :: c == selected[0] || Before(At(dist, selected[0]), At(dist, c))
  {
    forall c <- selected ensures c in pool {
      assert c in kept + discarded;
      assert c in sorted[..seen];
    }
    assert forall i, j | 0 <= i < j < |selected| :: selected[i] == (kept + discarded)[i] && selected[j] == (kept + discarded)[j];
    SortedCount(selected, pool);
    if selected != [] {
      assert seen > 0 && selected[0] == (kept + discarded)[0] == kept[0];
      forall c <- pool ensures c == selected[0] || Before(At(dist, selected[0]), At(dist, c)) {
        assert c in sorted;
      }
    }
  }

  /** Distinct elements of a set are no more than it has. */
  lemma {:induction false} SortedCount(s: seq<Key>, pool: set<Key>)
    requires Distinct(s) && forall c <- s :: c in pool
    ensures |s| <= |pool|
    decreases |s|
  {
    if s != [] {
      var n := |s| - 1;
      assert s[n] in pool && s[n] !in s[..n];
      SortedCount(s[..n], pool - {s[n]});
    }
  }

  // ------------------------------------------------- there is only one choice

  function Nears(dist: Key -> real, s: seq<Key>): (r: seq<Near>)
    ensures |r| == |s|
  {
    seq(|s|, i requires 0 <= i < |s| => At(dist, s[i]))
  }

  lemma NearsOf(dist: Key -> real, s: seq<Key>)
    requires Sorted(dist, s)
    ensures Ascending(Nears(dist, s)) && forall k :: At(dist, k) in Nears(dist, s) <==> k in s
  {
    forall k | k in s ensures At(dist, k) in Nears(dist, s) {
      var i :| 0 <= i < |s| && s[i] == k;
      assert Nears(dist, s)[i] == At(dist, k);
    }
  }

  lemma NearsSame(dist: Key -> real, s: seq<Key>, t: seq<Key>)
    requires Nears(dist, s) == Nears(dist, t)
    ensures s == t
  {
    forall i | 0 <= i < |s| ensures s[i] == t[i] {
      assert Nears(dist, s)[i].k == Nears(dist, t)[i].k;
    }
  }

  /** A list in order that is nearest in its pool is the list of the nearest. */
  lemma NearestIsKnn(dist: Key -> real, pool: set<Key>, s: seq<Key>)
    requires NearestOf(dist, pool, s)
    ensures Knn(Nears(dist, s), Measured(dist, pool), |s|)
  {
    NearsOf(dist, s);
    AscendingCount(Nears(dist, s));
    forall x <- Nears(dist, s) ensures x in Measured(dist, pool) {
      assert x == At(dist, x.k);
    }
    assert Items(Nears(dist, s)) <= Measured(dist, pool);
    Fewer(Items(Nears(dist, s)), Measured(dist, pool));
    forall x <- Measured(dist, pool) | x !in Nears(dist, s) ensures forall y <- Nears(dist, s) :: Before(y, x) {
      assert x == At(dist, x.k) && x.k !in s;
      forall y <- Nears(dist, s) ensures Before(y, x) {
        assert y == At(dist, y.k) && y.k in s;
      }
    }
  }

  lemma Fewer(a: set<Near>, b: set<Near>)
    requires a <= b
    ensures |a| <= |b|
  {
    if a != b {
      Smaller(a, b);
    }
  }

  lemma NearestUnique(dist: Key -> real, pool: set<Key>, s: seq<Key>, t: seq<Key>)
    requires NearestOf(dist, pool, s) && NearestOf(dist, pool, t) && |s| == |t|
    ensures s == t
  {
    NearestIsKnn(dist, pool, s);
    NearestIsKnn(dist, pool, t);
    KnnUnique(Nears(dist, s), Nears(dist, t), Measured(dist, pool), |s|);
    NearsSame(dist, s, t);
  }

  function Nearer(dist: Key -> real, pool: set<Key>, c: Key): set<Key> {
    set k | k in pool && Before(At(dist, k), At(dist, c))
  }

  lemma NearerShrinks(dist: Key -> real, pool: set<Key>, s: Key, c: Key)
    requires s in pool && Before(At(dist, s), At(dist, c))
    ensures Nearer(dist, pool, s) < Nearer(dist, pool, c)
  {
    assert s in Nearer(dist, pool, c) && s !in Nearer(dist, pool, s);
  }

  lemma KeysCount(dist: Key -> real, s: seq<Key>)
    requires Sorted(dist, s)
    ensures |Elements(s)| == |s|
    decreases |s|
  {
    if s != [] {
      var n := |s| - 1;
      KeysCount(dist, s[..n]);
      SortedDistinct(dist, s, n);
      assert Elements(s) == Elements(s[..n]) + {s[n]};
    }
  }

  /** What one greedy choice keeps, any other keeps. */
  lemma {:induction false} GreedyWithin(pair: (Key, Key) -> real, dist: Key -> real, pool: set<Key>, m: nat, a: seq<Key>, b: seq<Key>, c: Key)
    requires Greedy(pair, dist, pool, m, a) && Greedy(pair, dist, pool, m, b) && c in a
    ensures c in b
    decreases Nearer(dist, pool, c)
  {
    if c !in b {
      forall s <- b | Before(At(dist, s), At(dist, c)) ensures s in a {
        NearerShrinks(dist, pool, s, c);
        GreedyWithin(pair, dist, pool, m, b, a, s);
      }
      if Shadowed(pair, dist, b, c) {
        assert Shadowed(pair, dist, a, c);
      } else {
        KeysCount(dist, a);
        KeysCount(dist, b);
        assert Elements(b) + {c} <= Elements(a);
        FewerKeys(Elements(b) + {c}, Elements(a));
      }
      assert false;
    }
  }

  lemma {:induction false} FewerKeys(a: set<Key>, b: set<Key>)
    requires a <= b
    ensures |a| <= |b|
  {
    if a != {} {
      var x :| x in a;
      FewerKeys(a - {x}, b - {x});
    }
  }

  lemma GreedyUnique(pair: (Key, Key) -> real, dist: Key -> real, pool: set<Key>, m: nat, a: seq<Key>, b: seq<Key>)
    requires Greedy(pair, dist, pool, m, a) && Greedy(pair, dist, pool, m, b)
    ensures a == b
  {
    forall c ensures c in a <==> c in b {
      if c in a { GreedyWithin(pair, dist, pool, m, a, b, c); }
      if c in b { GreedyWithin(pair, dist, pool, m, b, a, c); }
    }
    KeysCount(dist, a);
    KeysCount(dist, b);
    assert Elements(a) == Elements(b);
    NearestUnique(dist, Elements(a), a, b);
  }

  /** The promise leaves no freedom: for given candidates there is only one choice of neighbours. */
  lemma SelectionUnique(pair: (Key, Key) -> real, dist: Key -> real, pool: set<Key>, m: nat, s: seq<Key>, t: seq<Key>)
    requires Selection(pair, dist, pool, m, s) && Selection(pair, dist, pool, m, t)
    ensures s == t
  {
    var i: nat :| i <= |s| && KeptFirst(pair, dist, pool, m, s, i);
    var j: nat :| j <= |t| && KeptFirst(pair, dist, pool, m, t, j);
    KeptUnique(pair, dist, pool, m, s, t, i, j);
  }

  lemma KeptUnique(pair: (Key, Key) -> real, dist: Key -> real, pool: set<Key>, m: nat, s: seq<Key>, t: seq<Key>, i: nat, j: nat)
    requires |s| == |t| && i <= |s| && KeptFirst(pair, dist, pool, m, s, i) && j <= |t| && KeptFirst(pair, dist, pool, m, t, j)
    ensures s == t
  {
    GreedyUnique(pair, dist, pool, m, s[..i], t[..j]);
    NearestUnique(dist, pool - Elements(s[..i]), s[i..], t[j..]);
    assert s == s[..i] + s[i..] && t == t[..j] + t[j..];
  }
}
