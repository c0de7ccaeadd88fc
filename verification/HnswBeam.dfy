/** Beam search and greedy descent on one layer of the graph (index/hnsw.py). */
module HnswBeam {
  type Key = nat

  /** A node with its distance from the query. */
  datatype Near = Near(d: real, k: Key)

  /** The order of the pairs, by distance and then by key. */
  predicate Before(a: Near, b: Near) {
    a.d < b.d || (a.d == b.d && a.k < b.k)
  }

  /** The order of the pairs with the distance negated. */
  predicate Beyond(a: Near, b: Near) {
    a.d > b.d || (a.d == b.d && a.k < b.k)
  }

  type Layer = map<Key, seq<Key>>

  function Links(layer: Layer, n: Key): seq<Key> {
    if n in layer then layer[n] else []
  }

  predicate Distinct<T(==)>(s: seq<T>) {
    forall i, j | 0 <= i < j < |s| :: s[i] != s[j]
  }

  function Elements(s: seq<Key>): set<Key> {
    set k | k in s
  }

  predicate DistinctLists(layer: Layer) {
    forall n <- layer :: Distinct(layer[n])
  }

  /** Every node the layer mentions. */
  function Nodes(layer: Layer): set<Key> {
    layer.Keys + set n, m | n in layer && m in layer[n] :: m
  }

  lemma LinkIsNode(layer: Layer, n: Key, m: Key)
    requires m in Links(layer, n)
    ensures m in Nodes(layer)
  {}

  // ------------------------------------------------------------------- heaps

  lemma {:induction false} NearestExists(h: set<Near>)
    requires h != {}
    ensures exists x :: x in h && forall y <- h :: x == y || Before(x, y)
    decreases |h|
  {
    var z :| z in h;
    var rest := h - {z};
    if rest == {} {
      assert forall y <- h :: y == z || y in rest;
    } else {
      NearestExists(rest);
      var x :| x in rest && forall y <- rest :: x == y || Before(x, y);
      NearestOfTwo(rest, x, z);
      assert h == rest + {z};
    }
  }

  lemma NearestOfTwo(rest: set<Near>, x: Near, z: Near)
    requires x in rest && forall y <- rest :: x == y || Before(x, y)
    ensures exists w :: w in rest + {z} && forall y <- rest + {z} :: w == y || Before(w, y)
  {
    var w := if Before(z, x) then z else x;
    forall y <- rest + {z} ensures w == y || Before(w, y) {
      if y != z {
        assert y in rest;
      }
    }
    assert w in rest + {z};
  }

  lemma {:induction false} FurthestExists(h: set<Near>)
    requires h != {}
    ensures exists x :: x in h && forall y <- h :: x == y || Beyond(x, y)
    decreases |h|
  {
    var z :| z in h;
    var rest := h - {z};
    if rest == {} {
      assert forall y <- h :: y == z || y in rest;
    } else {
      FurthestExists(rest);
      var x :| x in rest && forall y <- rest :: x == y || Beyond(x, y);
      FurthestOfTwo(rest, x, z);
      assert h == rest + {z};
    }
  }

  lemma FurthestOfTwo(rest: set<Near>, x: Near, z: Near)
    requires x in rest && forall y <- rest :: x == y || Beyond(x, y)
    ensures exists w :: w in rest + {z} && forall y <- rest + {z} :: w == y || Beyond(w, y)
  {
    var w := if Beyond(z, x) then z else x;
    forall y <- rest + {z} ensures w == y || Beyond(w, y) {
      if y != z {
        assert y in rest;
      }
    }
    assert w in rest + {z};
  }

  /** The top of the heap of candidates. */
  method Nearest(h: set<Near>) returns (x: Near)
    requires h != {}
    ensures x in h && forall y <- h :: x == y || Before(x, y)
  {
    NearestExists(h);
    x :| x in h && forall y <- h :: x == y || Before(x, y);
  }

  /** The top of the heap of results. */
  method Furthest(h: set<Near>) returns (x: Near)
    requires h != {}
    ensures x in h && forall y <- h :: x == y || Beyond(x, y)
  {
    FurthestExists(h);
    x :| x in h && forall y <- h :: x == y || Beyond(x, y);
  }

  /** Ascending order. */
  predicate Ascending(s: seq<Near>) {
    forall i, j | 0 <= i < j < |s| :: Before(s[i], s[j])
  }

  method Sort(h: set<Near>) returns (s: seq<Near>)
    ensures Ascending(s) && |s| == |h| && forall x :: x in s <==> x in h
  {
    s := [];
    var rest := h;
    while rest != {}
      invariant rest <= h && Ascending(s) && |s| + |rest| == |h|
      invariant forall x :: x in s <==> x in h && x !in rest
      invariant forall x, y | x in s && y in rest :: Before(x, y)
      decreases |rest|
    {
      var x := Nearest(rest);
      s, rest := s + [x], rest - {x};
    }
  }

  // ------------------------------------------------------------- reachability

  predicate Hop(layer: Layer, p: seq<Key>, i: nat)
    requires i + 1 < |p|
  {
    p[i + 1] in Links(layer, p[i])
  }

  predicate Walk(layer: Layer, p: seq<Key>) {
    p != [] && forall i: nat | i + 1 < |p| :: Hop(layer, p, i)
  }

  ghost predicate Reachable(layer: Layer, start: set<Key>, n: Key) {
    exists p :: Walk(layer, p) && p[0] in start && p[|p| - 1] == n
  }

  ghost function Reach(layer: Layer, start: set<Key>): set<Key> {
    set n | n in Nodes(layer) + start && Reachable(layer, start, n)
  }

  predicate Closed(layer: Layer, s: set<Key>) {
    forall n <- s :: forall m <- Links(layer, n) :: m in s
  }

  lemma StartReached(layer: Layer, start: set<Key>)
    ensures start <= Reach(layer, start)
  {
    forall n <- start ensures Reachable(layer, start, n) {
      assert Walk(layer, [n]);
    }
  }

  lemma ReachStep(layer: Layer, start: set<Key>, n: Key, m: Key)
    requires n in Reach(layer, start) && m in Links(layer, n)
    ensures m in Reach(layer, start)
  {
    var p :| Walk(layer, p) && p[0] in start && p[|p| - 1] == n;
    forall i: nat | i + 1 < |p + [m]| ensures Hop(layer, p + [m], i) {
      assert i + 1 < |p| ==> Hop(layer, p, i);
    }
    assert Walk(layer, p + [m]) && (p + [m])[|p|] == m;
    LinkIsNode(layer, n, m);
  }

  lemma {:induction false} WalkStays(layer: Layer, s: set<Key>, p: seq<Key>)
    requires Closed(layer, s) && Walk(layer, p) && p[0] in s
    ensures p[|p| - 1] in s
    decreases |p|
  {
    if |p| > 1 {
      assert Hop(layer, p, 0);
      forall i: nat | i + 1 < |p[1..]| ensures Hop(layer, p[1..], i) {
        assert Hop(layer, p, i + 1);
      }
      WalkStays(layer, s, p[1..]);
    }
  }

  /** A closed set that holds the start holds all that is reachable. */
  lemma ClosedHoldsReach(layer: Layer, start: set<Key>, s: set<Key>)
    requires Closed(layer, s) && start <= s
    ensures Reach(layer, start) <= s
  {
    forall n <- Reach(layer, start) ensures n in s {
      var p :| Walk(layer, p) && p[0] in start && p[|p| - 1] == n;
      WalkStays(layer, s, p);
    }
  }

  // --------------------------------------------------------- the best so far

  function Measured(dist: Key -> real, s: set<Key>): set<Near> {
    set n | n in s :: Near(dist(n), n)
  }

  /** The acceptable nodes of `s`, with their distances. */
  function Accepted(dist: Key -> real, ok: Key -> bool, s: set<Key>): set<Near> {
    set n | n in s && ok(n) :: Near(dist(n), n)
  }

  /** `results` are acceptable nodes of `s`, at most `ef`, and none is left out but for closer ones. */
  predicate BestOf(dist: Key -> real, ok: Key -> bool, ef: nat, s: set<Key>, results: set<Near>) {
    && results <= Accepted(dist, ok, s)
    && |results| <= ef
    && forall x <- Accepted(dist, ok, s) - results :: |results| == ef && forall r <- results :: r.d <= x.d
  }

  lemma AcceptedMore(dist: Key -> real, ok: Key -> bool, s: set<Key>, k: Key)
    ensures Accepted(dist, ok, s + {k}) == Accepted(dist, ok, s) + (if ok(k) then {Near(dist(k), k)} else {})
  {}

  /** Exactly min(ef, acceptable) results. */
  lemma BestOfSize(dist: Key -> real, ok: Key -> bool, ef: nat, s: set<Key>, results: set<Near>)
    requires BestOf(dist, ok, ef, s, results)
    ensures |results| == if |Accepted(dist, ok, s)| < ef then |Accepted(dist, ok, s)| else ef
  {
    var all := Accepted(dist, ok, s);
    if all - results == {} {
      assert results == all;
    } else {
      Smaller(results, all);
    }
  }

  lemma Smaller<T>(a: set<T>, b: set<T>)
    requires a <= b
    ensures |a| <= |b| && (|a| == |b| ==> a == b)
  {
    assert b == a + (b - a);
  }

  // ------------------------------------------------------------- beam search

  /** The results are full of other nodes, all at least as close as `n`. */
  predicate Passed(dist: Key -> real, ef: nat, results: set<Near>, n: Key) {
    |results| == ef && forall r <- results :: r.k != n && r.d <= dist(n)
  }

  /** What has been passed over stays passed over. */
  predicate StaysPassed(dist: Key -> real, ef: nat, s: set<Key>, results0: set<Near>, results: set<Near>) {
    forall n <- s | Passed(dist, ef, results0, n) :: Passed(dist, ef, results, n)
  }

  /** Offers one acceptable node to the results, keeping at most `ef`. */
  method Offer(results: set<Near>, x: Near, ef: nat) returns (r: set<Near>)
    requires ef >= 1 && |results| <= ef && x !in results
    ensures |results| < ef ==> r == results + {x}
    ensures |results| == ef ==> exists out :: out in results + {x} && r == results + {x} - {out} && forall y <- r :: y.d <= out.d
    ensures |r| <= ef && r != {}
  {
    r := results + {x};
    if |r| > ef {
      var out := Furthest(r);
      r := r - {out};
    }
  }

  lemma OfferBest(dist: Key -> real, ok: Key -> bool, ef: nat, s: set<Key>, results: set<Near>, k: Key, r: set<Near>)
    requires ef >= 1 && BestOf(dist, ok, ef, s, results) && k !in s && ok(k)
    requires |results| == ef ==> exists y :: y in results && dist(k) < y.d
    requires var x := Near(dist(k), k);
      && (|results| < ef ==> r == results + {x})
      && (|results| == ef ==> exists out :: out in results + {x} && r == results + {x} - {out} && forall y <- r :: y.d <= out.d)
    ensures BestOf(dist, ok, ef, s + {k}, r)
    ensures |results| == ef ==> |r| == ef
  {
    var x := Near(dist(k), k);
    AcceptedMore(dist, ok, s, k);
    assert x !in results;
    if |results| == ef {
      var out :| out in results + {x} && r == results + {x} - {out} && forall y <- r :: y.d <= out.d;
      assert |results + {x}| == ef + 1;
      var far :| far in results && dist(k) < far.d;
      forall z <- Accepted(dist, ok, s + {k}) - r ensures forall y <- r :: y.d <= z.d {
        if z != out {
          assert z in Accepted(dist, ok, s) - results;
        }
      }
    }
  }

  lemma SkipBest(dist: Key -> real, ok: Key -> bool, ef: nat, s: set<Key>, results: set<Near>, k: Key)
    requires BestOf(dist, ok, ef, s, results)
    requires ok(k) ==> |results| == ef && forall y <- results :: y.d <= dist(k)
    ensures BestOf(dist, ok, ef, s + {k}, results)
  {
    AcceptedMore(dist, ok, s, k);
  }

  /** The entry points are offered first; then the furthest are dropped until `ef` are left. */
  method EnterResults(dist: Key -> real, ok: Key -> bool, ef: nat, entry: seq<Key>) returns (results: set<Near>)
    requires Distinct(entry)
    ensures BestOf(dist, ok, ef, Elements(entry), results)
  {
    results := {};
    for i := 0 to |entry|
      invariant results == Accepted(dist, ok, Elements(entry[..i]))
    {
      assert Elements(entry[..i + 1]) == Elements(entry[..i]) + {entry[i]};
      AcceptedMore(dist, ok, Elements(entry[..i]), entry[i]);
      if ok(entry[i]) {
        results := results + {Near(dist(entry[i]), entry[i])};
      }
    }
    assert entry[..|entry|] == entry;
    ghost var all := results;
    while |results| > ef
      invariant results <= all && (|results| >= ef || results == all)
      invariant forall x <- all - results :: forall r <- results :: r.d <= x.d
      decreases |results|
    {
      var out := Furthest(results);
      results := results - {out};
    }
  }

  method Fresh(nbs: seq<Key>, visited: set<Key>) returns (unseen: seq<Key>)
    requires Distinct(nbs)
    ensures Distinct(unseen) && forall k :: k in unseen <==> k in nbs && k !in visited
  {
    unseen := [];
    for i := 0 to |nbs|
      invariant Distinct(unseen) && forall k :: k in unseen <==> k in nbs[..i] && k !in visited
    {
      if nbs[i] !in visited {
        assert nbs[i] !in nbs[..i];
        unseen := unseen + [nbs[i]];
      }
    }
    assert nbs[..|nbs|] == nbs;
  }

  lemma SkipPassed(dist: Key -> real, ok: Key -> bool, ef: nat, s: set<Key>, results: set<Near>, k: Key)
    requires BestOf(dist, ok, ef, s, results) && |results| == ef && k !in s && forall r <- results :: r.d <= dist(k)
    ensures Passed(dist, ef, results, k)
  {}

  lemma OfferPassed(dist: Key -> real, ef: nat, s: set<Key>, results0: set<Near>, k: Key, results: set<Near>)
    requires k !in s && (|results0| == ef ==> |results| == ef && exists y :: y in results0 && dist(k) < y.d)
    requires results <= results0 + {Near(dist(k), k)}
    ensures StaysPassed(dist, ef, s, results0, results)
  {
    forall n <- s | Passed(dist, ef, results0, n) ensures Passed(dist, ef, results, n) {
      var y :| y in results0 && dist(k) < y.d;
      assert y.d <= dist(n);
    }
  }

  /**
   * One more node: it is skipped if the results are full of nodes at least as close, and otherwise
   * waits to be expanded and, if acceptable, is offered to the results.
   */
  method Visit(dist: Key -> real, ok: Key -> bool, ef: nat, ghost s: set<Key>, k: Key, results0: set<Near>, waiting0: set<Near>, worst0: real)
    returns (results: set<Near>, waiting: set<Near>, worst: real)
    requires ef >= 1 && BestOf(dist, ok, ef, s, results0) && Top(results0, worst0) && k !in s
    ensures BestOf(dist, ok, ef, s + {k}, results) && Top(results, worst)
    ensures waiting0 <= waiting <= waiting0 + {Near(dist(k), k)}
    ensures Near(dist(k), k) in waiting || Passed(dist, ef, results, k)
    ensures StaysPassed(dist, ef, s, results0, results)
  {
    results, waiting, worst := results0, waiting0, worst0;
    var dd := dist(k);
    if |results| >= ef && dd >= worst {
      SkipBest(dist, ok, ef, s, results, k);
      SkipPassed(dist, ok, ef, s, results, k);
      return;
    }
    waiting := waiting + {Near(dd, k)};
    if ok(k) {
      results := Offer(results0, Near(dd, k), ef);
      OfferBest(dist, ok, ef, s, results0, k, results);
      OfferPassed(dist, ef, s, results0, k, results);
      var top := Furthest(results);
      worst := top.d;
    } else {
      SkipBest(dist, ok, ef, s, results, k);
    }
  }

  /** Each of these nodes waits or has been passed over. */
  predicate Handled(dist: Key -> real, ef: nat, s: set<Key>, waiting: set<Near>, results: set<Near>) {
    forall n <- s :: Near(dist(n), n) in waiting || Passed(dist, ef, results, n)
  }

  lemma HandledMore(dist: Key -> real, ef: nat, seen: set<Key>, t: set<Key>, k: Key, results0: set<Near>,
                    before: set<Near>, kept: set<Near>, results: set<Near>, waiting: set<Near>)
    requires Handled(dist, ef, t, kept, before) && StaysPassed(dist, ef, seen, results0, before)
    requires kept <= waiting && StaysPassed(dist, ef, seen + t, before, results)
    requires Near(dist(k), k) in waiting || Passed(dist, ef, results, k)
    ensures Handled(dist, ef, t + {k}, waiting, results) && StaysPassed(dist, ef, seen, results0, results)
  {}

  /** The neighbours that have just been visited, in order. */
  method Expand(dist: Key -> real, ok: Key -> bool, ef: nat, ghost seen: set<Key>, unseen: seq<Key>,
                results0: set<Near>, waiting0: set<Near>)
    returns (results: set<Near>, waiting: set<Near>)
    requires ef >= 1 && BestOf(dist, ok, ef, seen, results0) && Distinct(unseen) && Elements(unseen) !! seen
    ensures BestOf(dist, ok, ef, seen + Elements(unseen), results)
    ensures waiting0 <= waiting <= waiting0 + Measured(dist, Elements(unseen))
    ensures Handled(dist, ef, Elements(unseen), waiting, results) && StaysPassed(dist, ef, seen, results0, results)
  {
    results, waiting := results0, waiting0;
    var worst := 0.0;
    if results != {} {
      var top := Furthest(results);
      worst := top.d;
    }
    ghost var s := seen;
    for i := 0 to |unseen|
      invariant s == seen + Elements(unseen[..i])
      invariant BestOf(dist, ok, ef, s, results) && Top(results, worst)
      invariant waiting0 <= waiting <= waiting0 + Measured(dist, Elements(unseen[..i]))
      invariant Handled(dist, ef, Elements(unseen[..i]), waiting, results) && StaysPassed(dist, ef, seen, results0, results)
    {
      Next(seen, unseen, i);
      MeasuredMore(dist, Elements(unseen[..i]), unseen[i]);
      ghost var before, kept := results, waiting;
      results, waiting, worst := Visit(dist, ok, ef, s, unseen[i], results, waiting, worst);
      HandledMore(dist, ef, seen, Elements(unseen[..i]), unseen[i], results0, before, kept, results, waiting);
      s := s + {unseen[i]};
    }
    assert unseen[..|unseen|] == unseen;
  }

  /** The furthest of the results is at distance `worst`, if there are any. */
  predicate Top(results: set<Near>, worst: real) {
    results != {} ==> (exists y :: y in results && y.d == worst) && forall y <- results :: y.d <= worst
  }

  lemma Next(seen: set<Key>, s: seq<Key>, i: nat)
    requires i < |s| && Distinct(s) && Elements(s) !! seen
    ensures s[i] !in seen + Elements(s[..i]) && Elements(s[..i + 1]) == Elements(s[..i]) + {s[i]} && s[i] in Elements(s)
    ensures seen + Elements(s[..i + 1]) == seen + Elements(s[..i]) + {s[i]}
  {
    assert s[i] in Elements(s) && s[..i + 1] == s[..i] + [s[i]];
  }

  lemma MeasuredMore(dist: Key -> real, s: set<Key>, k: Key)
    ensures Measured(dist, s + {k}) == Measured(dist, s) + {Near(dist(k), k)}
  {}

  lemma MeasuredWithin(dist: Key -> real, s: set<Key>, t: set<Key>, w0: set<Near>, w: set<Near>)
    requires w0 <= Measured(dist, s) && w <= w0 + Measured(dist, t)
    ensures w <= Measured(dist, s + t)
  {}

  lemma ReachMore(layer: Layer, start: set<Key>, n: Key, more: set<Key>)
    requires n in Reach(layer, start) && forall m <- more :: m in Links(layer, n)
    ensures more <= Reach(layer, start)
  {
    forall m <- more ensures m in Reach(layer, start) {
      ReachStep(layer, start, n, m);
    }
  }

  // ------------------------------------------------ which links are followed

  /** The start, and whatever the nodes in `s` link to. */
  function Found(layer: Layer, start: set<Key>, s: seq<Key>): set<Key> {
    if s == [] then start else Found(layer, start, s[..|s| - 1]) + Elements(Links(layer, s[|s| - 1]))
  }

  lemma FoundMore(layer: Layer, start: set<Key>, s: seq<Key>, x: Key)
    ensures Found(layer, start, s + [x]) == Found(layer, start, s) + Elements(Links(layer, x))
  {
    assert (s + [x])[..|s|] == s;
  }

  lemma {:induction false} FoundLinks(layer: Layer, start: set<Key>, s: seq<Key>, n: Key)
    requires n in s
    ensures forall m <- Links(layer, n) :: m in Found(layer, start, s)
    decreases |s|
  {
    if n != s[|s| - 1] {
      FoundLinks(layer, start, s[..|s| - 1], n);
    }
  }

  /**
   * With `s` visited and the links of `done` followed, it is the turn of `x`: the best so far are not
   * all closer than `x`, or there is room among them, and nothing nearer is left but what has been
   * passed over.
   */
  predicate Turn(dist: Key -> real, ok: Key -> bool, ef: nat, s: set<Key>, done: set<Key>, x: Key, best: set<Near>) {
    && x in s && x !in done && BestOf(dist, ok, ef, s, best)
    && (|best| < ef || exists r <- best :: dist(x) <= r.d)
    && forall n <- s - done :: n == x || Before(Near(dist(x), x), Near(dist(n), n)) || Passed(dist, ef, best, n)
  }

  /** Each of these nodes had its links followed when it was its turn. */
  ghost predicate InTurn(layer: Layer, dist: Key -> real, ok: Key -> bool, ef: nat, start: set<Key>, followed: seq<Key>)
    decreases |followed|
  {
    followed == [] ||
    var before, x := followed[..|followed| - 1], followed[|followed| - 1];
    && InTurn(layer, dist, ok, ef, start, before)
    && exists best: set<Near> :: Turn(dist, ok, ef, Found(layer, start, before), Elements(before), x, best)
  }

  /**
   * The beam follows links from nearest to furthest, each in its turn, and stops only when all
   * nodes that are left have been passed over.  What it has visited is what these links lead to.
   */
  ghost predicate Beamed(layer: Layer, dist: Key -> real, ok: Key -> bool, ef: nat, start: set<Key>,
                         visited: set<Key>, results: set<Near>, followed: seq<Key>)
  {
    && visited == Found(layer, start, followed) && (forall k <- followed :: k in visited)
    && InTurn(layer, dist, ok, ef, start, followed)
    && forall n <- visited | n !in followed :: Passed(dist, ef, results, n)
  }

  ghost predicate Searched(layer: Layer, dist: Key -> real, ok: Key -> bool, ef: nat, start: set<Key>,
                           visited: set<Key>, results: set<Near>)
  {
    exists followed: seq<Key> :: Beamed(layer, dist, ok, ef, start, visited, results, followed)
  }

  /** Two layers that agree on the links of what was visited may have been searched alike. */
  lemma {:induction false} SameTurns(a: Layer, b: Layer, dist: Key -> real, ok: Key -> bool, ef: nat, start: set<Key>, followed: seq<Key>)
    requires forall k <- followed :: Links(a, k) == Links(b, k)
    ensures Found(a, start, followed) == Found(b, start, followed)
    ensures InTurn(a, dist, ok, ef, start, followed) ==> InTurn(b, dist, ok, ef, start, followed)
    decreases |followed|
  {
    if followed != [] {
      var before := followed[..|followed| - 1];
      assert forall k <- before :: k in followed;
      SameTurns(a, b, dist, ok, ef, start, before);
    }
  }

  lemma SearchedAlike(a: Layer, b: Layer, dist: Key -> real, ok: Key -> bool, ef: nat, start: set<Key>, visited: set<Key>, results: set<Near>)
    requires Searched(a, dist, ok, ef, start, visited, results) && forall k <- visited :: Links(a, k) == Links(b, k)
    ensures Searched(b, dist, ok, ef, start, visited, results)
  {
    var followed :| Beamed(a, dist, ok, ef, start, visited, results, followed);
    SameTurns(a, b, dist, ok, ef, start, followed);
    assert Beamed(b, dist, ok, ef, start, visited, results, followed);
  }

  /** All links of the node have been visited. */
  predicate Expanded(layer: Layer, visited: set<Key>, n: Key) {
    forall m <- Links(layer, n) :: m in visited
  }

  /**
   * Every visited node that is closer than some result has had its links visited, and so has every
   * result; and if there are fewer than `ef` results, every visited node has.
   */
  lemma SearchedFar(layer: Layer, dist: Key -> real, ok: Key -> bool, ef: nat, start: set<Key>, visited: set<Key>, results: set<Near>)
    requires Searched(layer, dist, ok, ef, start, visited, results) && results <= Accepted(dist, ok, visited)
    ensures forall n <- visited | (exists r <- results :: dist(n) < r.d) :: Expanded(layer, visited, n)
    ensures forall r <- results :: Expanded(layer, visited, r.k)
    ensures |results| == ef || Closed(layer, visited)
  {
    var followed :| Beamed(layer, dist, ok, ef, start, visited, results, followed);
    forall n <- visited ensures Expanded(layer, visited, n) || Passed(dist, ef, results, n) {
      if n in followed {
        FoundLinks(layer, start, followed, n);
      }
    }
  }

  /** The results are full, and all closer than `x`. */
  predicate Closer(results: set<Near>, ef: nat, x: Near) {
    |results| == ef && forall r <- results :: r.d < x.d
  }

  /** The stop rule. */
  method Over(results: set<Near>, ef: nat, x: Near) returns (over: bool)
    requires ef >= 1 && |results| <= ef
    ensures over <==> Closer(results, ef, x)
  {
    over := false;
    if results != {} && |results| >= ef {
      var top := Furthest(results);
      over := x.d > top.d;
    }
  }

  /** What has been collected between steps. */
  ghost predicate Collected(layer: Layer, dist: Key -> real, ok: Key -> bool, ef: nat, start: set<Key>,
                            seen: set<Key>, waiting: set<Near>, results: set<Near>)
  {
    && start <= seen <= Reach(layer, start)
    && waiting <= Measured(dist, seen)
    && BestOf(dist, ok, ef, seen, results)
  }

  /** Every visited node waits, has been passed over, or has had its links followed in its turn. */
  ghost predicate Pursued(layer: Layer, dist: Key -> real, ok: Key -> bool, ef: nat, start: set<Key>,
                          seen: set<Key>, waiting: set<Near>, results: set<Near>, followed: seq<Key>)
  {
    && seen == Found(layer, start, followed) && (forall k <- followed :: k in seen)
    && InTurn(layer, dist, ok, ef, start, followed)
    && (forall x <- waiting :: x.k !in followed)
    && Handled(dist, ef, seen - Elements(followed), waiting, results)
  }

  /** What holds of the beam between steps. */
  ghost predicate Searching(layer: Layer, dist: Key -> real, ok: Key -> bool, ef: nat, start: set<Key>,
                            seen: set<Key>, waiting: set<Near>, results: set<Near>, followed: seq<Key>)
  {
    && Collected(layer, dist, ok, ef, start, seen, waiting, results)
    && Pursued(layer, dist, ok, ef, start, seen, waiting, results, followed)
  }

  lemma Begun(layer: Layer, dist: Key -> real, ok: Key -> bool, ef: nat, start: set<Key>, results: set<Near>)
    requires BestOf(dist, ok, ef, start, results)
    ensures Searching(layer, dist, ok, ef, start, start, Measured(dist, start), results, [])
  {
    StartReached(layer, start);
  }

  /** When the results are full of nodes closer than all that wait, all that wait can be passed over. */
  lemma WaitersPassed(dist: Key -> real, ok: Key -> bool, ef: nat, seen: set<Key>, s: set<Key>, x: Near, waiting: set<Near>, results: set<Near>)
    requires Handled(dist, ef, s, waiting, results) && results <= Accepted(dist, ok, seen)
    requires Closer(results, ef, x) && forall y <- waiting :: x == y || Before(x, y)
    ensures Handled(dist, ef, s, {}, results)
  {
    forall n <- s ensures Passed(dist, ef, results, n) {
      if Near(dist(n), n) in waiting {
        forall r <- results ensures r.k != n && r.d <= dist(n) {
          assert r in Accepted(dist, ok, seen);
        }
      }
    }
  }

  lemma Stopped(layer: Layer, dist: Key -> real, ok: Key -> bool, ef: nat, start: set<Key>, x: Near,
                seen: set<Key>, waiting: set<Near>, results: set<Near>, followed: seq<Key>)
    requires Searching(layer, dist, ok, ef, start, seen, waiting, results, followed)
    requires Closer(results, ef, x) && forall y <- waiting :: x == y || Before(x, y)
    ensures Searching(layer, dist, ok, ef, start, seen, {}, results, followed)
  {
    WaitersPassed(dist, ok, ef, seen, seen - Elements(followed), x, waiting, results);
  }

  lemma Finished(layer: Layer, dist: Key -> real, ok: Key -> bool, ef: nat, start: set<Key>,
                 seen: set<Key>, results: set<Near>, followed: seq<Key>)
    requires Pursued(layer, dist, ok, ef, start, seen, {}, results, followed)
    ensures Searched(layer, dist, ok, ef, start, seen, results)
  {
    forall n <- seen | n !in followed ensures Passed(dist, ef, results, n) {
      assert n in seen - Elements(followed);
    }
    assert Beamed(layer, dist, ok, ef, start, seen, results, followed);
  }

  /** It is the turn of the nearest of those that wait, unless the results are full of closer nodes. */
  lemma NowTurn(layer: Layer, dist: Key -> real, ok: Key -> bool, ef: nat, start: set<Key>, x: Near,
                seen: set<Key>, waiting: set<Near>, results: set<Near>, followed: seq<Key>)
    requires Searching(layer, dist, ok, ef, start, seen, waiting, results, followed)
    requires x in waiting && forall y <- waiting :: x == y || Before(x, y)
    requires !Closer(results, ef, x)
    ensures InTurn(layer, dist, ok, ef, start, followed + [x.k])
  {
    assert Turn(dist, ok, ef, seen, Elements(followed), x.k, results);
    NextInTurn(layer, dist, ok, ef, start, followed, x.k, results);
  }

  lemma NextInTurn(layer: Layer, dist: Key -> real, ok: Key -> bool, ef: nat, start: set<Key>, followed: seq<Key>, x: Key, best: set<Near>)
    requires InTurn(layer, dist, ok, ef, start, followed)
    requires Turn(dist, ok, ef, Found(layer, start, followed), Elements(followed), x, best)
    ensures InTurn(layer, dist, ok, ef, start, followed + [x])
  {
    var longer := followed + [x];
    assert longer[..|longer| - 1] == followed && longer[|longer| - 1] == x;
  }

  /** The links of `x` have been followed to `more`, which had not been visited before. */
  lemma Followed(layer: Layer, dist: Key -> real, ok: Key -> bool, ef: nat, start: set<Key>, x: Near, more: set<Key>,
                 seen0: set<Key>, waiting0: set<Near>, results0: set<Near>, followed: seq<Key>, waiting: set<Near>, results: set<Near>)
    requires Searching(layer, dist, ok, ef, start, seen0, waiting0, results0, followed) && x in waiting0
    requires InTurn(layer, dist, ok, ef, start, followed + [x.k])
    requires more == Elements(Links(layer, x.k)) - seen0
    requires BestOf(dist, ok, ef, seen0 + more, results)
    requires waiting0 - {x} <= waiting <= waiting0 - {x} + Measured(dist, more)
    requires Handled(dist, ef, more, waiting, results) && StaysPassed(dist, ef, seen0, results0, results)
    ensures Searching(layer, dist, ok, ef, start, seen0 + more, waiting, results, followed + [x.k])
  {
    ReachMore(layer, start, x.k, more);
    MeasuredWithin(dist, seen0, more, waiting0 - {x}, waiting);
    PursuedOn(layer, dist, ok, ef, start, x, more, seen0, waiting0, results0, followed, waiting, results);
  }

  lemma PursuedOn(layer: Layer, dist: Key -> real, ok: Key -> bool, ef: nat, start: set<Key>, x: Near, more: set<Key>,
                  seen0: set<Key>, waiting0: set<Near>, results0: set<Near>, followed: seq<Key>, waiting: set<Near>, results: set<Near>)
    requires Pursued(layer, dist, ok, ef, start, seen0, waiting0, results0, followed)
    requires x in waiting0 && waiting0 <= Measured(dist, seen0)
    requires InTurn(layer, dist, ok, ef, start, followed + [x.k])
    requires more == Elements(Links(layer, x.k)) - seen0
    requires waiting0 - {x} <= waiting <= waiting0 - {x} + Measured(dist, more)
    requires Handled(dist, ef, more, waiting, results) && StaysPassed(dist, ef, seen0, results0, results)
    ensures Pursued(layer, dist, ok, ef, start, seen0 + more, waiting, results, followed + [x.k])
  {
    FoundMore(layer, start, followed, x.k);
    assert Elements(followed + [x.k]) == Elements(followed) + {x.k};
    HandledOn(dist, ef, seen0, more, x, Elements(followed), waiting0, results0, waiting, results);
    Unfollowed(layer, start, x, more, seen0, waiting0, followed, dist, waiting);
  }

  lemma HandledOn(dist: Key -> real, ef: nat, seen0: set<Key>, more: set<Key>, x: Near, done: set<Key>,
                  waiting0: set<Near>, results0: set<Near>, waiting: set<Near>, results: set<Near>)
    requires Handled(dist, ef, seen0 - done, waiting0, results0) && waiting0 - {x} <= waiting && x == Near(dist(x.k), x.k)
    requires Handled(dist, ef, more, waiting, results) && StaysPassed(dist, ef, seen0, results0, results)
    ensures Handled(dist, ef, seen0 + more - (done + {x.k}), waiting, results)
  {}

  lemma Unfollowed(layer: Layer, start: set<Key>, x: Near, more: set<Key>, seen0: set<Key>, waiting0: set<Near>, followed: seq<Key>,
                   dist: Key -> real, waiting: set<Near>)
    requires (forall y <- waiting0 :: y.k !in followed) && waiting0 <= Measured(dist, seen0) && x in waiting0
    requires more !! seen0 && (forall k <- followed :: k in seen0)
    requires waiting <= waiting0 - {x} + Measured(dist, more)
    ensures forall y <- waiting :: y.k !in followed + [x.k]
  {
    forall y <- waiting ensures y.k !in followed + [x.k] {
      assert y in waiting0 || y in Measured(dist, more);
    }
  }

  /** Visits neighbours that have not been visited before. */
  method FollowNew(layer: Layer, dist: Key -> real, ok: Key -> bool, ef: nat, ghost start: set<Key>, x: Near, unseen: seq<Key>,
                   seen0: set<Key>, waiting0: set<Near>, results0: set<Near>, ghost followed: seq<Key>)
    returns (waiting: set<Near>, results: set<Near>)
    requires ef >= 1 && x in waiting0 && Distinct(unseen)
    requires forall m :: m in unseen <==> m in Links(layer, x.k) && m !in seen0
    requires Searching(layer, dist, ok, ef, start, seen0, waiting0, results0, followed)
    requires InTurn(layer, dist, ok, ef, start, followed + [x.k])
    ensures Searching(layer, dist, ok, ef, start, seen0 + Elements(unseen), waiting, results, followed + [x.k])
  {
    results, waiting := Expand(dist, ok, ef, seen0, unseen, results0, waiting0 - {x});
    assert Elements(unseen) == Elements(Links(layer, x.k)) - seen0;
    Followed(layer, dist, ok, ef, start, x, Elements(unseen), seen0, waiting0, results0, followed, waiting, results);
  }

  lemma NothingFollowed(layer: Layer, dist: Key -> real, ok: Key -> bool, ef: nat, start: set<Key>, x: Near,
                        seen: set<Key>, waiting: set<Near>, results: set<Near>, followed: seq<Key>)
    requires Searching(layer, dist, ok, ef, start, seen, waiting, results, followed) && x in waiting
    requires InTurn(layer, dist, ok, ef, start, followed + [x.k])
    requires forall m <- Links(layer, x.k) :: m in seen
    ensures Searching(layer, dist, ok, ef, start, seen, waiting - {x}, results, followed + [x.k])
  {
    assert Elements(Links(layer, x.k)) - seen == {} && seen + {} == seen;
    assert Measured(dist, {}) == {};
    Followed(layer, dist, ok, ef, start, x, {}, seen, waiting, results, followed, waiting - {x}, results);
  }

  /** Follows the links of `x`, which has just been taken off the heap of candidates. */
  method Follow(layer: Layer, dist: Key -> real, ok: Key -> bool, ef: nat, ghost start: set<Key>, x: Near,
                seen0: set<Key>, waiting0: set<Near>, results0: set<Near>, ghost followed: seq<Key>)
    returns (seen: set<Key>, waiting: set<Near>, results: set<Near>)
    requires ef >= 1 && DistinctLists(layer) && x in waiting0
    requires Searching(layer, dist, ok, ef, start, seen0, waiting0, results0, followed)
    requires InTurn(layer, dist, ok, ef, start, followed + [x.k])
    ensures Searching(layer, dist, ok, ef, start, seen, waiting, results, followed + [x.k])
    ensures (seen == seen0 && |waiting| < |waiting0|) || Left(layer, start, seen) < Left(layer, start, seen0)
  {
    var unseen := Fresh(Links(layer, x.k), seen0);
    if unseen == [] {
      NothingFollowed(layer, dist, ok, ef, start, x, seen0, waiting0, results0, followed);
      seen, waiting, results := seen0, waiting0 - {x}, results0;
    } else {
      Shrinks(layer, start, seen0, unseen, x.k);
      seen := seen0 + Elements(unseen);
      waiting, results := FollowNew(layer, dist, ok, ef, start, x, unseen, seen0, waiting0, results0, followed);
    }
  }

  /** Takes the nearest of those that wait; if the stop rule holds, that is all. */
  method TakeNearest(layer: Layer, dist: Key -> real, ok: Key -> bool, ef: nat, ghost start: set<Key>,
                     seen0: set<Key>, waiting0: set<Near>, results0: set<Near>, ghost followed0: seq<Key>)
    returns (over: bool, seen: set<Key>, waiting: set<Near>, results: set<Near>, ghost followed: seq<Key>)
    requires ef >= 1 && DistinctLists(layer) && waiting0 != {}
    requires Searching(layer, dist, ok, ef, start, seen0, waiting0, results0, followed0)
    ensures Searching(layer, dist, ok, ef, start, seen, if over then {} else waiting, results, followed)
    ensures over || (seen == seen0 && |waiting| < |waiting0|) || Left(layer, start, seen) < Left(layer, start, seen0)
  {
    seen, waiting, results, followed := seen0, waiting0, results0, followed0;
    var x := Nearest(waiting);
    over := Over(results, ef, x);
    if over {
      Stopped(layer, dist, ok, ef, start, x, seen, waiting, results, followed);
    } else {
      NowTurn(layer, dist, ok, ef, start, x, seen, waiting, results, followed);
      seen, waiting, results := Follow(layer, dist, ok, ef, start, x, seen, waiting, results, followed);
      followed := followed + [x.k];
    }
  }

  /** Takes the nearest of those that wait, until none is left or the stop rule holds. */
  method Beam(layer: Layer, dist: Key -> real, ok: Key -> bool, ef: nat, ghost start: set<Key>, seen0: set<Key>, results0: set<Near>)
    returns (seen: set<Key>, results: set<Near>, ghost followed: seq<Key>)
    requires ef >= 1 && DistinctLists(layer)
    requires Searching(layer, dist, ok, ef, start, seen0, Measured(dist, seen0), results0, [])
    ensures Searching(layer, dist, ok, ef, start, seen, {}, results, followed)
  {
    seen, results, followed := seen0, results0, [];
    var waiting := Measured(dist, seen0);
    while waiting != {}
      invariant Searching(layer, dist, ok, ef, start, seen, waiting, results, followed)
      decreases Left(layer, start, seen), |waiting|
    {
      var over;
      over, seen, waiting, results, followed := TakeNearest(layer, dist, ok, ef, start, seen, waiting, results, followed);
      if over {
        break;
      }
    }
  }

  /**
   * The beam search.  `visited` is every node whose distance was computed, and the results are the best
   * of the acceptable ones.  No node that is closer than some result is left with a link unvisited, and
   * links are followed only in turn.
   */
  method SearchLayer(layer: Layer, dist: Key -> real, ok: Key -> bool, entry: seq<Key>, ef: nat)
    returns (results: set<Near>, visited: set<Key>)
    requires ef >= 1 && Distinct(entry) && DistinctLists(layer)
    ensures BestOf(dist, ok, ef, visited, results)
    ensures Elements(entry) <= visited <= Reach(layer, Elements(entry))
    ensures forall n <- visited | (exists r <- results :: dist(n) < r.d) :: Expanded(layer, visited, n)
    ensures forall r <- results :: Expanded(layer, visited, r.k)
    ensures |results| == ef || Closed(layer, visited)
    ensures Searched(layer, dist, ok, ef, Elements(entry), visited, results)
  {
    results := EnterResults(dist, ok, ef, entry);
    ghost var start, followed := Elements(entry), [];
    Begun(layer, dist, ok, ef, start, results);
    visited, results, followed := Beam(layer, dist, ok, ef, start, Elements(entry), results);
    Finished(layer, dist, ok, ef, start, visited, results, followed);
    SearchedFar(layer, dist, ok, ef, start, visited, results);
  }

  /** The nodes that have not been visited. */
  ghost function Left(layer: Layer, start: set<Key>, seen: set<Key>): set<Key> {
    Nodes(layer) + start - seen
  }

  lemma Shrinks(layer: Layer, start: set<Key>, seen: set<Key>, unseen: seq<Key>, n: Key)
    requires unseen != [] && forall m <- unseen :: m in Links(layer, n) && m !in seen
    ensures Left(layer, start, seen + Elements(unseen)) < Left(layer, start, seen)
  {
    var m := unseen[0];
    LinkIsNode(layer, n, m);
    assert m in Left(layer, start, seen) && m !in Left(layer, start, seen + Elements(unseen));
  }
}
