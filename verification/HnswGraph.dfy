/** The layered graph that insertion edits in place, and the search over it (index/hnsw.py). */
module HnswGraph {
  import opened Options
  import opened HnswBeam
  import opened HnswSearch

  type Levels = map<Key, nat>

  /** During insertion every node may be linked to. */
  const ALL: Key -> bool := (k: Key) => true

  datatype Parameters = Parameters(m: nat, efConstruction: nat, pair: (Key, Key) -> real)

  /** Links join two distinct nodes of the layer, lists have no duplicates, degrees are bounded. */
  predicate SoundList(nodes: set<Key>, cap: nat, n: Key, list: seq<Key>) {
    Distinct(list) && |list| <= cap && forall x <- list :: x in nodes && x != n
  }

  predicate SoundLayer(layer: Layer, cap: nat) {
    forall n <- layer :: SoundList(layer.Keys, cap, n, layer[n])
  }

  function Cap(m: nat, lv: nat): nat {
    if lv == 0 then 2 * m else m
  }

  /** The nodes of a layer are those whose level reaches it. */
  predicate Populated(levels: Levels, layer: Layer, lv: nat) {
    layer.Keys == set n | n in levels && levels[n] >= lv
  }

  /** The entry point has the maximum level. */
  predicate Entered(levels: Levels, entry: Option<Key>, maxLevel: int) {
    match entry
    case None => levels == map[] && maxLevel == -1
    case Some(e) => e in levels && levels[e] == maxLevel && forall n <- levels :: levels[n] <= maxLevel
  }

  predicate WellFormed(m: nat, levels: Levels, links: seq<Layer>, entry: Option<Key>, maxLevel: int) {
    && Entered(levels, entry, maxLevel)
    && |links| == maxLevel + 1
    && forall lv: nat | lv < |links| :: Populated(levels, links[lv], lv) && SoundLayer(links[lv], Cap(m, lv))
  }

  /** The distances from a stored node. */
  function From(pair: (Key, Key) -> real, n: Key): Key -> real {
    (o: Key) => pair(n, o)
  }

  /** The list of a neighbour gains the key; where it has no room, it is the selection out of what it held and the key. */
  ghost predicate Relinked(pair: (Key, Key) -> real, cap: nat, key: Key, n: Key, before: seq<Key>, list: seq<Key>) {
    if |before| < cap then list == before + [key]
    else Selection(pair, From(pair, n), Elements(before) + {key}, cap, list)
  }

  /** What an insertion does to a layer: the lists of the new node's neighbours are relinked, the others stay. */
  ghost predicate Rewired(pair: (Key, Key) -> real, before: Layer, layer: Layer, key: Key, cap: nat) {
    && layer.Keys == before.Keys + {key}
    && forall n <- before | n != key ::
         if n in layer[key] then Relinked(pair, cap, key, n, before[n], layer[n]) else layer[n] == before[n]
  }

  /** Links of the new node are mutual, but for neighbours that were full. */
  predicate Mutual(layer: Layer, key: Key, cap: nat) {
    key in layer && forall n <- layer[key] :: n in layer && (key in layer[n] || |layer[n]| == cap)
  }

  // -------------------------------------------------- linking on one layer

  /** The list of a neighbour after the key has been added and, if it is then too long, cut back. */
  method AddBackLink(pair: (Key, Key) -> real, list0: seq<Key>, nb: Key, key: Key, cap: nat, ghost nodes: set<Key>)
    returns (list: seq<Key>)
    requires SoundList(nodes, cap, nb, list0) && key in nodes && key != nb && key !in list0
    ensures Relinked(pair, cap, key, nb, list0, list)
  {
    list := list0 + [key];
    if |list| > cap {
      assert Elements(list) - {nb} == Elements(list0) + {key};
      list := SelectNeighbors(pair, From(pair, nb), nb, Elements(list), cap);
    }
  }

  /** A relinked list is sound, gains nothing but the key, and holds it or is full. */
  lemma RelinkedSound(pair: (Key, Key) -> real, nodes: set<Key>, cap: nat, key: Key, n: Key, before: seq<Key>, list: seq<Key>)
    requires SoundList(nodes, cap, n, before) && key in nodes && key != n && key !in before
    requires Relinked(pair, cap, key, n, before, list)
    ensures SoundList(nodes, cap, n, list)
    ensures forall x <- list :: x in before || x == key
    ensures |list| == if |before| < cap then |before| + 1 else cap
    ensures key in list || |list| == cap
  {
    if |before| >= cap {
      Counted(before + [key]);
      assert Elements(before + [key]) == Elements(before) + {key};
      forall x <- list ensures x in before || x == key {
        assert x in Elements(before) + {key};
      }
    }
  }

  lemma {:induction false} Counted(s: seq<Key>)
    requires Distinct(s)
    ensures |Elements(s)| == |s|
    decreases |s|
  {
    if s != [] {
      Counted(s[..|s| - 1]);
      assert Elements(s) == Elements(s[..|s| - 1]) + {s[|s| - 1]};
      assert s[|s| - 1] !in s[..|s| - 1];
    }
  }

  /** What holds of a layer once the first `i` of the selected neighbours have been linked back. */
  ghost predicate Linking(pair: (Key, Key) -> real, before: Layer, layer: Layer, key: Key, cap: nat, selected: seq<Key>, i: nat)
    requires i <= |selected|
  {
    && SoundLayer(layer, cap) && layer.Keys == before.Keys
    && key in layer && layer[key] == selected
    && (forall n <- selected[i..] :: n in before && n != key && layer[n] == before[n])
    && (forall n <- selected[..i] :: LinkedBack(pair, before, layer, key, cap, n))
    && forall n <- before | n != key && n !in selected[..i] :: layer[n] == before[n]
  }

  ghost predicate LinkedBack(pair: (Key, Key) -> real, before: Layer, layer: Layer, key: Key, cap: nat, n: Key) {
    && n in before && n in layer && n != key && Relinked(pair, cap, key, n, before[n], layer[n])
    && (key in layer[n] || |layer[n]| == cap)
  }

  lemma LinkOne(pair: (Key, Key) -> real, before: Layer, layer: Layer, key: Key, cap: nat, selected: seq<Key>, i: nat, list: seq<Key>)
    requires i < |selected| && Linking(pair, before, layer, key, cap, selected, i) && Distinct(selected)
    requires
      var n := selected[i];
      && n in before && n != key && key !in before[n] && SoundList(before.Keys, cap, n, before[n])
      && Relinked(pair, cap, key, n, before[n], list)
    ensures Linking(pair, before, layer[selected[i] := list], key, cap, selected, i + 1)
  {
    var n := selected[i];
    var next := layer[n := list];
    RelinkedSound(pair, before.Keys, cap, key, n, before[n], list);
    assert next.Keys == layer.Keys;
    assert selected[i..][0] == n && forall x <- selected[i + 1..] :: x in selected[i..] && x != n;
    assert selected[..i + 1] == selected[..i] + [n];
    forall x <- selected[..i + 1] ensures LinkedBack(pair, before, next, key, cap, x) {
      if x != n {
        assert LinkedBack(pair, before, layer, key, cap, x);
      }
    }
  }

  /** Links a new node to the selected neighbours, both ways. */
  method Connect(pair: (Key, Key) -> real, layer0: Layer, key: Key, selected: seq<Key>, cap: nat) returns (layer: Layer)
    requires cap > 0 && key in layer0 && layer0[key] == [] && SoundLayer(layer0, cap)
    requires forall n <- layer0 :: key !in layer0[n]
    requires SoundList(layer0.Keys, cap, key, selected)
    ensures SoundLayer(layer, cap) && Rewired(pair, layer0, layer, key, cap)
    ensures layer[key] == selected && Mutual(layer, key, cap)
  {
    layer := layer0[key := selected];
    assert layer.Keys == layer0.Keys;
    assert selected[0..] == selected;
    for i := 0 to |selected|
      invariant Linking(pair, layer0, layer, key, cap, selected, i)
    {
      var nb := selected[i];
      assert nb in selected[i..];
      if key !in layer[nb] {
        var list := AddBackLink(pair, layer[nb], nb, key, cap, layer.Keys);
        LinkOne(pair, layer0, layer, key, cap, selected, i, list);
        layer := layer[nb := list];
      }
    }
    assert selected[..|selected|] == selected;
    forall n <- layer[key] ensures LinkedBack(pair, layer0, layer, key, cap, n) {}
  }

  // ---------------------------------------------------------------- insertion

  /** The layer with the new node, not linked yet. */
  function Seeded(layer: Layer, key: Key): Layer {
    layer[key := []]
  }

  lemma SeededSound(layer: Layer, key: Key, cap: nat)
    requires SoundLayer(layer, cap) && key !in layer
    ensures SoundLayer(Seeded(layer, key), cap) && DistinctLists(Seeded(layer, key))
    ensures forall n <- Seeded(layer, key) :: key !in Seeded(layer, key)[n]
    ensures Closed(Seeded(layer, key), layer.Keys)
  {}

  /** A walk over a sound layer stays among its nodes. */
  lemma StaysInside(layer: Layer, nodes: set<Key>, ep: Key)
    requires Closed(layer, nodes) && ep in nodes
    ensures Reach(layer, {ep}) <= nodes
  {
    ClosedHoldsReach(layer, {ep}, nodes);
  }

  /** The nearest of the candidates. */
  predicate Leads(dist: Key -> real, candidates: set<Key>, ep: Key) {
    forall c <- candidates :: c == ep || Before(Near(dist(ep), ep), Near(dist(c), c))
  }

  lemma SomeResult(dist: Key -> real, ef: nat, visited: set<Key>, results: set<Near>, ep: Key)
    requires BestOf(dist, ALL, ef, visited, results) && ef >= 1 && ep in visited
    ensures results != {}
  {
    assert Near(dist(ep), ep) in Accepted(dist, ALL, visited);
  }

  /**
   * The new node's neighbours are a selection out of the best `ef` of the nodes visited from `ep`, and
   * the visit followed links nearest first until all that were left had `ef` others at least as close.
   * `dist` is the distance of the new vector, which need not be the distance between stored ones.
   */
  ghost predicate WellChosen(pair: (Key, Key) -> real, dist: Key -> real, layer: Layer, ep: Key, ef: nat, m: nat, selected: seq<Key>) {
    exists candidates: set<Key>, visited: set<Key> ::
      Explains(pair, dist, layer, ep, ef, m, selected, candidates, visited)
  }

  ghost predicate Explains(pair: (Key, Key) -> real, dist: Key -> real, layer: Layer, ep: Key, ef: nat, m: nat, selected: seq<Key>,
                           candidates: set<Key>, visited: set<Key>)
  {
    && {ep} <= visited <= Reach(layer, {ep}) && candidates <= visited
    && BestOf(dist, ALL, ef, visited, Measured(dist, candidates))
    && Searched(layer, dist, ALL, ef, {ep}, visited, Measured(dist, candidates))
    && Selection(pair, dist, candidates, m, selected)
  }

  /** Links of a node nobody links to change nothing that can be reached without it. */
  lemma SeededReach(before: Layer, key: Key, ep: Key)
    requires key !in before && ep in before && Closed(before, before.Keys)
    ensures Reach(Seeded(before, key), {ep}) <= Reach(before, {ep})
  {
    var seeded, r := Seeded(before, key), Reach(before, {ep});
    StartReached(before, {ep});
    StaysInside(before, before.Keys, ep);
    forall n <- r, x <- Links(seeded, n) ensures x in r {
      assert n in before && Links(seeded, n) == Links(before, n);
      ReachStep(before, {ep}, n, x);
    }
    ClosedHoldsReach(seeded, {ep}, r);
  }

  /** The candidates the beam finds on a layer, and the nearest of them. */
  method FindCandidates(dist: Key -> real, layer: Layer, ep0: Key, ef: nat)
    returns (candidates: set<Key>, ep: Key, ghost visited: set<Key>)
    requires ef >= 1 && DistinctLists(layer)
    ensures ep in candidates && candidates <= visited && {ep0} <= visited <= Reach(layer, {ep0})
    ensures BestOf(dist, ALL, ef, visited, Measured(dist, candidates))
    ensures Searched(layer, dist, ALL, ef, {ep0}, visited, Measured(dist, candidates))
    ensures Leads(dist, candidates, ep)
  {
    var results;
    results, visited := SearchLayer(layer, dist, ALL, [ep0], ef);
    assert Elements([ep0]) == {ep0};
    SomeResult(dist, ef, visited, results, ep0);
    candidates := set x | x in results :: x.k;
    var best := Nearest(results);
    ep := best.k;
    KeysOf(dist, ef, visited, results, candidates, best);
  }

  lemma SelectedSound(pair: (Key, Key) -> real, dist: Key -> real, candidates: set<Key>, nodes: set<Key>, key: Key,
                      m: nat, cap: nat, selected: seq<Key>, ep: Key)
    requires Selection(pair, dist, candidates, m, selected) && 0 < m <= cap
    requires candidates <= nodes && key !in candidates && ep in candidates
    requires Leads(dist, candidates, ep)
    ensures SoundList(nodes, cap, key, selected) && 0 < |selected| <= m && selected[0] == ep
  {
    assert |candidates| > 0;
  }

  lemma RewiredSeed(pair: (Key, Key) -> real, before: Layer, layer: Layer, key: Key, cap: nat)
    requires key !in before && Rewired(pair, Seeded(before, key), layer, key, cap)
    ensures Rewired(pair, before, layer, key, cap)
  {
    var seeded := Seeded(before, key);
    forall n <- before | n != key
      ensures if n in layer[key] then Relinked(pair, cap, key, n, before[n], layer[n]) else layer[n] == before[n]
    {
      assert n in seeded && seeded[n] == before[n];
    }
  }

  lemma KeysOf(dist: Key -> real, ef: nat, visited: set<Key>, results: set<Near>, candidates: set<Key>, best: Near)
    requires results <= Accepted(dist, ALL, visited) && candidates == set x | x in results :: x.k
    requires best in results && forall y <- results :: best == y || Before(best, y)
    ensures candidates <= visited && Measured(dist, candidates) == results
    ensures Leads(dist, candidates, best.k)
  {
    forall c <- candidates ensures c in visited && Near(dist(c), c) in results {
      var x :| x in results && x.k == c;
      assert x in Accepted(dist, ALL, visited);
    }
  }

  /** What was visited on the seeded layer might have been visited on the layer before. */
  lemma SeededVisit(before: Layer, key: Key, ep0: Key, visited: set<Key>)
    requires key !in before && ep0 in before && Closed(before, before.Keys) && Closed(Seeded(before, key), before.Keys)
    requires visited <= Reach(Seeded(before, key), {ep0})
    ensures visited <= before.Keys && visited <= Reach(before, {ep0})
  {
    SeededReach(before, key, ep0);
    StaysInside(Seeded(before, key), before.Keys, ep0);
    Through(visited, Reach(Seeded(before, key), {ep0}), before.Keys);
    Through(visited, Reach(Seeded(before, key), {ep0}), Reach(before, {ep0}));
  }

  lemma NotAmong(a: set<Key>, b: set<Key>, c: set<Key>, key: Key)
    requires a <= b <= c && key !in c
    ensures a - {key} == a
  {}

  lemma Through(a: set<Key>, b: set<Key>, c: set<Key>)
    requires a <= b <= c
    ensures a <= c
  {}

  lemma ExplainedBy(pair: (Key, Key) -> real, dist: Key -> real, layer: Layer, ep: Key, ef: nat, m: nat, selected: seq<Key>,
                    candidates: set<Key>, visited: set<Key>)
    requires {ep} <= visited <= Reach(layer, {ep}) && candidates <= visited
    requires BestOf(dist, ALL, ef, visited, Measured(dist, candidates))
    requires Searched(layer, dist, ALL, ef, {ep}, visited, Measured(dist, candidates))
    requires Selection(pair, dist, candidates, m, selected)
    ensures WellChosen(pair, dist, layer, ep, ef, m, selected)
  {
    assert Explains(pair, dist, layer, ep, ef, m, selected, candidates, visited);
  }

  /** Finds neighbours for the new node on one layer, links it, and says where to go on below. */
  method InsertAt(pair: (Key, Key) -> real, dist: Key -> real, seeded: Layer, ghost before: Layer, key: Key, ep0: Key,
                  efConstruction: nat, m: nat, cap: nat)
    returns (layer: Layer, ep: Key)
    requires efConstruction >= 1 && 0 < m <= cap && SoundLayer(before, cap) && key !in before && ep0 in before
    requires seeded == Seeded(before, key)
    ensures SoundLayer(layer, cap) && Rewired(pair, before, layer, key, cap) && Mutual(layer, key, cap)
    ensures 0 < |layer[key]| <= m && ep == layer[key][0] && ep in before
    ensures WellChosen(pair, dist, before, ep0, efConstruction, m, layer[key])
  {
    SeededSound(before, key, cap);
    var selected;
    selected, ep := Choose(pair, dist, seeded, before, key, ep0, efConstruction, m, cap);
    layer := Connect(pair, seeded, key, selected, cap);
    RewiredSeed(pair, before, layer, key, cap);
  }

  /** Finds neighbours for the new node. */
  method Choose(pair: (Key, Key) -> real, dist: Key -> real, seeded: Layer, ghost before: Layer, key: Key, ep0: Key,
                efConstruction: nat, m: nat, ghost cap: nat)
    returns (selected: seq<Key>, ep: Key)
    requires efConstruction >= 1 && 0 < m <= cap && SoundLayer(before, cap) && key !in before && ep0 in before
    requires seeded == Seeded(before, key)
    ensures SoundList(seeded.Keys, cap, key, selected) && 0 < |selected| <= m && ep == selected[0] && ep in before
    ensures WellChosen(pair, dist, before, ep0, efConstruction, m, selected)
  {
    var candidates;
    ghost var visited;
    candidates, ep, visited := FindOn(dist, seeded, before, key, ep0, efConstruction, cap);
    selected := SelectNeighbors(pair, dist, key, candidates, m);
    Chosen(pair, dist, before, key, ep0, efConstruction, m, cap, selected, candidates, visited, ep);
  }

  method FindOn(dist: Key -> real, seeded: Layer, ghost before: Layer, key: Key, ep0: Key, ef: nat, ghost cap: nat)
    returns (candidates: set<Key>, ep: Key, ghost visited: set<Key>)
    requires ef >= 1 && SoundLayer(before, cap) && key !in before && ep0 in before && seeded == Seeded(before, key)
    ensures candidates - {key} == candidates && ep in candidates && candidates <= visited <= before.Keys
    ensures {ep0} <= visited <= Reach(before, {ep0})
    ensures BestOf(dist, ALL, ef, visited, Measured(dist, candidates))
    ensures Searched(before, dist, ALL, ef, {ep0}, visited, Measured(dist, candidates))
    ensures Leads(dist, candidates, ep)
  {
    SeededLists(before, key, cap);
    candidates, ep, visited := FindCandidates(dist, seeded, ep0, ef);
    VisitedBefore(before, key, ep0, cap, candidates, visited);
    SearchedBefore(before, key, dist, ef, {ep0}, visited, Measured(dist, candidates));
  }

  lemma SearchedBefore(before: Layer, key: Key, dist: Key -> real, ef: nat, start: set<Key>, visited: set<Key>, results: set<Near>)
    requires key !in before && visited <= before.Keys && Searched(Seeded(before, key), dist, ALL, ef, start, visited, results)
    ensures Searched(before, dist, ALL, ef, start, visited, results)
  {
    SearchedAlike(Seeded(before, key), before, dist, ALL, ef, start, visited, results);
  }

  lemma SeededLists(before: Layer, key: Key, cap: nat)
    requires SoundLayer(before, cap) && key !in before
    ensures DistinctLists(Seeded(before, key))
  {
    SeededSound(before, key, cap);
  }

  lemma VisitedBefore(before: Layer, key: Key, ep0: Key, cap: nat, candidates: set<Key>, visited: set<Key>)
    requires SoundLayer(before, cap) && key !in before && ep0 in before
    requires candidates <= visited <= Reach(Seeded(before, key), {ep0})
    ensures candidates - {key} == candidates && visited <= before.Keys && visited <= Reach(before, {ep0})
  {
    SeededSound(before, key, cap);
    SeededVisit(before, key, ep0, visited);
    NotAmong(candidates, visited, before.Keys, key);
  }

  lemma Chosen(pair: (Key, Key) -> real, dist: Key -> real, before: Layer, key: Key, ep0: Key, ef: nat, m: nat, cap: nat,
               selected: seq<Key>, candidates: set<Key>, visited: set<Key>, ep: Key)
    requires 0 < m <= cap && key !in before && candidates - {key} == candidates && ep in candidates && candidates <= visited <= before.Keys
    requires {ep0} <= visited <= Reach(before, {ep0})
    requires BestOf(dist, ALL, ef, visited, Measured(dist, candidates))
    requires Searched(before, dist, ALL, ef, {ep0}, visited, Measured(dist, candidates))
    requires Leads(dist, candidates, ep)
    requires Selection(pair, dist, candidates, m, selected)
    ensures SoundList(Seeded(before, key).Keys, cap, key, selected) && 0 < |selected| <= m && ep == selected[0] && ep in before
    ensures WellChosen(pair, dist, before, ep0, ef, m, selected)
  {
    ExplainedBy(pair, dist, before, ep0, ef, m, selected, candidates, visited);
    SelectedSound(pair, dist, candidates, Seeded(before, key).Keys, key, m, cap, selected, ep);
  }

  // ---------------------------------------------------------------- the index

  /** Every layer up to the new node's level has been given the node; the others are as they were. */
  predicate Grown(before: seq<Layer>, links: seq<Layer>, key: Key, level: nat) {
    && |links| == Max(|before|, level + 1)
    && forall lv | 0 <= lv < |links| ::
         links[lv] == (if lv > level then before[lv] else if lv < |before| then Seeded(before[lv], key) else map[key := []])
  }

  /** What is inserted: a key, its level, the distances of its vector, and where the descent leaves off. */
  datatype Newcomer = Newcomer(key: Key, level: nat, dist: Key -> real, start: Key)

  /** Where the beam starts on a layer: where the descent left off, or at the nearest neighbour found one layer above. */
  function StartAt(before: seq<Layer>, links: seq<Layer>, x: Newcomer, lv: nat): Key {
    if lv < x.level && lv + 1 < |before| && lv + 1 < |links| && x.key in links[lv + 1] && links[lv + 1][x.key] != []
    then links[lv + 1][x.key][0]
    else x.start
  }

  /** A layer during an insertion: those above `lv` are done, the others only seeded. */
  ghost predicate InsertingAt(before: seq<Layer>, links: seq<Layer>, x: Newcomer, p: Parameters, lv: int, l: nat)
    requires l < |links| && |links| == Max(|before|, x.level + 1)
  {
    if l > x.level then links[l] == before[l]
    else if l >= |before| then links[l] == map[x.key := []]
    else if l <= lv then links[l] == Seeded(before[l], x.key)
    else LayerInserted(before[l], links[l], x, StartAt(before, links, x, l), Cap(p.m, l), p)
  }

  ghost predicate Inserting(before: seq<Layer>, links: seq<Layer>, x: Newcomer, p: Parameters, lv: int) {
    && |links| == Max(|before|, x.level + 1)
    && forall l: nat | l < |links| :: InsertingAt(before, links, x, p, lv, l)
  }

  ghost predicate LayerInserted(before: Layer, layer: Layer, x: Newcomer, ep: Key, cap: nat, p: Parameters) {
    && SoundLayer(layer, cap) && Rewired(p.pair, before, layer, x.key, cap) && Mutual(layer, x.key, cap) && layer[x.key] != []
    && ep in before && WellChosen(p.pair, x.dist, before, ep, p.efConstruction, p.m, layer[x.key])
  }

  /** On the first layer that is linked the beam starts where the descent left off. */
  lemma StartFirst(before: seq<Layer>, links: seq<Layer>, x: Newcomer, lv: nat)
    requires lv == x.level || lv + 1 == |before|
    ensures StartAt(before, links, x, lv) == x.start
  {}

  lemma GrownInserting(before: seq<Layer>, links: seq<Layer>, x: Newcomer, p: Parameters, lv: int)
    requires Grown(before, links, x.key, x.level) && (lv == x.level || lv + 1 == |before|)
    ensures Inserting(before, links, x, p, lv)
  {
    forall l: nat | l < |links| ensures InsertingAt(before, links, x, p, lv, l) {}
  }

  /** Replacing layer `lv` does not move where the beam starts on it or above. */
  lemma SameStart(before: seq<Layer>, links: seq<Layer>, x: Newcomer, lv: nat, layer: Layer, l: nat)
    requires lv < |links| && lv <= l
    ensures StartAt(before, links[lv := layer], x, l) == StartAt(before, links, x, l)
  {}

  /** The layers above `lv` are done, and the beam starts on it at `ep`. */
  ghost predicate Descending(before: seq<Layer>, links: seq<Layer>, x: Newcomer, p: Parameters, lv: int, ep: Key) {
    && -1 <= lv < |before| && lv <= x.level && (lv >= 0 ==> ep in before[lv] && ep == StartAt(before, links, x, lv))
    && Inserting(before, links, x, p, lv)
  }

  lemma InsertingStepAt(before: seq<Layer>, links: seq<Layer>, x: Newcomer, p: Parameters, lv: nat, layer: Layer, l: nat)
    requires |links| == Max(|before|, x.level + 1) && lv < |before| && lv <= x.level && l < |links|
    requires InsertingAt(before, links, x, p, lv, l)
    requires LayerInserted(before[lv], layer, x, StartAt(before, links, x, lv), Cap(p.m, lv), p)
    ensures InsertingAt(before, links[lv := layer], x, p, lv - 1, l)
  {
    if l >= lv {
      SameStart(before, links, x, lv, layer, l);
    }
  }

  lemma InsertingStep(before: seq<Layer>, links: seq<Layer>, x: Newcomer, p: Parameters, lv: nat, layer: Layer)
    requires Inserting(before, links, x, p, lv) && lv < |before| && lv <= x.level
    requires LayerInserted(before[lv], layer, x, StartAt(before, links, x, lv), Cap(p.m, lv), p)
    ensures Inserting(before, links[lv := layer], x, p, lv - 1)
  {
    var next, above := links[lv := layer], lv - 1;
    forall l: nat | l < |next| ensures InsertingAt(before, next, x, p, above, l) {
      InsertingStepAt(before, links, x, p, lv, layer, l);
    }
  }

  /** The layer that is linked next. */
  lemma LayerReady(p: Parameters, levels: Levels, before: seq<Layer>, entry: Option<Key>, maxLevel: int,
                   x: Newcomer, links: seq<Layer>, lv: nat, ep: Key)
    requires WellFormed(p.m, levels, before, entry, maxLevel) && x.key !in levels && Descending(before, links, x, p, lv, ep)
    ensures |links| == Max(|before|, x.level + 1) && lv < |links| && links[lv] == Seeded(before[lv], x.key)
    ensures SoundLayer(before[lv], Cap(p.m, lv)) && x.key !in before[lv] && ep in before[lv]
  {
    assert Populated(levels, before[lv], lv) && SoundLayer(before[lv], Cap(p.m, lv));
    assert InsertingAt(before, links, x, p, lv, lv);
  }

  lemma LayerDone(p: Parameters, levels: Levels, before: seq<Layer>, entry: Option<Key>, maxLevel: int,
                  x: Newcomer, links: seq<Layer>, lv: nat, layer: Layer, ep: Key)
    requires WellFormed(p.m, levels, before, entry, maxLevel) && lv < |before| && lv <= x.level
    requires Inserting(before, links, x, p, lv)
    requires LayerInserted(before[lv], layer, x, StartAt(before, links, x, lv), Cap(p.m, lv), p)
    requires ep == layer[x.key][0] && ep in before[lv]
    ensures Descending(before, links[lv := layer], x, p, lv - 1, ep)
  {
    InsertingStep(before, links, x, p, lv, layer);
    if lv > 0 {
      assert Populated(levels, before[lv - 1], lv - 1) && Populated(levels, before[lv], lv);
    }
  }

  /** The insertion keeps the graph well formed. */
  lemma InsertionKeeps(p: Parameters, levels: Levels, before: seq<Layer>, entry: Option<Key>, maxLevel: int,
                       x: Newcomer, links: seq<Layer>)
    requires WellFormed(p.m, levels, before, entry, maxLevel) && x.key !in levels
    requires Inserting(before, links, x, p, -1)
    ensures
      var (e, top) := if entry.None? || x.level > maxLevel then (x.key, x.level as int) else (entry.value, maxLevel);
      WellFormed(p.m, levels[x.key := x.level], links, Some(e), top)
  {
    forall lv: nat | lv < |links|
      ensures Populated(levels[x.key := x.level], links[lv], lv) && SoundLayer(links[lv], Cap(p.m, lv))
    {
      LayerKeeps(p, levels, before, entry, maxLevel, x, links, lv);
    }
  }

  lemma LayerKeeps(p: Parameters, levels: Levels, before: seq<Layer>, entry: Option<Key>, maxLevel: int,
                   x: Newcomer, links: seq<Layer>, lv: nat)
    requires WellFormed(p.m, levels, before, entry, maxLevel) && x.key !in levels
    requires Inserting(before, links, x, p, -1) && lv < |links|
    ensures Populated(levels[x.key := x.level], links[lv], lv) && SoundLayer(links[lv], Cap(p.m, lv))
  {
    assert InsertingAt(before, links, x, p, -1, lv);
    if lv < |before| {
      assert Populated(levels, before[lv], lv) && SoundLayer(before[lv], Cap(p.m, lv));
    } else {
      assert forall n <- levels :: levels[n] < |before|;
    }
  }

  // ------------------------------------------------- sequences of insertions

  /** The graph of the index. */
  datatype Graph = Graph(levels: Levels, links: seq<Layer>, entry: Option<Key>, maxLevel: int)

  predicate SoundGraph(m: nat, g: Graph) {
    WellFormed(m, g.levels, g.links, g.entry, g.maxLevel)
  }

  const EMPTY := Graph(map[], [], None, -1)

  /** One insertion of a fresh key. */
  ghost predicate Inserted(p: Parameters, g: Graph, x: Newcomer, g2: Graph) {
    && x.key !in g.levels && Inserting(g.links, g2.links, x, p, -1) && g2.levels == g.levels[x.key := x.level]
    && (g2.entry, g2.maxLevel) ==
         if g.entry.None? || x.level > g.maxLevel then (Some(x.key), x.level as int) else (g.entry, g.maxLevel)
  }

  /** The graph has been built by these insertions, in order. */
  ghost predicate Built(p: Parameters, xs: seq<Newcomer>, g: Graph)
    decreases |xs|
  {
    if xs == [] then g == EMPTY
    else
      var before, x := xs[..|xs| - 1], xs[|xs| - 1];
      exists g0: Graph :: Built(p, before, g0) && Inserted(p, g0, x, g)
  }

  lemma InsertedWellFormed(p: Parameters, g: Graph, x: Newcomer, g2: Graph)
    requires SoundGraph(p.m, g) && Inserted(p, g, x, g2)
    ensures SoundGraph(p.m, g2)
  {
    InsertionKeeps(p, g.levels, g.links, g.entry, g.maxLevel, x, g2.links);
  }

  lemma InsertedLevels(levels: Levels, before: seq<Newcomer>, x: Newcomer, levels2: Levels)
    requires x.key !in levels && levels2 == levels[x.key := x.level]
    requires |levels| == |before| && forall y <- before :: y.key in levels && levels[y.key] == y.level
    ensures |levels2| == |before + [x]| && forall y <- before + [x] :: y.key in levels2 && levels2[y.key] == y.level
  {
    assert levels2.Keys == levels.Keys + {x.key};
  }

  /**
   * Whatever fresh keys are inserted, at whatever levels and distances, in whatever order: links join two
   * distinct nodes of their layer, no list has a duplicate, degrees stay within the bounds, the entry
   * point has the maximum level, and the nodes are exactly the keys inserted, at their levels.
   */
  lemma {:induction false} BuiltWellFormed(p: Parameters, xs: seq<Newcomer>, g: Graph)
    requires Built(p, xs, g)
    ensures SoundGraph(p.m, g)
    ensures |g.levels| == |xs| && forall x <- xs :: x.key in g.levels && g.levels[x.key] == x.level
    decreases |xs|
  {
    if xs != [] {
      var before, x := xs[..|xs| - 1], xs[|xs| - 1];
      var g0: Graph :| Built(p, before, g0) && Inserted(p, g0, x, g);
      BuiltWellFormed(p, before, g0);
      InsertedWellFormed(p, g0, x, g);
      InsertedLevels(g0.levels, before, x, g.levels);
      assert xs == before + [x];
    }
  }

  /** One greedy walk: the steepest descent to a node that can be reached and is no further than the first. */
  ghost predicate Walked(layer: Layer, dist: Key -> real, from: Key, to: Key) {
    to in Reach(layer, {from}) && dist(to) <= dist(from) && Descends(layer, dist, from, to)
  }

  ghost predicate ZoomedAt(links: seq<Layer>, dist: Key -> real, path: seq<Key>, lv: nat, i: nat)
    requires i + 1 < |path| && lv + |path| <= |links|
  {
    Walked(links[lv + i + 1], dist, path[i + 1], path[i])
  }

  /** Greedy walks, each from where the one on the layer above ended; `path[0]` is where the last one ends, on layer `lv + 1`. */
  ghost predicate ZoomPath(links: seq<Layer>, dist: Key -> real, path: seq<Key>, lv: nat) {
    && path != [] && lv + |path| <= |links|
    && forall i: nat | i + 1 < |path| :: ZoomedAt(links, dist, path, lv, i)
  }

  /** Greedy walks from the entry point on the top layer down to the layer above `lv`. */
  ghost predicate Zoomed(links: seq<Layer>, dist: Key -> real, entry: Key, top: nat, lv: nat, to: Key) {
    exists path: seq<Key> :: ZoomPath(links, dist, path, lv) && lv + |path| == top + 1 && path[0] == to && path[|path| - 1] == entry
  }

  lemma ZoomStart(links: seq<Layer>, dist: Key -> real, entry: Key, top: nat)
    requires top < |links|
    ensures Zoomed(links, dist, entry, top, top, entry)
  {
    assert ZoomPath(links, dist, [entry], top);
  }

  lemma ZoomOn(links: seq<Layer>, dist: Key -> real, entry: Key, top: nat, lv: nat, via: Key, to: Key)
    requires 0 < lv < |links| && Zoomed(links, dist, entry, top, lv, via) && Walked(links[lv], dist, via, to)
    ensures Zoomed(links, dist, entry, top, lv - 1, to)
  {
    var path: seq<Key> :| ZoomPath(links, dist, path, lv) && lv + |path| == top + 1 && path[0] == via && path[|path| - 1] == entry;
    ZoomPathOn(links, dist, path, lv, to);
    assert ([to] + path)[|path|] == entry;
  }

  lemma ZoomedFirst(links: seq<Layer>, dist: Key -> real, path: seq<Key>, lv: nat, to: Key)
    requires 0 < lv < |links| && path != [] && lv + |path| <= |links| && Walked(links[lv], dist, path[0], to)
    ensures ZoomedAt(links, dist, [to] + path, lv - 1, 0)
  {
    assert ([to] + path)[1] == path[0];
  }

  lemma ZoomedLater(links: seq<Layer>, dist: Key -> real, path: seq<Key>, lv: nat, to: Key, i: nat)
    requires 0 < lv && i + 1 < |path| && lv + |path| <= |links| && ZoomedAt(links, dist, path, lv, i)
    ensures ZoomedAt(links, dist, [to] + path, lv - 1, i + 1)
  {}

  lemma ZoomPathOn(links: seq<Layer>, dist: Key -> real, path: seq<Key>, lv: nat, to: Key)
    requires 0 < lv < |links| && ZoomPath(links, dist, path, lv) && Walked(links[lv], dist, path[0], to)
    ensures ZoomPath(links, dist, [to] + path, lv - 1)
  {
    var longer, below := [to] + path, lv - 1;
    forall i: nat | i + 1 < |longer| ensures ZoomedAt(links, dist, longer, below, i) {
      if i == 0 {
        ZoomedFirst(links, dist, path, lv, to);
      } else {
        assert ZoomedAt(links, dist, path, lv, i - 1);
        ZoomedLater(links, dist, path, lv, to, i - 1);
      }
    }
  }

  class Hnsw {
    const m: nat
    const efConstruction: nat
    const efSearch: nat
    /** The distance between two stored vectors. */
    const pair: (Key, Key) -> real
    var levels: Levels
    var links: seq<Layer>
    var deleted: set<Key>
    var entry: Option<Key>
    var maxLevel: int

    function Contents(): Graph
      reads this
    {
      Graph(levels, links, entry, maxLevel)
    }

    function Params(): Parameters {
      Parameters(m, efConstruction, pair)
    }

    predicate Valid()
      reads this
    {
      2 <= m <= efConstruction && 1 <= efSearch && WellFormed(m, levels, links, entry, maxLevel)
    }

    constructor (m: nat, efConstruction: nat, efSearch: nat, pair: (Key, Key) -> real)
      requires 2 <= m <= efConstruction && 1 <= efSearch
      ensures Valid() && Contents() == EMPTY && deleted == {}
    {
      this.m, this.efConstruction, this.efSearch, this.pair := m, efConstruction, efSearch, pair;
      levels, links, deleted, entry, maxLevel := map[], [], {}, None, -1;
    }

    method EnsureLevels(level: nat)
      modifies this`links
      ensures |links| == Max(|old(links)|, level + 1)
      ensures forall lv | 0 <= lv < |links| :: links[lv] == if lv < |old(links)| then old(links)[lv] else map[]
    {
      while |links| <= level
        invariant |old(links)| <= |links| <= Max(|old(links)|, level + 1)
        invariant forall lv | 0 <= lv < |links| :: links[lv] == if lv < |old(links)| then old(links)[lv] else map[]
      {
        links := links + [map[]];
      }
    }

    method Seed(key: Key, level: nat)
      modifies this`links
      ensures Grown(old(links), links, key, level)
    {
      EnsureLevels(level);
      ghost var ensured := links;
      for lv := 0 to level + 1
        invariant |links| == |ensured|
        invariant forall l | 0 <= l < |links| :: links[l] == if l < lv then Seeded(ensured[l], key) else ensured[l]
      {
        links := links[lv := Seeded(links[lv], key)];
      }
    }

    /** Phase 1: zooms in through the layers above the new node's level. */
    method Descend(dist: Key -> real, level: nat, ghost nodes: Levels, ghost before: seq<Layer>) returns (ep: Key, lv: int)
      requires entry.Some? && WellFormed(m, nodes, before, entry, maxLevel) && |links| >= |before|
      requires forall l: nat | level < l < |before| :: links[l] == before[l]
      ensures lv == (if level < maxLevel then level else maxLevel)
      ensures 0 <= lv < |before| && ep in before[lv] && Zoomed(before, dist, entry.value, maxLevel, lv, ep)
    {
      ep, lv := entry.value, maxLevel;
      assert Populated(nodes, before[lv], lv);
      ZoomStart(before, dist, ep, lv);
      while lv > level
        invariant (if level < maxLevel then level else maxLevel) <= lv < |before| && ep in before[lv]
        invariant lv <= maxLevel && Zoomed(before, dist, entry.value, maxLevel, lv, ep)
      {
        assert Populated(nodes, before[lv], lv) && SoundLayer(before[lv], Cap(m, lv)) && links[lv] == before[lv];
        ghost var from := ep;
        ep := GreedyDescend(links[lv], dist, ep);
        StaysInside(before[lv], before[lv].Keys, from);
        assert Populated(nodes, before[lv - 1], lv - 1);
        ZoomOn(before, dist, entry.value, maxLevel, lv, from, ep);
        lv := lv - 1;
      }
    }

    /**
     * Inserts a node that is not in the graph yet, at a level drawn by the caller.  `dist` is the
     * distance of its vector from the stored ones; `start` is where the descent leaves off.
     */
    method Add(key: Key, level: nat, dist: Key -> real) returns (ghost start: Key)
      requires Valid() && key !in levels
      modifies this
      ensures Valid() && levels == old(levels)[key := level] && deleted == old(deleted) - {key}
      ensures Inserted(Params(), old(Contents()), Newcomer(key, level, dist, start), Contents())
      ensures old(entry).Some? ==>
        Zoomed(old(links), dist, old(entry).value, old(maxLevel), if level < old(maxLevel) then level else old(maxLevel), start)
    {
      ghost var before := links;
      deleted := deleted - {key};
      levels := levels[key := level];
      Seed(key, level);
      start := key;
      if entry.None? {
        GrownInserting(before, links, Newcomer(key, level, dist, start), Params(), -1);
        InsertionKeeps(Params(), old(levels), before, entry, maxLevel, Newcomer(key, level, dist, start), links);
        entry := Some(key);
        maxLevel := level;
        return;
      }
      var ep, lv := Descend(dist, level, old(levels), before);
      start := ep;
      ghost var x := Newcomer(key, level, dist, start);
      StartFirst(before, links, x, lv);
      GrownInserting(before, links, x, Params(), lv);
      AddBelow(x, dist, key, level, ep, lv, old(levels), before);
      InsertionKeeps(Params(), old(levels), before, entry, maxLevel, x, links);
      if level > maxLevel {
        maxLevel := level;
        entry := Some(key);
      }
    }

    /** Phase 2: links the node on every layer it belongs to, from the top one down. */
    method AddBelow(ghost x: Newcomer, dist: Key -> real, key: Key, level: nat, ep0: Key, top: nat, ghost nodes: Levels, ghost before: seq<Layer>)
      requires 2 <= m <= efConstruction && WellFormed(m, nodes, before, entry, maxLevel) && key !in nodes
      requires x.key == key && x.level == level && x.dist == dist
      requires Descending(before, links, x, Params(), top, ep0)
      modifies this`links
      ensures Inserting(before, links, x, Params(), -1)
    {
      var ep, lv: int := ep0, top;
      while lv >= 0
        invariant lv <= top && Descending(before, links, x, Params(), lv, ep)
      {
        ep := AddAt(x, dist, key, level, ep, lv, nodes, before);
        lv := lv - 1;
      }
    }

    /** Phase 2 on one layer. */
    method AddAt(ghost x: Newcomer, dist: Key -> real, key: Key, level: nat, ep0: Key, lv: nat, ghost nodes: Levels, ghost before: seq<Layer>)
      returns (ep: Key)
      requires 2 <= m <= efConstruction && WellFormed(m, nodes, before, entry, maxLevel) && key !in nodes
      requires x.key == key && x.level == level && x.dist == dist
      requires Descending(before, links, x, Params(), lv, ep0)
      modifies this`links
      ensures Descending(before, links, x, Params(), lv - 1, ep)
    {
      LayerReady(Params(), nodes, before, entry, maxLevel, x, links, lv, ep0);
      var layer;
      layer, ep := InsertAt(pair, dist, links[lv], before[lv], key, ep0, efConstruction, m, Cap(m, lv));
      LayerDone(Params(), nodes, before, entry, maxLevel, x, links, lv, layer, ep);
      links := links[lv := layer];
    }

    /** Removal only marks the node. */
    method Remove(key: Key) returns (known: bool)
      modifies this`deleted
      ensures known == (key in levels) && deleted == if known then old(deleted) + {key} else old(deleted)
    {
      known := key in levels;
      if known {
        deleted := deleted + {key};
      }
    }

    /** What a search may return: not removed, and allowed by the filter. */
    function Acceptable(allow: Key -> bool): (ok: Key -> bool)
      reads this
      ensures forall k :: ok(k) <==> k !in deleted && allow(k)
    {
      var gone := deleted;
      (k: Key) => k !in gone && allow(k)
    }

    /**
     * Search over an exact space.  `start` is where the beam enters layer 0 and `visited` what it
     * saw; `best` are the `ef` best of these.  The answer is the `k` best of the acceptable nodes
     * visited; no node closer than one of the `ef` best is left with a link unvisited; and where at most
     * `ef` acceptable nodes can be reached, it is what comparing with every one of them would give.
     */
    method Search(dist: Key -> real, k: nat, ef: nat, allow: Key -> bool)
      returns (found: seq<Near>, ghost start: Key, ghost visited: set<Key>, ghost best: set<Near>)
      requires Valid()
      ensures k == 0 || entry.None? ==> found == []
      ensures k > 0 && entry.Some? ==>
        var ok, width := Acceptable(allow), Max(if ef == 0 then efSearch else ef, k);
        && start in links[0] && Zoomed(links, dist, entry.value, maxLevel, 0, start) && {start} <= visited <= Reach(links[0], {start})
        && Ascending(found) && BestOf(dist, ok, k, visited, Items(found))
        && BestOf(dist, ok, width, visited, best) && Knn(found, best, k)
        && Searched(links[0], dist, ok, width, {start}, visited, best)
        && (forall n <- visited | (exists r <- best :: dist(n) < r.d) :: Expanded(links[0], visited, n))
        && (|Accepted(dist, ok, Reach(links[0], {start}))| <= width ==>
              Knn(found, Accepted(dist, ok, Reach(links[0], {start})), k))
    {
      found, start, visited, best := [], 0, {}, {};
      if k == 0 || entry.None? {
        return;
      }
      var width := Max(if ef == 0 then efSearch else ef, k);
      var ep, lv := Descend(dist, 0, levels, links);
      start := ep;
      var ok := Acceptable(allow);
      assert Elements([ep]) == {ep} && SoundLayer(links[0], Cap(m, 0));
      var results;
      results, visited := SearchLayer(links[0], dist, ok, [ep], width);
      best := results;
      var sorted := Sort(results);
      found := if |sorted| < k then sorted else sorted[..k];
      TakeIsKnn(sorted, results, k);
      TakeBest(dist, ok, width, visited, results, found, k);
      if |Accepted(dist, ok, Reach(links[0], {start}))| <= width {
        Exhaustive(links[0], dist, ok, width, {start}, visited, results);
      }
    }
  }
}
