/** Vectors over exact reals: inner product, squared distance, sums. */
module Vectors {
  type Vec = seq<real>

  function Dot(a: Vec, b: Vec): real
    requires |a| == |b|
    decreases |a|
  {
    if a == [] then 0.0 else Dot(a[..|a| - 1], b[..|b| - 1]) + a[|a| - 1] * b[|b| - 1]
  }

  function Square(x: real): real { x * x }

  function Dist2(a: Vec, b: Vec): real
    requires |a| == |b|
    decreases |a|
  {
    if a == [] then 0.0 else Dist2(a[..|a| - 1], b[..|b| - 1]) + Square(a[|a| - 1] - b[|b| - 1])
  }

  /** Squared distances computed from inner products, as the source does. */
  function Expanded(a: Vec, b: Vec): real
    requires |a| == |b|
  {
    Dot(a, a) - 2.0 * Dot(a, b) + Dot(b, b)
  }

  lemma SquareOfDifference(x: real, y: real)
    ensures Square(x - y) == x * x - 2.0 * (x * y) + y * y
  {}

  lemma SquareNonNegative(x: real)
    ensures Square(x) >= 0.0
  {}

  lemma {:induction false} ExpandedIsDist2(a: Vec, b: Vec)
    requires |a| == |b|
    ensures Expanded(a, b) == Dist2(a, b)
    decreases |a|
  {
    if a != [] {
      var n := |a| - 1;
      ExpandedIsDist2(a[..n], b[..n]);
      SquareOfDifference(a[n], b[n]);
    }
  }

  lemma {:induction false} Dist2NonNegative(a: Vec, b: Vec)
    requires |a| == |b|
    ensures Dist2(a, b) >= 0.0
    decreases |a|
  {
    if a != [] {
      Dist2NonNegative(a[..|a| - 1], b[..|b| - 1]);
      SquareNonNegative(a[|a| - 1] - b[|b| - 1]);
    }
  }

  lemma {:induction false} Dist2Self(a: Vec)
    ensures Dist2(a, a) == 0.0
    decreases |a|
  {
    if a != [] {
      Dist2Self(a[..|a| - 1]);
    }
  }

  lemma ProductPositive(x: real, y: real, z: real)
    requires x > 0.0 && y > 0.0 && z == x * y
    ensures z > 0.0
  {}

  lemma SquareEven(x: real)
    ensures Square(-x) == Square(x)
  {}

  lemma SquarePositive(x: real)
    requires x != 0.0
    ensures Square(x) > 0.0
  {
    var y := if x > 0.0 then x else -x;
    SquareEven(x);
    ProductPositive(y, y, Square(y));
  }

  /** Only equal vectors are at distance zero. */
  lemma {:induction false} Dist2Zero(a: Vec, b: Vec)
    requires |a| == |b| && Dist2(a, b) == 0.0
    ensures a == b
    decreases |a|
  {
    if a != [] {
      var n := |a| - 1;
      Dist2NonNegative(a[..n], b[..n]);
      SquareNonNegative(a[n] - b[n]);
      if a[n] != b[n] {
        SquarePositive(a[n] - b[n]);
      }
      Dist2Zero(a[..n], b[..n]);
      assert a == a[..n] + [a[n]] && b == b[..n] + [b[n]];
    }
  }

  lemma {:induction false} DotAppend(a: Vec, b: Vec, c: Vec, d: Vec)
    requires |a| == |b| && |c| == |d|
    ensures Dot(a + c, b + d) == Dot(a, b) + Dot(c, d)
    decreases |c|
  {
    if c == [] {
      assert a + c == a && b + d == b;
    } else {
      var n := |c| - 1;
      DotAppend(a, b, c[..n], d[..n]);
      assert (a + c)[..|a + c| - 1] == a + c[..n] && (b + d)[..|b + d| - 1] == b + d[..n];
    }
  }

  lemma {:induction false} Dist2Append(a: Vec, b: Vec, c: Vec, d: Vec)
    requires |a| == |b| && |c| == |d|
    ensures Dist2(a + c, b + d) == Dist2(a, b) + Dist2(c, d)
    decreases |c|
  {
    if c == [] {
      assert a + c == a && b + d == b;
    } else {
      var n := |c| - 1;
      Dist2Append(a, b, c[..n], d[..n]);
      assert (a + c)[..|a + c| - 1] == a + c[..n] && (b + d)[..|b + d| - 1] == b + d[..n];
    }
  }

  /** The first of the smallest. */
  method ArgMin(d: seq<real>) returns (j: nat)
    requires d != []
    ensures IsArgMin(d, j)
  {
    j := 0;
    for i := 1 to |d|
      invariant j < i && (forall x | 0 <= x < i :: d[j] <= d[x]) && forall x | 0 <= x < j :: d[j] < d[x]
    {
      if d[i] < d[j] {
        j := i;
      }
    }
  }

  predicate IsArgMin(d: seq<real>, j: nat) {
    j < |d| && (forall x | 0 <= x < |d| :: d[j] <= d[x]) && forall x | 0 <= x < j :: d[j] < d[x]
  }
}
