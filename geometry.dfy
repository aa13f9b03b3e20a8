/** Points of the integer plane and the sides of a closed polygon over them.
    A side is represented by its squared length: the source takes `sqrt` of
    exactly this integer, and `sqrt` is strictly increasing on the
    non-negative numbers, so ordering and comparing squared lengths orders and
    compares the lengths themselves (see SqrtAbstraction). */
module Geometry {
  import opened Power

  /** A vertex with integer coordinates (struct Point of shape.hpp). */
  datatype Point = Point(x: int, y: int)

  /** The squared distance between p and q, as the source builds it from two
      `binpow(_, 2)` terms before taking the square root. */
  function SquaredLength(p: Point, q: Point): (r: int)
    ensures r == (p.x - q.x) * (p.x - q.x) + (p.y - q.y) * (p.y - q.y)
  {
    BinPowSquare(p.x - q.x);
    BinPowSquare(p.y - q.y);
    BinPow(p.x - q.x, 2) + BinPow(p.y - q.y, 2)
  }

  /** A squared length is never negative, is zero only between equal points,
      and does not depend on the direction the side is walked. */
  lemma SquaredLengthFacts(p: Point, q: Point)
    ensures SquaredLength(p, q) >= 0
    ensures SquaredLength(p, q) == 0 <==> p == q
    ensures SquaredLength(p, q) == SquaredLength(q, p)
  {
    SquareNonNegative(p.x - q.x);
    SquareNonNegative(p.y - q.y);
    assert (q.x - p.x) * (q.x - p.x) == (p.x - q.x) * (p.x - q.x);
    assert (q.y - p.y) * (q.y - p.y) == (p.y - q.y) * (p.y - q.y);
  }

  lemma SquareNonNegative(d: int)
    ensures d * d >= 0
    ensures d * d == 0 <==> d == 0
  {
    if d > 0 {
      assert d * d >= d;
    } else if d < 0 {
      assert d * d == (-d) * (-d);
      assert (-d) * (-d) >= -d;
    }
  }

  /** Comparing lengths through their squares is exact: for non-negative
      lengths s and t, s <= t exactly when s*s <= t*t, and s == t exactly when
      s*s == t*t. The roots are exact reals here; correctly rounded roots of
      distinct 32-bit squares are still distinct and in the same order, as
      their exact roots lie many units in the last place apart. */
  lemma SqrtAbstraction(s: real, t: real)
    requires s >= 0.0 && t >= 0.0
    ensures s <= t <==> s * s <= t * t
    ensures s == t <==> s * s == t * t
  {
    if s < t {
      StrictSquare(s, t);
    } else if t < s {
      StrictSquare(t, s);
    }
  }

  lemma StrictSquare(s: real, t: real)
    requires 0.0 <= s < t
    ensures s * s < t * t
  {
    var ss, st, tt := s * s, s * t, t * t;
    assert ss <= st;
    assert st < tt;
  }

  /** The index of the vertex that follows vertex j on a closed polygon of n vertices. */
  function Next(n: nat, j: nat): (k: nat)
    requires j < n
    ensures k < n
  {
    if j + 1 < n then j + 1 else 0
  }

  /** The same cyclic sequence started one element later. */
  function RotateLeft<T>(s: seq<T>): (r: seq<T>)
    requires |s| > 0
    ensures |r| == |s|
    ensures forall j :: 0 <= j < |s| ==> r[j] == s[Next(|s|, j)]
  {
    s[1..] + [s[0]]
  }

  /** The sides CalcSides produces, in the order it appends them: side j joins
      vertex j to vertex j + 1, and the last side closes the polygon by joining
      the last vertex back to the first. */
  function CyclicSides(pts: seq<Point>): (r: seq<int>)
    ensures |r| == |pts|
  {
    seq(|pts|, j requires 0 <= j < |pts| => SquaredLength(pts[j], pts[Next(|pts|, j)]))
  }

  /** Reference definition: the sides of an open polygonal chain, one per pair
      of consecutive points. */
  function ChainSides(q: seq<Point>): seq<int>
    decreases |q|
  {
    if |q| < 2 then [] else [SquaredLength(q[0], q[1])] + ChainSides(q[1..])
  }

  lemma {:induction false} ChainSidesAt(q: seq<Point>, j: nat)
    requires j + 1 < |q|
    ensures |ChainSides(q)| == |q| - 1
    ensures ChainSides(q)[j] == SquaredLength(q[j], q[j + 1])
  {
    if j == 0 {
      if |q| > 2 {
        ChainSidesAt(q[1..], 0);
      }
    } else {
      ChainSidesAt(q[1..], j - 1);
    }
  }

  /** The sides of the polygon are those of the chain that walks the vertices
      in order and returns to the first one. */
  lemma CyclicSidesAreClosedChain(pts: seq<Point>)
    requires |pts| > 0
    ensures CyclicSides(pts) == ChainSides(pts + [pts[0]])
  {
    var q := pts + [pts[0]];
    ChainSidesAt(q, 0);
    forall j | 0 <= j < |pts|
      ensures CyclicSides(pts)[j] == ChainSides(q)[j]
    {
      ChainSidesAt(q, j);
    }
  }

  /** Starting the vertex list one vertex later rotates the side list by one:
      the polygon has the same sides whichever vertex comes first. */
  lemma CyclicSidesRotate(pts: seq<Point>)
    requires |pts| > 0
    ensures CyclicSides(RotateLeft(pts)) == RotateLeft(CyclicSides(pts))
    ensures multiset(CyclicSides(RotateLeft(pts))) == multiset(CyclicSides(pts))
  {
    var n := |pts|;
    var r := RotateLeft(pts);
    forall j | 0 <= j < n
      ensures CyclicSides(r)[j] == RotateLeft(CyclicSides(pts))[j]
    {
      assert r[Next(n, j)] == pts[Next(n, Next(n, j))];
    }
    var s := CyclicSides(pts);
    assert s == [s[0]] + s[1..];
  }

  /** Rotating left once more turns the list that starts at position k - 1
      into the list that starts at position k. */
  lemma RotateStep<T>(s: seq<T>, k: nat)
    requires 0 < k <= |s|
    ensures RotateLeft(s[k-1..] + s[..k-1]) == s[k..] + s[..k]
  {
    var t := s[k-1..] + s[..k-1];
    assert t[0] == s[k-1];
    assert t[1..] == s[k..] + s[..k-1];
    assert s[..k] == s[..k-1] + [s[k-1]];
  }

  /** A rotation keeps the multiset of elements. */
  lemma RotateMultiset<T>(s: seq<T>, k: nat)
    requires k <= |s|
    ensures multiset(s[k..] + s[..k]) == multiset(s)
  {
    assert s == s[..k] + s[k..];
  }

  /** Listing the vertices from vertex k rotates the side list by k, and so
      keeps its multiset of sides. */
  lemma {:induction false} CyclicSidesRotateBy(pts: seq<Point>, k: nat)
    requires k <= |pts|
    ensures CyclicSides(pts[k..] + pts[..k]) == CyclicSides(pts)[k..] + CyclicSides(pts)[..k]
    ensures multiset(CyclicSides(pts[k..] + pts[..k])) == multiset(CyclicSides(pts))
    decreases k
  {
    var s := CyclicSides(pts);
    var cur := pts[k..] + pts[..k];
    if k == 0 {
      assert cur == pts;
      assert s[k..] + s[..k] == s;
    } else {
      var prev := pts[k-1..] + pts[..k-1];
      CyclicSidesRotateBy(pts, k - 1);
      assert CyclicSides(prev) == s[k-1..] + s[..k-1];
      CyclicSidesRotate(prev);
      RotateStep(pts, k);
      assert RotateLeft(prev) == cur;
      RotateStep(s, k);
    }
    RotateMultiset(s, k);
  }
}
