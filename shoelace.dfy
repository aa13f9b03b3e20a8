/** The shoelace sum behind Polygon::Area: twice the enclosed area of a closed
    polygon, from integer products of vertex coordinates. */
module Shoelace {
  import opened Geometry

  /** The vertex before vertex i on the closed polygon (the last one for i == 0). */
  function Prev(pts: seq<Point>, i: nat): Point
    requires i < |pts|
  {
    if i == 0 then pts[|pts| - 1] else pts[i - 1]
  }

  /** The term the source accumulates for the edge from p1 to p2. */
  function Term(p1: Point, p2: Point): int
  {
    (p1.x - p2.x) * (p1.y + p2.y)
  }

  /** The cross product of p1 and p2 seen as vectors from the origin. */
  function Cross(p1: Point, p2: Point): int
  {
    p1.x * p2.y - p2.x * p1.y
  }

  /** One term per vertex, for the edge that ends at that vertex. */
  function EdgeTerms(pts: seq<Point>): (r: seq<int>)
    ensures |r| == |pts|
  {
    seq(|pts|, i requires 0 <= i < |pts| => Term(Prev(pts, i), pts[i]))
  }

  /** The textbook shoelace terms, x_{i-1} * y_i - x_i * y_{i-1}. */
  function CrossTerms(pts: seq<Point>): (r: seq<int>)
    ensures |r| == |pts|
  {
    seq(|pts|, i requires 0 <= i < |pts| => Cross(Prev(pts, i), pts[i]))
  }

  function Sum(s: seq<int>): int
    decreases |s|
  {
    if s == [] then 0 else Sum(s[..|s| - 1]) + s[|s| - 1]
  }

  /** The value the source's accumulator `res` ends with. */
  function SignedDoubledArea(pts: seq<Point>): int
  {
    Sum(EdgeTerms(pts))
  }

  function Abs(v: int): nat
  {
    if v < 0 then -v else v
  }

  /** Twice the area of the polygon: `fabs(res)` before the final halving. */
  function DoubledArea(pts: seq<Point>): nat
  {
    Abs(SignedDoubledArea(pts))
  }

  /** Every vertex moved by (dx, dy). */
  function Translate(pts: seq<Point>, dx: int, dy: int): (r: seq<Point>)
    ensures |r| == |pts|
  {
    seq(|pts|, i requires 0 <= i < |pts| => Point(pts[i].x + dx, pts[i].y + dy))
  }

  lemma {:induction false} SumSnoc(s: seq<int>, v: int)
    ensures Sum(s + [v]) == Sum(s) + v
  {
    assert (s + [v])[..|s|] == s;
  }

  lemma {:induction false} SumFront(s: seq<int>)
    requires |s| > 0
    ensures Sum(s) == s[0] + Sum(s[1..])
  {
    if |s| > 1 {
      var k := |s| - 1;
      SumFront(s[..k]);
      assert s[..k][1..] == s[1..][..k - 1];
    } else {
      assert s[1..] == [];
    }
  }

  lemma {:induction false} SumPointwise(a: seq<int>, b: seq<int>, c: seq<int>)
    requires |a| == |b| == |c|
    requires forall i :: 0 <= i < |c| ==> c[i] == a[i] + b[i]
    ensures Sum(c) == Sum(a) + Sum(b)
  {
    if |c| > 0 {
      var k := |c| - 1;
      SumPointwise(a[..k], b[..k], c[..k]);
    }
  }

  lemma {:induction false} TelescopePrefix(pts: seq<Point>, g: Point -> int, d: seq<int>, k: nat)
    requires |d| == |pts| && 1 <= k <= |pts|
    requires forall i :: 0 <= i < |pts| ==> d[i] == g(Prev(pts, i)) - g(pts[i])
    ensures Sum(d[..k]) == g(pts[|pts| - 1]) - g(pts[k - 1])
  {
    if k > 1 {
      TelescopePrefix(pts, g, d, k - 1);
      assert d[..k][..k - 1] == d[..k - 1];
    } else {
      assert d[..1][..0] == [];
    }
  }

  /** Around a closed polygon, the differences g(previous vertex) - g(vertex)
      cancel out, whatever g is. */
  lemma {:induction false} CyclicTelescope(pts: seq<Point>, g: Point -> int, d: seq<int>)
    requires |d| == |pts|
    requires forall i :: 0 <= i < |pts| ==> d[i] == g(Prev(pts, i)) - g(pts[i])
    ensures Sum(d) == 0
  {
    if |pts| > 0 {
      TelescopePrefix(pts, g, d, |pts|);
      assert d[..|pts|] == d;
    }
  }

  lemma TermSplit(p1: Point, p2: Point)
    ensures Term(p1, p2) == Cross(p1, p2) + p1.x * p1.y - p2.x * p2.y
  {
    calc {
      Term(p1, p2);
      (p1.x - p2.x) * (p1.y + p2.y);
      p1.x * p1.y + p1.x * p2.y - p2.x * p1.y - p2.x * p2.y;
    }
  }

  /** The sum the source accumulates equals the textbook shoelace formula
      sum of x_{i-1} * y_i - x_i * y_{i-1} over the cyclic edge list. */
  lemma ShoelaceIsCrossSum(pts: seq<Point>)
    ensures SignedDoubledArea(pts) == Sum(CrossTerms(pts))
  {
    var g := (p: Point) => p.x * p.y;
    var d := seq(|pts|, i requires 0 <= i < |pts| => g(Prev(pts, i)) - g(pts[i]));
    CyclicTelescope(pts, g, d);
    forall i | 0 <= i < |pts|
      ensures EdgeTerms(pts)[i] == CrossTerms(pts)[i] + d[i]
    {
      TermSplit(Prev(pts, i), pts[i]);
    }
    SumPointwise(CrossTerms(pts), d, EdgeTerms(pts));
  }

  lemma TermShift(p1: Point, p2: Point, dx: int, dy: int)
    ensures Term(Point(p1.x + dx, p1.y + dy), Point(p2.x + dx, p2.y + dy))
         == Term(p1, p2) + 2 * dy * p1.x - 2 * dy * p2.x
  {
    calc {
      Term(Point(p1.x + dx, p1.y + dy), Point(p2.x + dx, p2.y + dy));
      (p1.x - p2.x) * (p1.y + p2.y + 2 * dy);
      (p1.x - p2.x) * (p1.y + p2.y) + (p1.x - p2.x) * (2 * dy);
      Term(p1, p2) + 2 * dy * p1.x - 2 * dy * p2.x;
    }
  }

  lemma TranslateTermAt(pts: seq<Point>, dx: int, dy: int, i: nat)
    requires i < |pts|
    ensures EdgeTerms(Translate(pts, dx, dy))[i]
         == EdgeTerms(pts)[i] + (2 * dy * Prev(pts, i).x - 2 * dy * pts[i].x)
  {
    var moved := Translate(pts, dx, dy);
    var p1, p2 := Prev(pts, i), pts[i];
    assert Prev(moved, i) == Point(p1.x + dx, p1.y + dy);
    assert moved[i] == Point(p2.x + dx, p2.y + dy);
    TermShift(p1, p2, dx, dy);
    assert EdgeTerms(moved)[i] == Term(Point(p1.x + dx, p1.y + dy), Point(p2.x + dx, p2.y + dy));
    assert EdgeTerms(pts)[i] == Term(p1, p2);
  }

  /** Moving the polygon does not change its signed area. */
  lemma {:induction false} ShoelaceTranslate(pts: seq<Point>, dx: int, dy: int)
    ensures SignedDoubledArea(Translate(pts, dx, dy)) == SignedDoubledArea(pts)
  {
    var moved := Translate(pts, dx, dy);
    var g := (p: Point) => 2 * dy * p.x;
    var d := seq(|pts|, i requires 0 <= i < |pts| => g(Prev(pts, i)) - g(pts[i]));
    CyclicTelescope(pts, g, d);
    forall i | 0 <= i < |pts|
      ensures EdgeTerms(moved)[i] == EdgeTerms(pts)[i] + d[i]
    {
      TranslateTermAt(pts, dx, dy, i);
    }
    SumPointwise(EdgeTerms(pts), d, EdgeTerms(moved));
  }

  /** Starting the cyclic edge list one vertex later gives the same sum. */
  lemma ShoelaceRotate(pts: seq<Point>)
    requires |pts| > 0
    ensures SignedDoubledArea(RotateLeft(pts)) == SignedDoubledArea(pts)
  {
    var n := |pts|;
    var r := RotateLeft(pts);
    var e := EdgeTerms(pts);
    forall j | 0 <= j < n
      ensures EdgeTerms(r)[j] == RotateLeft(e)[j]
    {
      assert Prev(r, j) == Prev(pts, Next(n, j));
    }
    assert EdgeTerms(r) == e[1..] + [e[0]];
    SumSnoc(e[1..], e[0]);
    SumFront(e);
  }

  /** Starting the vertex list at any vertex k gives the same sum: the area
      does not depend on which vertex is listed first. */
  lemma {:induction false} ShoelaceRotateBy(pts: seq<Point>, k: nat)
    requires k <= |pts|
    ensures SignedDoubledArea(pts[k..] + pts[..k]) == SignedDoubledArea(pts)
    decreases k
  {
    if k == 0 {
      assert pts[k..] + pts[..k] == pts;
    } else {
      ShoelaceRotateBy(pts, k - 1);
      ShoelaceRotate(pts[k-1..] + pts[..k-1]);
      RotateStep(pts, k);
    }
  }
}
