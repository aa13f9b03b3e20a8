/** Polygon and Triangle of shape.cpp: the vertex list, the side list the
    constructor builds and sorts, and the queries over them. Sides are held
    as squared lengths (see module Geometry). */
module Shapes {
  import opened Wrappers
  import opened Geometry
  import opened Shoelace
  import opened Sorting

  /** The exceptions the constructors throw, with the messages they carry. */
  datatype ShapeError = OutOfRange(message: string) | RuntimeError(message: string)

  const TooFewPointsMessage := "In two-dimensional space, at least three points are needed to construct the shape."
  const NotThreeSidesMessage := "Triangle must be 3 sides only"

  /** The vertex built from one (x, y) pair of the initializer list. */
  function ToPoint(pair: (int, int)): Point
  {
    Point(pair.0, pair.1)
  }

  class Polygon {
    var points: seq<Point>
    /** Squared side lengths; the source stores their square roots. */
    var sides: seq<int>

    /** What every constructed polygon satisfies: at least three vertices,
        and the sides sorted and holding exactly one side per vertex. */
    ghost predicate Valid()
      reads this
    {
      && |points| >= 3
      && Sorted(sides)
      && multiset(sides) == multiset(CyclicSides(points))
    }

    /** The initializer-list constructor: rejects fewer than three points with
        out_of_range, otherwise builds the polygon. */
    static method Create(l: seq<(int, int)>) returns (r: Result<Polygon, ShapeError>)
      ensures r.Failure? <==> |l| < 3
      ensures r.Failure? ==> r.error == OutOfRange(TooFewPointsMessage)
      ensures r.Success? ==> fresh(r.value) && r.value.Valid()
      ensures r.Success? ==> |r.value.points| == |l|
      ensures r.Success? ==> forall i :: 0 <= i < |l| ==> r.value.points[i] == ToPoint(l[i])
    {
      if |l| < 3 {
        return Failure(OutOfRange(TooFewPointsMessage));
      }
      var p := new Polygon.FromPairs(l);
      return Success(p);
    }

    /** The initializer-list constructor past its vertex-count check: copies
        the points in order, computes one side per vertex and sorts them. */
    constructor FromPairs(l: seq<(int, int)>)
      requires |l| >= 3
      ensures Valid()
      ensures |points| == |l|
      ensures forall i :: 0 <= i < |l| ==> points[i] == ToPoint(l[i])
    {
      points := [];
      sides := [];
      new;
      var i := 0;
      while i < |l|
        invariant 0 <= i <= |l|
        invariant |points| == i
        invariant forall k :: 0 <= k < i ==> points[k] == ToPoint(l[k])
        invariant sides == []
      {
        points := points + [ToPoint(l[i])];
        i := i + 1;
      }
      CalcSides();
      SortSides();
    }

    /** The copy constructor: copies the points and the sorted sides. */
    constructor Copy(obj: Polygon)
      ensures points == obj.points && sides == obj.sides
      ensures obj.Valid() ==> Valid()
    {
      points := obj.points;
      sides := obj.sides;
    }

    /** Appends one side per vertex: n - 1 sides joining consecutive vertices,
        then the side from the last vertex back to the first. */
    method CalcSides()
      requires |points| > 0
      modifies this`sides
      ensures sides == old(sides) + CyclicSides(points)
    {
      ghost var all := CyclicSides(points);
      var i := 1;
      while i < |points|
        invariant 1 <= i <= |points|
        invariant sides == old(sides) + all[..i - 1]
      {
        assert all[..i] == all[..i - 1] + [all[i - 1]];
        sides := sides + [SquaredLength(points[i - 1], points[i])];
        i := i + 1;
      }
      assert all == all[..|points| - 1] + [all[|points| - 1]];
      sides := sides + [SquaredLength(points[|points| - 1], points[0])];
    }

    /** `sort(sides.begin(), sides.end())`: sorts the side list in place. */
    method SortSides()
      modifies this`sides
      ensures Sorted(sides)
      ensures multiset(sides) == multiset(old(sides))
    {
      var a := new int[|sides|];
      forall k | 0 <= k < a.Length {
        a[k] := sides[k];
      }
      assert a[..] == sides;
      SortInPlace(a);
      sides := a[..];
    }

    /** The area: half the absolute value of the shoelace sum, accumulated
        edge by edge with the last vertex as predecessor of the first. */
    method Area() returns (area: real)
      ensures area == DoubledArea(points) as real / 2.0
    {
      var res := 0;
      var i := 0;
      while i < |points|
        invariant 0 <= i <= |points|
        invariant res == Sum(EdgeTerms(points)[..i])
      {
        var p1 := if i > 0 then points[i - 1] else points[|points| - 1];
        var p2 := points[i];
        assert EdgeTerms(points)[..i + 1][..i] == EdgeTerms(points)[..i];
        res := res + (p1.x - p2.x) * (p1.y + p2.y);
        i := i + 1;
      }
      assert EdgeTerms(points)[..i] == EdgeTerms(points);
      area := (if res < 0 then -res else res) as real / 2.0;
    }

    /** True exactly when every side equals the first; on a constructed
        polygon, exactly when all sides of the polygon are equal, which for
        the sorted list means the shortest side equals the longest. */
    method IsRegular() returns (regular: bool)
      ensures regular <==> AllEqual(sides)
      ensures Valid() ==> (regular <==> AllEqual(CyclicSides(points)))
      ensures Valid() ==> (regular <==> sides[0] == sides[|sides| - 1])
    {
      var i := 1;
      while i < |sides|
        invariant 1 <= i
        invariant forall k :: 0 <= k < i && k < |sides| ==> sides[k] == sides[0]
      {
        if sides[0] != sides[i] {
          regular := false;
          ValidFacts();
          return;
        }
        i := i + 1;
      }
      regular := true;
      ValidFacts();
    }

    /** On a constructed polygon there is one side per vertex, and whether all
        sides are equal can be read off the sorted list or the unsorted one. */
    lemma ValidFacts()
      ensures Valid() ==> |sides| == |points|
      ensures Valid() ==> (AllEqual(sides) <==> AllEqual(CyclicSides(points)))
      ensures Valid() ==> (AllEqual(sides) <==> sides[0] == sides[|sides| - 1])
    {
      if Valid() {
        assert |sides| == |multiset(sides)| == |multiset(CyclicSides(points))| == |points|;
        AllEqualPermutation(sides, CyclicSides(points));
        SortedAllEqual(sides);
      }
    }
  }

  /** A polygon whose vertex list starts at any other vertex has the same
      sorted side list: the sides depend on the polygon, not on where its list
      starts. */
  lemma SidesIndependentOfStart(p: Polygon, q: Polygon, k: nat)
    requires p.Valid() && q.Valid()
    requires k <= |p.points| && q.points == p.points[k..] + p.points[..k]
    ensures q.sides == p.sides
  {
    CyclicSidesRotateBy(p.points, k);
    SortedPermutationUnique(q.sides, p.sides);
  }

  class Triangle {
    /** The Polygon part of the triangle. */
    const base: Polygon
    var side1: int
    var side2: int
    var side3: int

    ghost predicate Valid()
      reads this, base
    {
      && base.Valid()
      && |base.points| == 3
      && |base.sides| == 3
      && side1 == base.sides[0]
      && side2 == base.sides[1]
      && side3 == base.sides[2]
    }

    /** The initializer-list constructor: the polygon check rejects fewer than
        three points with out_of_range, then more than three points are
        rejected with runtime_error. The existence check that follows in the
        source is not modelled, so three points always succeed here. */
    static method Create(l: seq<(int, int)>) returns (r: Result<Triangle, ShapeError>)
      ensures r.Success? <==> |l| == 3
      ensures |l| < 3 ==> r == Failure(OutOfRange(TooFewPointsMessage))
      ensures |l| > 3 ==> r == Failure(RuntimeError(NotThreeSidesMessage))
      ensures r.Success? ==> fresh(r.value) && fresh(r.value.base) && r.value.Valid()
      ensures r.Success? ==> forall i :: 0 <= i < 3 ==> r.value.base.points[i] == ToPoint(l[i])
    {
      var made := Polygon.Create(l);
      if made.Failure? {
        return Failure(made.error);
      }
      if |l| != 3 {
        return Failure(RuntimeError(NotThreeSidesMessage));
      }
      var t := new Triangle.OfPolygon(made.value);
      return Success(t);
    }

    /** The rest of the constructor: the three sorted sides of the polygon
        become side1 <= side2 <= side3. */
    constructor OfPolygon(p: Polygon)
      requires p.Valid() && |p.points| == 3
      ensures base == p && Valid()
      ensures side1 <= side2 <= side3
    {
      p.ValidFacts();
      base := p;
      side1 := p.sides[0];
      side2 := p.sides[1];
      side3 := p.sides[2];
    }
  }
}
