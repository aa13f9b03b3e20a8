/** The expected values the demonstration driver main.cpp checks, derived
    from the model's contracts. */
module Scenarios {
  import opened Wrappers
  import opened Geometry
  import opened Shoelace
  import opened Shapes

  function UnitSquarePoints(): seq<Point>
  {
    [Point(0, 0), Point(0, 1), Point(1, 1), Point(1, 0)]
  }

  function RightTrianglePoints(): seq<Point>
  {
    [Point(0, 0), Point(0, 1), Point(1, 0)]
  }

  lemma SumOfLiterals()
    ensures Sum([0, 0, -1]) == -1
    ensures Sum([0, 0, -2, 0]) == -2
  {
    assert [] + [0] == [0];
    SumSnoc([], 0);
    assert [0] + [0] == [0, 0];
    SumSnoc([0], 0);
    assert [0, 0] + [-1] == [0, 0, -1];
    SumSnoc([0, 0], -1);
    assert [0, 0] + [-2] == [0, 0, -2];
    SumSnoc([0, 0], -2);
    assert [0, 0, -2] + [0] == [0, 0, -2, 0];
    SumSnoc([0, 0, -2], 0);
  }

  /** The unit square's shoelace sum is 2. */
  lemma UnitSquareArea()
    ensures DoubledArea(UnitSquarePoints()) == 2
  {
    var e := EdgeTerms(UnitSquarePoints());
    assert e == [0, 0, -2, 0];
    SumOfLiterals();
  }

  /** The right triangle's shoelace sum is 1. */
  lemma RightTriangleArea()
    ensures DoubledArea(RightTrianglePoints()) == 1
  {
    var e := EdgeTerms(RightTrianglePoints());
    assert e == [0, 0, -1];
    SumOfLiterals();
  }

  /** The driver's unit square (0,0), (0,1), (1,1), (1,0) has area 1. */
  method UnitSquare() returns (area: real)
    ensures area == 1.0
  {
    var made := Polygon.Create([(0, 0), (0, 1), (1, 1), (1, 0)]);
    var square := made.value;
    assert square.points == UnitSquarePoints();
    area := square.Area();
    UnitSquareArea();
  }

  /** The driver's triangle (0,0), (0,1), (1,0) has area 1/2. */
  method RightTriangle() returns (area: real)
    ensures area == 0.5
  {
    var made := Triangle.Create([(0, 0), (0, 1), (1, 0)]);
    var p := made.value.base;
    assert p.points == RightTrianglePoints();
    area := p.Area();
    RightTriangleArea();
  }

  /** A triangle given two points is rejected. */
  method TwoPointTriangle() returns (r: Result<Triangle, ShapeError>)
    ensures r.Failure?
    ensures r.error == OutOfRange(TooFewPointsMessage)
  {
    r := Triangle.Create([(0, 0), (0, 1)]);
  }

  /** A triangle given four points is rejected once the polygon is built. */
  method FourPointTriangle() returns (r: Result<Triangle, ShapeError>)
    ensures r.Failure?
    ensures r.error == RuntimeError(NotThreeSidesMessage)
  {
    r := Triangle.Create([(0, 0), (0, 1), (1, 1), (1, 0)]);
  }
}
