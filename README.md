# Polygon geometry of the shapes exercise, modelled in Dafny

This project models the integer core of `shape.cpp` from a small C++ teaching
repository about 2D shapes. It covers:

- `binpow`, exponentiation by squaring;
- the `Polygon` built from a list of integer points: the vertex-count check,
  the copy of the points, one side per vertex around the closed polygon, and
  the in-place sort of the sides;
- the shoelace sum behind `Polygon::Area`;
- the regularity test `Polygon::IsRegular`;
- the vertex-count checks of the `Triangle` initializer-list constructor.

The matrix exercise of the repository lives in other files and is not
modelled.

Modules and files:

- `power.dfy` (`Power`): `BinPow`, proved equal to the power function `Pow`.
  C++ `%` and `/` truncate toward zero, and the model writes that out
  (`CppRem2`, `CppHalf`). So a negative exponent never takes the odd branch,
  and `BinPow` returns 1 for it, as the C++ code does.
- `geometry.dfy` (`Geometry`): `Point`, `SquaredLength` and `CyclicSides`, the
  side list `CalcSides` produces. `ChainSides` is a second, recursive
  definition of the sides of a closed chain, and the two are proved equal.
- `shoelace.dfy` (`Shoelace`): the sum the area loop accumulates, with lemmas
  relating it to the textbook cross-product formula, to translation and to
  the choice of first vertex.
- `sorting.dfy` (`Sorting`): `Sorted`, an in-place sort on an `array<int>`,
  and facts about sorted lists and equal elements.
- `shapes.dfy` (`Shapes`): classes `Polygon` (fields `points`, `sides`) and
  `Triangle` (its `Polygon` part `base`, and `side1`..`side3`). The
  constructors that can throw are static `Create` methods returning a
  `Result`: either the new object or the `ShapeError` carrying the source's
  exception kind and message.
- `scenarios.dfy` (`Scenarios`): the values the demonstration driver
  `main.cpp` checks, derived from the contracts.
- `wrappers.dfy` (`Wrappers`): the `Result` datatype.

**Sides are squared lengths.** The source stores `sqrt(binpow(dx,2) +
binpow(dy,2))` for each side. The model stores the integer under the root.
`sqrt` is strictly increasing on non-negative numbers, so sorting the squares
gives the same order as sorting the lengths. Likewise, two squares are equal
exactly when the two lengths are equal. `Geometry.SqrtAbstraction` states
this, so `sort` and `IsRegular` behave on the model as they do on the source.
The source's `sqrt` returns a correctly rounded `double`, not an exact root.
The argument still carries over: the squared length is a 32-bit `int`, and
for integers k < m below 2^31 the gap between sqrt(k) and sqrt(m) is at least
1/(2 sqrt(m)), many units in the last place of a `double` near sqrt(m). So the
rounded roots are in the same order as the integers, and equal only when the
integers are equal; `sort` (shape.cpp:27) and the `!=` of `IsRegular`
(shape.cpp:55) see the same comparisons.

**Area** is returned as an exact `real`: half the absolute value of the
integer shoelace sum. The source keeps `res` in a `double`, but it only adds
integer products to it.

## Model

| member | source | states |
|---|---|---|
| `Power.BinPow` | shape.cpp:7-16 | for every n >= 0, binpow(a, n) is a to the power n (so binpow(a, 0) = 1); for n < 0, with C++ truncating `%` and `/`, it is 1 |
| `Power.BinPowSquare` | shape.cpp:65 | binpow(d, 2), the only use the shapes make of it, is d * d |
| `Geometry.SquaredLength` | shape.cpp:65 | the squared side length built from two binpow(_, 2) terms is dx*dx + dy*dy |
| `Geometry.SquaredLengthFacts` | shape.cpp:65 | a squared side length is non-negative, is zero only when the two points coincide, and does not depend on the direction of the side |
| `Geometry.SqrtAbstraction` | shape.cpp:65 | for non-negative lengths, s <= t iff s*s <= t*t and s == t iff s*s == t*t, so keeping squares preserves the sort order and the equality test |
| `Geometry.CyclicSidesAreClosedChain` | shape.cpp:62-70 | side j joins vertex j to vertex j+1 and the last side joins the last vertex back to vertex 0: exactly the sides of the chain p0, p1, ..., p(n-1), p0 |
| `Geometry.CyclicSidesRotate` | shape.cpp:62-70 | listing the vertices from the second one rotates the side list by one, and keeps its multiset of sides |
| `Geometry.CyclicSidesRotateBy` | shape.cpp:62-70 | listing the vertices from vertex k rotates the side list by k, and keeps its multiset of sides |
| `Shoelace.ShoelaceIsCrossSum` | shape.cpp:35-43 | the accumulated sum of (x_{i-1} - x_i)(y_{i-1} + y_i) over the cyclic edge list equals the sum of x_{i-1} y_i - x_i y_{i-1} |
| `Shoelace.ShoelaceTranslate` | shape.cpp:35-43 | moving every vertex by (dx, dy) leaves the signed doubled area unchanged |
| `Shoelace.ShoelaceRotate` | shape.cpp:37-41 | starting the cyclic edge list at the second vertex gives the same sum, so it does not matter that i = 0 takes the last point as predecessor |
| `Shoelace.ShoelaceRotateBy` | shape.cpp:35-43 | starting the vertex list at any vertex k gives the same signed sum, so the area does not depend on which vertex is listed first |
| `Sorting.SortInPlace` | shape.cpp:27 | after the sort the array is non-decreasing and a permutation of what it held |
| `Sorting.SortedPermutationUnique` | shape.cpp:27 | two sorted lists with the same elements are equal, so the sorted side list is determined by the sides |
| `Sorting.SortedAllEqual` | shape.cpp:53-60 | in a sorted non-empty list all elements are equal iff the first equals the last |
| `Sorting.AllEqualPermutation` | shape.cpp:53-60 | whether all elements are equal does not change under permutation |
| `Shapes.Polygon.Create` | shape.cpp:18-28 | fails with out_of_range and the source's message iff fewer than three points are given; otherwise the new polygon's points equal the input in order and length, and its sides are sorted and one per vertex |
| `Shapes.Polygon.FromPairs` | shape.cpp:22-27 | past the check: points are the input pairs in order, sides are sorted and a permutation of the cyclic sides |
| `Shapes.Polygon.Copy` | shape.cpp:30-33 | the copy has the same points and sides, and a copy of a constructed polygon is again a valid polygon |
| `Shapes.Polygon.CalcSides` | shape.cpp:62-70 | appends exactly the cyclic side list to `sides`: n - 1 sides between consecutive points, then the closing side |
| `Shapes.Polygon.SortSides` | shape.cpp:27 | `sides` becomes sorted non-decreasing and keeps its multiset of elements |
| `Shapes.Polygon.Area` | shape.cpp:35-43 | the returned area is half the absolute value of the shoelace sum over the cyclic edge list |
| `Shapes.Polygon.IsRegular` | shape.cpp:53-60 | true iff every side equals sides[0]; on a constructed polygon, iff all sides of the polygon are equal, iff the shortest side equals the longest |
| `Shapes.Polygon.ValidFacts` | shape.cpp:25-27 | a constructed polygon has one side per vertex, and "all sides equal" reads the same on the sorted list and on the unsorted one |
| `Shapes.SidesIndependentOfStart` | shape.cpp:25-27 | two polygons whose vertex lists differ only in the starting vertex (the second list is the first started at any vertex k) have identical sorted side lists |
| `Shapes.Triangle.Create` | shape.cpp:111-114 | fewer than three points fail with the polygon's out_of_range, more than three with runtime_error "Triangle must be 3 sides only", exactly three pass the count checks; `DoesExist` is left out (see Left out) |
| `Shapes.Triangle.OfPolygon` | shape.cpp:115-117 | side1, side2, side3 are the three sorted sides of the polygon, so side1 <= side2 <= side3 |
| `Scenarios.UnitSquareArea` | main.cpp:29 | the shoelace sum of the unit square has absolute value 2 |
| `Scenarios.RightTriangleArea` | main.cpp:28 | the shoelace sum of the triangle (0,0), (0,1), (1,0) has absolute value 1 |
| `Scenarios.UnitSquare` | main.cpp:15 | the polygon built from the unit square has area 1 |
| `Scenarios.RightTriangle` | main.cpp:14 | the triangle (0,0), (0,1), (1,0) has area 1/2 |
| `Scenarios.TwoPointTriangle` | main.cpp:39-49 | a two-point triangle is rejected, with the polygon's out_of_range |
| `Scenarios.FourPointTriangle` | shape.cpp:112-114 | a four-point triangle is rejected with the "must be 3 sides" runtime_error |

## Left out

- Side lengths as doubles: the model keeps squared integer lengths (see above) and never takes `sqrt` (shape.cpp:65, 68).
- Angles: `CalcAngles` and `CalcAngle` (shape.cpp:72-89) use `acos` on doubles, so there is no `angles` field. The copy constructor's not copying `angles` is therefore not modelled either.
- `CalcPerimeter` (shape.cpp:45-51) sums `sqrt` results as doubles.
- `Circle` and `Square` (shape.cpp:156-190), `Triangle::InscribedArea` and `Triangle::DescribedArea` (shape.cpp:147-154) use `M_PI`, `tan`, `sin` and `pow` on doubles.
- `Triangle::DoesExist` (shape.cpp:96-100) compares sums of square roots rounded to `double`. For exact lengths the strict triangle inequality could be decided on the integer squares, but the source's comparison on rounded doubles cannot be reproduced over integers. So no constructor here raises "Triangle doesn't exist", and a three-point `Triangle.Create` succeeds even for collinear points.
- The six-integer `Triangle` constructor (shape.cpp:102-108) always passes three points. Without `DoesExist`, it adds nothing to the count check.
- `Triangle::IsRight`, `IsOxygon` and `IsObtuse` (shape.cpp:121-135) read `sides[3]` of a three-element vector, which is undefined behaviour. They also pass doubles to the `int` parameter of `binpow`.
- `Polygon::IsConvex` (shape.cpp:91-93) always returns true.
- `Triangle::CheckType` (shape.cpp:137-145) and main.cpp only print to the console. main.cpp's values serve only as the scenarios above.
- Virtual dispatch through `Shape`, heap allocation and `delete` in main.cpp. The "is-a Polygon" relation of `Triangle` is modelled as a `base` field.
- Exception class hierarchy: the model distinguishes only out_of_range from runtime_error. main.cpp's two-point test passes because its inner `catch (...)` turns the out_of_range into a runtime_error.
- Power.BinPow: integers are unbounded, so the 32-bit `int` overflow of `binpow` and of the shoelace products is not modelled.
- Shapes.Polygon.Area: `res` is exact here; rounding of the `double` accumulator (for sums beyond 2^53) is not modelled.
- Shapes.Polygon.SortSides: promises the result of `std::sort` (sorted, a permutation). An insertion sort stands in for the library's algorithm. `sides` is a sequence; it is copied into an array, sorted there in place, and copied back.
- Shapes.Polygon.CalcSides requires at least one point. The source reads `points[points.size() - 1]` after its loop (shape.cpp:68), which is undefined on an empty vector. A constructed polygon always has at least three points.
- Scenarios: the regularity outputs main.cpp prints (main.cpp:61, 64) are not derived: Dafny does not finish proofs that evaluate several literal squared lengths at once.
