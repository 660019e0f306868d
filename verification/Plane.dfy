/**
 Projected survey geometry: points in metres, rings, polygons with holes, lines and tracks.
 Coordinates are exact reals.
 */
module Plane {
  import opened Wrappers

  datatype Point = Point(x: real, y: real)

  type Ring = seq<Point>

  /** An exterior ring followed by its holes. */
  type Polygon = seq<Ring>

  type Line = seq<Point>

  datatype Track = Track(runId: nat, lines: seq<Line>, swath: real)

  datatype Bounds = Bounds(minX: real, minY: real, maxX: real, maxY: real) {
    function Width(): real { maxX - minX }

    function Height(): real { maxY - minY }

    predicate Contains(p: Point) {
      minX <= p.x <= maxX && minY <= p.y <= maxY
    }

    predicate Within(outer: Bounds) {
      outer.minX <= minX && outer.minY <= minY && maxX <= outer.maxX && maxY <= outer.maxY
    }
  }

  function Abs(a: real): real {
    if a < 0.0 then -a else a
  }

  function Min(a: real, b: real): real {
    if a <= b then a else b
  }

  function Max(a: real, b: real): real {
    if a <= b then b else a
  }

  /** The smallest box around a box and one more box; `None` is the empty box. */
  function Join(b: Option<Bounds>, c: Bounds): Bounds {
    match b
    case None => c
    case Some(b) => Bounds(Min(b.minX, c.minX), Min(b.minY, c.minY), Max(b.maxX, c.maxX), Max(b.maxY, c.maxY))
  }

  function PointBox(p: Point): Bounds {
    Bounds(p.x, p.y, p.x, p.y)
  }

  /** Every point lies inside the box, and every side of the box holds one of them. */
  ghost predicate IsHullOf(b: Bounds, points: seq<Point>) {
    && (forall p | p in points :: b.Contains(p))
    && (exists p :: p in points && p.x == b.minX)
    && (exists p :: p in points && p.y == b.minY)
    && (exists p :: p in points && p.x == b.maxX)
    && (exists p :: p in points && p.y == b.maxY)
  }

  /** The bounding box of a list of points; `None` is the inverted infinite box of no points at all. */
  ghost function BoundsOf(points: seq<Point>): Option<Bounds> {
    if points == [] then None
    else Some(Join(BoundsOf(points[..|points| - 1]), PointBox(points[|points| - 1])))
  }

  lemma {:induction false} BoundsAreTheHull(points: seq<Point>)
    ensures BoundsOf(points).None? <==> points == []
    ensures BoundsOf(points).Some? ==> IsHullOf(BoundsOf(points).value, points)
  {
    if points != [] {
      var last := |points| - 1;
      BoundsAreTheHull(points[..last]);
      JoinPoint(BoundsOf(points[..last]), points[..last], points[last]);
      assert points[..last] + [points[last]] == points;
    }
  }

  lemma JoinPoint(b: Option<Bounds>, points: seq<Point>, p: Point)
    requires b.None? ==> points == []
    requires b.Some? ==> IsHullOf(b.value, points)
    ensures IsHullOf(Join(b, PointBox(p)), points + [p])
  {
    var all := points + [p];
    assert p in all;
    match b
    case None =>
    case Some(b) =>
      var x0 :| x0 in points && x0.x == b.minX;
      var y0 :| y0 in points && y0.y == b.minY;
      var x1 :| x1 in points && x1.x == b.maxX;
      var y1 :| y1 in points && y1.y == b.maxY;
      assert x0 in all && y0 in all && x1 in all && y1 in all;
  }

  lemma BoundsOfMore(points: seq<Point>, p: Point)
    ensures BoundsOf(points + [p]) == Some(Join(BoundsOf(points), PointBox(p)))
  {
    assert (points + [p])[..|points|] == points;
  }

  /** All positions of a polygon, ring after ring. */
  ghost function Vertices(polygon: Polygon): seq<Point> {
    if polygon == [] then [] else Vertices(polygon[..|polygon| - 1]) + polygon[|polygon| - 1]
  }

  /** The positions met before position `j` of ring `i`. */
  ghost function VerticesBefore(polygon: Polygon, i: nat, j: nat): seq<Point>
    requires i < |polygon| && j <= |polygon[i]|
  {
    Vertices(polygon[..i]) + polygon[i][..j]
  }

  lemma NextVertex(polygon: Polygon, i: nat, j: nat)
    requires i < |polygon| && j < |polygon[i]|
    ensures BoundsOf(VerticesBefore(polygon, i, j + 1))
         == Some(Join(BoundsOf(VerticesBefore(polygon, i, j)), PointBox(polygon[i][j])))
  {
    BoundsOfMore(VerticesBefore(polygon, i, j), polygon[i][j]);
    assert polygon[i][..j + 1] == polygon[i][..j] + [polygon[i][j]];
    assert VerticesBefore(polygon, i, j + 1) == VerticesBefore(polygon, i, j) + [polygon[i][j]];
  }

  lemma NextRing(polygon: Polygon, i: nat)
    requires i < |polygon|
    ensures VerticesBefore(polygon, i, 0) == Vertices(polygon[..i])
    ensures VerticesBefore(polygon, i, |polygon[i]|) == Vertices(polygon[..i + 1])
  {
    assert polygon[..i + 1][..i] == polygon[..i];
    assert polygon[i][..|polygon[i]|] == polygon[i];
  }

  /** The bounding box of a polygon, holes included. */
  method PolygonBounds(polygon: Polygon) returns (b: Option<Bounds>)
    ensures b == BoundsOf(Vertices(polygon))
  {
    b := None;
    for i := 0 to |polygon|
      invariant b == BoundsOf(Vertices(polygon[..i]))
    {
      NextRing(polygon, i);
      for j := 0 to |polygon[i]|
        invariant b == BoundsOf(VerticesBefore(polygon, i, j))
      {
        NextVertex(polygon, i, j);
        b := Some(Join(b, PointBox(polygon[i][j])));
      }
    }
    assert polygon[..|polygon|] == polygon;
  }
}
