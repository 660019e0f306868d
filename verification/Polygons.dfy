/** Polygons with holes: containment, area, and why nothing is contained outside the bounding box. */
module Polygons {
  import opened Wrappers
  import opened Plane
  import opened Rings

  /** Inside the exterior ring and inside none of the holes. */
  predicate Encloses(polygon: Polygon, p: Point) {
    && polygon != []
    && Inside(polygon[0], p)
    && OutsideHoles(polygon, |polygon|, p)
  }

  predicate OutsideHoles(polygon: Polygon, n: nat, p: Point)
    requires n <= |polygon|
  {
    forall h | 1 <= h < n :: !Inside(polygon[h], p)
  }

  method PolygonContains(polygon: Polygon, p: Point) returns (contains: bool)
    requires polygon != []
    ensures contains == Encloses(polygon, p)
  {
    var exterior := RingContains(polygon[0], p);
    if !exterior {
      return false;
    }
    for h := 1 to |polygon|
      invariant OutsideHoles(polygon, h, p)
    {
      var hole := RingContains(polygon[h], p);
      if hole {
        return false;
      }
    }
    return true;
  }

  function RingSize(ring: Ring): real {
    Abs(SignedArea(ring))
  }

  /** The exterior's area less the area of the holes before position `n`. */
  function AreaLeft(polygon: Polygon, n: nat): real
    requires 1 <= n <= |polygon|
  {
    if n == 1 then RingSize(polygon[0]) else AreaLeft(polygon, n - 1) - RingSize(polygon[n - 1])
  }

  /** The exterior's area less the area of all holes, never below zero. */
  function NetArea(polygon: Polygon): real {
    if polygon == [] then 0.0 else Max(AreaLeft(polygon, |polygon|), 0.0)
  }

  method PolygonArea(polygon: Polygon) returns (area: real)
    ensures area == NetArea(polygon)
  {
    if polygon == [] {
      return 0.0;
    }
    area := RingArea(polygon[0]);
    area := Abs(area);
    for h := 1 to |polygon|
      invariant area == AreaLeft(polygon, h)
    {
      var hole := RingArea(polygon[h]);
      area := area - Abs(hole);
    }
    area := Max(area, 0.0);
  }

  // ---------- The bounding box encloses everything ----------

  ghost predicate AllWithin(walk: seq<Point>, b: Bounds) {
    forall p | p in walk :: b.Contains(p)
  }

  lemma {:induction false} NoCrossingAboveOrBelow(walk: seq<Point>, b: Bounds, p: Point)
    requires AllWithin(walk, b)
    requires p.y < b.minY || b.maxY <= p.y
    ensures !OddCrossings(walk, p)
  {
    if |walk| >= 2 {
      NoCrossingAboveOrBelow(walk[1..], b, p);
      assert b.Contains(walk[0]) && b.Contains(walk[1]);
    }
  }

  lemma {:induction false} NoCrossingFromTheRight(walk: seq<Point>, b: Bounds, p: Point)
    requires AllWithin(walk, b)
    requires b.maxX <= p.x
    ensures !OddCrossings(walk, p)
  {
    if |walk| >= 2 {
      NoCrossingFromTheRight(walk[1..], b, p);
      assert b.Contains(walk[0]) && b.Contains(walk[1]);
      if Straddles(walk[1], walk[0], p.y) {
        MeetsBetween(walk[1], walk[0], p.y);
      }
    }
  }

  /** From the left every straddling edge counts, so only the two ends of the walk matter. */
  lemma {:induction false} CrossingsFromTheLeft(walk: seq<Point>, b: Bounds, p: Point)
    requires walk != [] && AllWithin(walk, b)
    requires p.x < b.minX
    ensures OddCrossings(walk, p) == Straddles(walk[0], walk[|walk| - 1], p.y)
  {
    if |walk| >= 2 {
      CrossingsFromTheLeft(walk[1..], b, p);
      assert b.Contains(walk[0]) && b.Contains(walk[1]);
      if Straddles(walk[1], walk[0], p.y) {
        MeetsBetween(walk[1], walk[0], p.y);
      }
    }
  }

  predicate InHalfOpenBox(b: Bounds, p: Point) {
    b.minX <= p.x < b.maxX && b.minY <= p.y < b.maxY
  }

  /** A ring contains no point outside the half-open box of its positions. */
  lemma RingStaysInItsBox(ring: Ring, b: Bounds, p: Point)
    requires AllWithin(ring, b)
    requires Inside(ring, p)
    ensures InHalfOpenBox(b, p)
  {
    var walk := Closed(ring);
    if !InHalfOpenBox(b, p) {
      if p.y < b.minY || b.maxY <= p.y {
        NoCrossingAboveOrBelow(walk, b, p);
      } else if b.maxX <= p.x {
        NoCrossingFromTheRight(walk, b, p);
      } else {
        CrossingsFromTheLeft(walk, b, p);
      }
    }
  }

  lemma {:induction false} RingWithinVertices(polygon: Polygon, i: nat, p: Point)
    requires i < |polygon| && p in polygon[i]
    ensures p in Vertices(polygon)
  {
    if i < |polygon| - 1 {
      RingWithinVertices(polygon[..|polygon| - 1], i, p);
    }
  }

  /** A polygon contains no point outside the half-open bounding box of all its rings. */
  lemma PolygonStaysInItsBox(polygon: Polygon, p: Point)
    requires Encloses(polygon, p)
    ensures BoundsOf(Vertices(polygon)).Some?
    ensures InHalfOpenBox(BoundsOf(Vertices(polygon)).value, p)
  {
    BoundsAreTheHull(Vertices(polygon));
    if polygon[0] != [] {
      RingWithinVertices(polygon, 0, polygon[0][0]);
    }
    var b := BoundsOf(Vertices(polygon)).value;
    forall v | v in polygon[0]
      ensures b.Contains(v)
    {
      RingWithinVertices(polygon, 0, v);
    }
    RingStaysInItsBox(polygon[0], b, p);
  }
}
