/** Rectangular boundaries: their box, what they contain, their area. */
module Rectangles {
  import opened Wrappers
  import opened Plane
  import opened Rings
  import opened Polygons

  predicate HasArea(b: Bounds) {
    b.minX < b.maxX && b.minY < b.maxY
  }

  function RectangleOf(b: Bounds): Polygon {
    [Rectangle(b)]
  }

  lemma RectangleFacts(b: Bounds)
    requires HasArea(b)
    ensures BoundsOf(Vertices(RectangleOf(b))) == Some(b)
    ensures forall p :: Encloses(RectangleOf(b), p) <==> InHalfOpenBox(b, p)
    ensures NetArea(RectangleOf(b)) == b.Width() * b.Height()
  {
    hide Inside, SignedArea, Rectangle, BoundsOf, IsHullOf;
    assert Vertices(RectangleOf(b)) == Rectangle(b);
    RectangleHasPositions(b);
    BoundsAreTheHull(Rectangle(b));
    HullOfRectangle(b, BoundsOf(Rectangle(b)).value);
    forall p
      ensures Encloses(RectangleOf(b), p) <==> InHalfOpenBox(b, p)
    {
      RectangleIsHalfOpen(b, p);
    }
    RectangleIsHalfOpen(b, Point(b.minX, b.minY));
    PositiveSides(b);
  }

  lemma PositiveSides(b: Bounds)
    requires HasArea(b)
    ensures b.Width() * b.Height() > 0.0
  {
  }

  lemma RectangleHasPositions(b: Bounds)
    ensures Rectangle(b) != []
  {
  }

  lemma HullOfRectangle(b: Bounds, hull: Bounds)
    requires HasArea(b) && IsHullOf(hull, Rectangle(b))
    ensures hull == b
  {
    var r := Rectangle(b);
    assert hull.Contains(r[0]) && hull.Contains(r[2]);
    assert forall p | p in r :: b.minX <= p.x <= b.maxX && b.minY <= p.y <= b.maxY;
  }
}
