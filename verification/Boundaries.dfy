/** The coverage of an area does not depend on how the rings of its boundary are written down. */
module Boundaries {
  import opened Wrappers
  import opened Plane
  import opened Rings
  import opened Polygons
  import opened Grid
  import opened Coverage

  /** The same ring started elsewhere, walked the other way, or with its closing position added. */
  ghost predicate Rewritten(a: Ring, b: Ring) {
    || (exists u, v :: a == u + v && b == v + u)
    || b == Reversed(a)
    || (a != [] && b == a + [a[0]])
  }

  /** Ring by ring the same or rewritten. */
  ghost predicate SameBoundary(a: Polygon, b: Polygon) {
    |a| == |b| && forall i | 0 <= i < |a| :: a[i] == b[i] || Rewritten(a[i], b[i])
  }

  lemma {:induction false} ReversedHasTheSamePositions(walk: seq<Point>)
    ensures forall p :: p in Reversed(walk) <==> p in walk
  {
    if walk != [] {
      ReversedHasTheSamePositions(walk[1..]);
      assert walk == [walk[0]] + walk[1..];
    }
  }

  lemma RewritingKeepsTheRing(a: Ring, b: Ring)
    requires Rewritten(a, b)
    ensures forall p :: Inside(b, p) == Inside(a, p)
    ensures RingSize(b) == RingSize(a)
    ensures forall p :: p in b <==> p in a
  {
    hide Inside, SignedArea;
    forall p
      ensures Inside(b, p) == Inside(a, p) && RingSize(b) == RingSize(a)
    {
      if u, v :| a == u + v && b == v + u {
        RotatingTheRing(u, v, p);
      } else if b == Reversed(a) {
        ReversingTheRing(a, p);
      } else {
        ClosingTheRing(a, p);
      }
    }
    var p0 := Point(0.0, 0.0);
    assert Inside(b, p0) == Inside(a, p0);
    ReversedHasTheSamePositions(a);
  }

  lemma SameRingForRing(a: Polygon, b: Polygon, i: nat)
    requires SameBoundary(a, b) && i < |a|
    ensures forall p :: Inside(b[i], p) == Inside(a[i], p)
    ensures RingSize(b[i]) == RingSize(a[i])
    ensures forall p :: p in b[i] <==> p in a[i]
  {
    hide Inside, Rewritten, RingSize;
    if a[i] != b[i] {
      RewritingKeepsTheRing(a[i], b[i]);
    }
  }

  lemma {:induction false} SameAreaLeft(a: Polygon, b: Polygon, n: nat)
    requires SameBoundary(a, b) && 1 <= n <= |a|
    ensures AreaLeft(a, n) == AreaLeft(b, n)
  {
    hide RingSize, SameBoundary;
    SameRingForRing(a, b, n - 1);
    if n > 1 {
      SameAreaLeft(a, b, n - 1);
    }
  }

  lemma SameBoundaryWithout(a: Polygon, b: Polygon)
    requires SameBoundary(a, b) && a != []
    ensures SameBoundary(a[..|a| - 1], b[..|a| - 1])
  {
    hide Rewritten;
  }

  lemma {:induction false} SameVertices(a: Polygon, b: Polygon)
    requires SameBoundary(a, b)
    ensures forall p :: p in Vertices(a) <==> p in Vertices(b)
  {
    hide Inside, RingSize, SameBoundary, Rewritten;
    SameLength(a, b);
    if a != [] {
      var last := |a| - 1;
      SameRingForRing(a, b, last);
      SameBoundaryWithout(a, b);
      SameVertices(a[..last], b[..last]);
    }
  }

  lemma SameHull(a: seq<Point>, b: seq<Point>)
    requires forall p :: p in a <==> p in b
    ensures BoundsOf(a) == BoundsOf(b)
  {
    hide BoundsOf;
    BoundsAreTheHull(a);
    BoundsAreTheHull(b);
    if a == [] {
      assert forall p | p in b :: p in a;
      assert b == [];
    } else {
      assert a[0] in b;
      OneHull(BoundsOf(a).value, BoundsOf(b).value, a, b);
    }
  }

  lemma OneHull(c: Bounds, d: Bounds, a: seq<Point>, b: seq<Point>)
    requires IsHullOf(c, a) && IsHullOf(d, b) && forall p :: p in a <==> p in b
    ensures c == d
  {
  }

  /** Rewriting the rings of a boundary changes neither what it contains, nor its area, nor its bounding box. */
  lemma RewritingKeepsTheBoundary(a: Polygon, b: Polygon, p: Point)
    requires SameBoundary(a, b)
    ensures Encloses(b, p) == Encloses(a, p)
    ensures NetArea(b) == NetArea(a)
    ensures BoundsOf(Vertices(b)) == BoundsOf(Vertices(a))
  {
    hide SameBoundary, Inside, AreaLeft, BoundsOf;
    SameVertices(a, b);
    SameHull(Vertices(a), Vertices(b));
    assert |a| == |b| by {
      SameLength(a, b);
    }
    if a != [] {
      SameAreaLeft(a, b, |a|);
      SameRingForRing(a, b, 0);
      forall h | 1 <= h < |a|
        ensures Inside(b[h], p) == Inside(a[h], p)
      {
        SameRingForRing(a, b, h);
      }
    }
  }

  lemma SameLength(a: Polygon, b: Polygon)
    requires SameBoundary(a, b)
    ensures |a| == |b|
  {
  }

  /** So a coverage calculation gives the very same outcome. */
  lemma OutcomeIgnoresRepresentation(a: Polygon, b: Polygon, tracks: seq<Track>, resolution: real)
    requires SameBoundary(a, b)
    ensures Outcome(b, tracks, resolution) == Outcome(a, tracks, resolution)
  {
    hide SameBoundary, Encloses, NetArea, BoundsOf, Summary;
    forall p
      ensures Encloses(b, p) == Encloses(a, p) && NetArea(b) == NetArea(a)
        && BoundsOf(Vertices(b)) == BoundsOf(Vertices(a))
    {
      RewritingKeepsTheBoundary(a, b, p);
    }
    assert BoundsOf(Vertices(b)) == BoundsOf(Vertices(a)) && NetArea(b) == NetArea(a) by {
      RewritingKeepsTheBoundary(a, b, Point(0.0, 0.0));
    }
    var box := BoundsOf(Vertices(a));
    if box.Some? && resolution > 0.0 {
      var g := Lattice(box.value, resolution);
      assert Analysed(a, g) == Analysed(b, g);
      if Analysed(a, g) != {} {
        SameSummary(a, b, g, tracks, Analysed(a, g));
      }
    }
  }

  lemma SameSummary(a: Polygon, b: Polygon, g: Lattice, tracks: seq<Track>, cells: set<Cell>)
    requires NetArea(a) == NetArea(b) && cells != {}
    ensures Summary(a, g, tracks, cells) == Summary(b, g, tracks, cells)
  {
  }
}
