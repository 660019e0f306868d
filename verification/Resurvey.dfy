/** Flying the recommended line closes the gap exactly when its swath is wide enough. */
module Resurvey {
  import opened Algebra
  import opened Wrappers
  import opened Plane
  import opened Distance
  import opened Polygons
  import opened Grid
  import opened Coverage
  import opened CoverageFacts

  function HeightSquared(p: Point, y: real): real {
    (p.y - y) * (p.y - y)
  }

  lemma HeightAtMost(p: Point, y: real, reach: real)
    ensures AtMost(HeightSquared(p, y), reach) <==> Abs(p.y - y) <= reach
  {
    var d := p.y - y;
    var a := Abs(d);
    assert d * d == a * a;
    if 0.0 <= reach {
      SquaresCompare(a, reach);
    }
  }

  lemma HeightIsLowerBound(p: Point, q: Point)
    ensures HeightSquared(p, q.y) <= SquaredDistance(p, q)
    ensures p.x == q.x ==> SquaredDistance(p, q) == HeightSquared(p, q.y)
  {
    SquareIsNonNegative(p.x - q.x);
  }

  lemma NearerIsAtMost(near: real, far: real, reach: real)
    requires near <= far && AtMost(far, reach)
    ensures AtMost(near, reach)
  {
  }

  lemma AlongLevel(a: Point, b: Point, s: real)
    requires a.y == b.y
    ensures Along(a, b, s).y == a.y
  {
  }

  lemma AlongTo(a: Point, b: Point, x: real) returns (s: real)
    requires a.y == b.y && a.x <= x <= b.x && a.x < b.x
    ensures 0.0 <= s <= 1.0 && Along(a, b, s) == Point(x, a.y)
  {
    s := (x - a.x) / (b.x - a.x);
    FractionOfSpan(x - a.x, b.x - a.x);
  }

  /** A level line reaches a point between its ends exactly when the point's height is within reach. */
  lemma LevelLineReaches(p: Point, x0: real, x1: real, y: real, reach: real)
    requires x0 <= p.x <= x1 && x0 < x1
    ensures SegmentInReach(p, Point(x0, y), Point(x1, y), reach) <==> Abs(p.y - y) <= reach
  {
    hide SquaredDistance, HeightSquared, Along, AtMost, Abs;
    var a, b := Point(x0, y), Point(x1, y);
    HeightAtMost(p, y, reach);
    if Abs(p.y - y) <= reach {
      var s := AlongTo(a, b, p.x);
      HeightIsLowerBound(p, Along(a, b, s));
    }
    if SegmentInReach(p, a, b, reach) {
      var s: real :| 0.0 <= s <= 1.0 && AtMost(SquaredDistance(p, Along(a, b, s)), reach);
      AlongLevel(a, b, s);
      HeightIsLowerBound(p, Along(a, b, s));
      NearerIsAtMost(HeightSquared(p, y), SquaredDistance(p, Along(a, b, s)), reach);
    }
  }

  lemma FractionOfSpan(n: real, d: real)
    requires 0.0 <= n <= d && 0.0 < d
    ensures 0.0 <= n / d <= 1.0 && (n / d) * d == n
  {
    FractionsGrow(0.0, n, d);
    FractionsGrow(n, d, d);
    WholeFraction(d);
    Quotient(n, d);
  }

  /** The same for an upright line, by exchanging the axes. */
  lemma UprightLineReaches(p: Point, y0: real, y1: real, x: real, reach: real)
    requires y0 <= p.y <= y1 && y0 < y1
    ensures SegmentInReach(p, Point(x, y0), Point(x, y1), reach) <==> Abs(p.x - x) <= reach
  {
    var q := Point(p.y, p.x);
    LevelLineReaches(q, y0, y1, x, reach);
    ExchangeAxes(p, Point(x, y0), Point(x, y1), reach);
  }

  lemma ExchangeAxes(p: Point, a: Point, b: Point, reach: real)
    ensures SegmentInReach(p, a, b, reach) <==> SegmentInReach(Point(p.y, p.x), Point(a.y, a.x), Point(b.y, b.x), reach)
  {
    var q, c, d := Point(p.y, p.x), Point(a.y, a.x), Point(b.y, b.x);
    forall s: real
      ensures SquaredDistance(p, Along(a, b, s)) == SquaredDistance(q, Along(c, d, s))
    {
    }
    if SegmentInReach(p, a, b, reach) {
      var s: real :| 0.0 <= s <= 1.0 && AtMost(SquaredDistance(p, Along(a, b, s)), reach);
      assert AtMost(SquaredDistance(q, Along(c, d, s)), reach);
    }
    if SegmentInReach(q, c, d, reach) {
      var s: real :| 0.0 <= s <= 1.0 && AtMost(SquaredDistance(q, Along(c, d, s)), reach);
      assert AtMost(SquaredDistance(p, Along(a, b, s)), reach);
    }
  }

  lemma OneLineTrack(track: Track, a: Point, b: Point, p: Point)
    requires track.lines == [[a, b]]
    ensures Covers(track, p) <==> SegmentInReach(p, a, b, track.swath / 2.0)
  {
    assert track.lines[0][0] == a && track.lines[0][1] == b;
  }

  /** How far a cell's centre lies from the line through the middle of the box, across its longer side. */
  function OffLine(box: Bounds, p: Point): real {
    if box.Width() >= box.Height() then Abs(p.y - Midpoint(box).y) else Abs(p.x - Midpoint(box).x)
  }

  function ShortSide(box: Bounds): real {
    Min(box.Width(), box.Height())
  }

  lemma RecommendedLineReaches(g: Lattice, box: Bounds, c: Cell, track: Track)
    requires g.resolution > 0.0 && g.Square(c).Within(box)
    requires track.lines == [RecommendedLine(box, g.resolution)]
    ensures Covers(track, g.Centre(c)) <==> OffLine(box, g.Centre(c)) <= track.swath / 2.0
  {
    hide Offset;
    var p, line := g.Centre(c), RecommendedLine(box, g.resolution);
    OneLineTrack(track, line[0], line[1], p);
    if box.Width() >= box.Height() {
      LevelLineReaches(p, line[0].x, line[1].x, line[0].y, track.swath / 2.0);
    } else {
      UprightLineReaches(p, line[0].y, line[1].y, line[0].x, track.swath / 2.0);
    }
  }

  /** No cell of the box is farther off the line than half the short side less half a cell, and one is that far. */
  lemma FarthestCell(g: Lattice, box: Bounds, cells: set<Cell>) returns (far: Cell)
    requires g.resolution > 0.0 && IsHull(box, cells, g)
    ensures far in cells && OffLine(box, g.Centre(far)) == (ShortSide(box) - g.resolution) / 2.0
    ensures forall c | c in cells :: OffLine(box, g.Centre(c)) <= (ShortSide(box) - g.resolution) / 2.0
  {
    hide Offset;
    if box.Width() >= box.Height() {
      far :| far in cells && g.Square(far).maxY == box.maxY;
    } else {
      far :| far in cells && g.Square(far).maxX == box.maxX;
    }
    forall c | c in cells
      ensures OffLine(box, g.Centre(c)) <= (ShortSide(box) - g.resolution) / 2.0
    {
      assert g.Square(c).Within(box);
    }
  }

  lemma PassesWithOneMore(tracks: seq<Track>, track: Track, p: Point)
    ensures Passes(tracks + [track], p) == Passes(tracks, p) + if Covers(track, p) then 1 else 0
  {
    assert (tracks + [track])[..|tracks|] == tracks;
  }

  lemma UncoveredWithOneMore(cells: set<Cell>, g: Lattice, tracks: seq<Track>, track: Track)
    ensures forall c :: c in Uncovered(cells, g, tracks + [track])
                   <==> c in Uncovered(cells, g, tracks) && !Covers(track, g.Centre(c))
  {
    forall c | c in cells
      ensures c in Uncovered(cells, g, tracks + [track])
        <==> c in Uncovered(cells, g, tracks) && !Covers(track, g.Centre(c))
    {
      PassesWithOneMore(tracks, track, g.Centre(c));
    }
  }

  /**
   Whenever a gap is reported, surveying again with the recommended line added gives full coverage
   exactly when the new swath is at least the short side of the gap box less one cell.
   */
  lemma RecommendationClosesTheGap(boundary: Polygon, tracks: seq<Track>, resolution: real, r: CoverageResult,
                                   runId: nat, swath: real) returns (box: Bounds)
    requires Outcome(boundary, tracks, resolution) == Ok(r) && r.gapRatio > 0.0
    ensures r.gap == [BoxRing(box)]
    ensures var again := Outcome(boundary, tracks + [Track(runId, [r.recommended], swath)], resolution);
      && again.Ok?
      && (again.value.coverageRatio == 1.0 <==> swath >= ShortSide(box) - resolution)
      && (again.value.gapRatio == 0.0 <==> swath >= ShortSide(box) - resolution)
  {
    hide Offset, OffLine, Covers, RecommendedLine, FragmentFlag, BoxRing, Passes, Encloses;
    var g, cells := Explain(boundary, tracks, resolution);
    NoGapMeansAllCovered(boundary, g, tracks, cells);
    var gaps := Uncovered(cells, g, tracks);
    box := Hull(gaps, g).value;
    GapIsReported(boundary, g, tracks, cells);
    var track := Track(runId, [r.recommended], swath);
    var far := FarthestCell(g, box, gaps);
    UncoveredWithOneMore(cells, g, tracks, track);
    forall c | c in gaps
      ensures Covers(track, g.Centre(c)) <==> OffLine(box, g.Centre(c)) <= swath / 2.0
    {
      RecommendedLineReaches(g, box, c, track);
    }
    var still := Uncovered(cells, g, tracks + [track]);
    if swath >= ShortSide(box) - resolution {
      assert still == {};
    } else {
      assert far in still;
    }
    NoGapMeansAllCovered(boundary, g, tracks + [track], cells);
  }
}
