/** Generated parallel survey lines, and when flying them covers the area. */
module Transects {
  import opened Algebra
  import opened Wrappers
  import opened Plane
  import opened Distance
  import opened Polygons
  import opened Grid
  import opened Coverage
  import opened CoverageFacts
  import opened Resurvey

  datatype GenerateError = LineSpacingInvalid | NoTransects

  /** Headings around east and west lay level lines, all others upright ones. */
  predicate IsHorizontal(heading: real) {
    (45.0 <= heading < 135.0) || (225.0 <= heading < 315.0)
  }

  /** How far a compass heading is off the east-west axis, and how far off the north-south axis. */
  function OffEastWest(heading: real): real {
    Min(Abs(heading - 90.0), Abs(heading - 270.0))
  }

  function OffNorthSouth(heading: real): real {
    Min(Abs(heading), Min(Abs(heading - 180.0), Abs(heading - 360.0)))
  }

  /** A compass heading lays lines along the nearer axis; of the four diagonals, 45 and 225 degrees lay level lines. */
  lemma HeadingsFollowTheNearerAxis(heading: real)
    ensures IsHorizontal(heading) <==>
      && 0.0 <= heading <= 360.0
      && (OffEastWest(heading) < OffNorthSouth(heading) || heading == 45.0 || heading == 225.0)
  {
  }

  /** The line at distance `offset` from the box's lower or left side, across the whole box. */
  function LineAt(box: Bounds, horizontal: bool, offset: real): Line {
    if horizontal then [Point(box.minX, box.minY + offset), Point(box.maxX, box.minY + offset)]
    else [Point(box.minX + offset, box.minY), Point(box.minX + offset, box.maxY)]
  }

  /** The box's extent across the lines. */
  function SpanAcross(box: Bounds, horizontal: bool): real {
    if horizontal then box.Height() else box.Width()
  }

  /** How many lines fit: those whose offset, half a spacing plus whole spacings, stays below the span. */
  function LineCount(span: real, spacing: real): nat
    requires spacing > 0.0
  {
    var n := Ceil(span / spacing - 0.5);
    if n < 0 then 0 else n
  }

  function PlannedLines(box: Bounds, horizontal: bool, spacing: real, n: nat): (lines: seq<Line>)
    ensures |lines| == n
    ensures forall k | 0 <= k < n :: lines[k] == LineAt(box, horizontal, Offset(k, spacing))
  {
    if n == 0 then []
    else PlannedLines(box, horizontal, spacing, n - 1) + [LineAt(box, horizontal, Offset(n - 1, spacing))]
  }

  ghost function Generated(polygon: Polygon, heading: real, spacing: real): Result<seq<Line>, GenerateError>
    requires spacing > 0.0
  {
    var box := BoundsOf(Vertices(polygon));
    if box.None? || spacing > Max(box.value.Width(), box.value.Height()) then Err(LineSpacingInvalid)
    else
      var n := LineCount(SpanAcross(box.value, IsHorizontal(heading)), spacing);
      if n == 0 then Err(NoTransects) else Ok(PlannedLines(box.value, IsHorizontal(heading), spacing, n))
  }

  lemma FitsBelow(k: nat, span: real, spacing: real)
    requires spacing > 0.0
    ensures Offset(k, spacing) < span <==> k < LineCount(span, spacing)
  {
    var q := span / spacing;
    Quotient(span, spacing);
    Scaled(k as real + 0.5, q, spacing);
  }

  lemma NextOffset(k: int, spacing: real)
    ensures Offset(k + 1, spacing) == Offset(k, spacing) + spacing
    ensures Offset(0, spacing) == spacing / 2.0
  {
  }

  /** The source's two loops, each adding the spacing until the far side is reached. */
  method Generate(polygon: Polygon, heading: real, spacing: real) returns (r: Result<seq<Line>, GenerateError>)
    requires spacing > 0.0
    ensures r == Generated(polygon, heading, spacing)
  {
    hide Offset, LineCount;
    var bounds := PolygonBounds(polygon);
    if bounds.None? || spacing > Max(bounds.value.Width(), bounds.value.Height()) {
      return Err(LineSpacingInvalid);
    }
    var box := bounds.value;
    var lines := [];
    var horizontal := (heading >= 45.0 && heading < 135.0) || (heading >= 225.0 && heading < 315.0);
    ghost var n := LineCount(SpanAcross(box, horizontal), spacing);
    NextOffset(0, spacing);
    FitsBelow(0, SpanAcross(box, horizontal), spacing);
    if horizontal {
      var y := box.minY + spacing / 2.0;
      while y < box.maxY
        invariant |lines| <= n && y == box.minY + Offset(|lines|, spacing)
        invariant lines == PlannedLines(box, horizontal, spacing, |lines|)
        invariant y < box.maxY <==> |lines| < n
        decreases n - |lines|
      {
        lines := lines + [[Point(box.minX, y), Point(box.maxX, y)]];
        NextOffset(|lines| - 1, spacing);
        FitsBelow(|lines|, box.Height(), spacing);
        y := y + spacing;
      }
    } else {
      var x := box.minX + spacing / 2.0;
      while x < box.maxX
        invariant |lines| <= n && x == box.minX + Offset(|lines|, spacing)
        invariant lines == PlannedLines(box, horizontal, spacing, |lines|)
        invariant x < box.maxX <==> |lines| < n
        decreases n - |lines|
      {
        lines := lines + [[Point(x, box.minY), Point(x, box.maxY)]];
        NextOffset(|lines| - 1, spacing);
        FitsBelow(|lines|, box.Width(), spacing);
        x := x + spacing;
      }
    }
    if |lines| == 0 {
      return Err(NoTransects);
    }
    r := Ok(lines);
  }

  /**
   The generated lines run from one side of the box to the other, the first half a spacing from the near side,
   each next one a spacing further; the last lies before the far side, and a further one would not.
   */
  lemma GeneratedLinesCrossTheBox(polygon: Polygon, heading: real, spacing: real)
    requires spacing > 0.0 && Generated(polygon, heading, spacing).Ok?
    ensures var lines := Generated(polygon, heading, spacing).value;
      exists box :: BoundsOf(Vertices(polygon)) == Some(box) && |lines| > 0 && CrossTheBox(lines, box, heading, spacing)
  {
    hide Offset, LineCount;
    var box := BoundsOf(Vertices(polygon)).value;
    var span := SpanAcross(box, IsHorizontal(heading));
    var lines := Generated(polygon, heading, spacing).value;
    var n := |lines|;
    NextOffset(0, spacing);
    forall k | 0 <= k < n
      ensures IsAcross(lines[k], box, heading)
      ensures k + 1 < n ==> Position(lines[k + 1], heading) == Position(lines[k], heading) + spacing
    {
      NextOffset(k, spacing);
    }
    NextOffset(n - 1, spacing);
    FitsBelow(n - 1, span, spacing);
    FitsBelow(n, span, spacing);
    assert CrossTheBox(lines, box, heading, spacing);
  }

  /** Where a line lies across the heading. */
  function Position(line: Line, heading: real): real
    requires line != []
  {
    if IsHorizontal(heading) then line[0].y else line[0].x
  }

  /** A straight line across the whole box, along the axis of the heading. */
  predicate IsAcross(line: Line, box: Bounds, heading: real) {
    && |line| == 2
    && if IsHorizontal(heading) then line[0].x == box.minX && line[1].x == box.maxX && line[0].y == line[1].y
       else line[0].y == box.minY && line[1].y == box.maxY && line[0].x == line[1].x
  }

  ghost predicate CrossTheBox(lines: seq<Line>, box: Bounds, heading: real, spacing: real)
    requires |lines| > 0
  {
    var near := if IsHorizontal(heading) then box.minY else box.minX;
    var far := if IsHorizontal(heading) then box.maxY else box.maxX;
    && (forall k | 0 <= k < |lines| :: IsAcross(lines[k], box, heading))
    && Position(lines[0], heading) == near + spacing / 2.0
    && (forall k | 0 < k < |lines| :: Position(lines[k], heading) == Position(lines[k - 1], heading) + spacing)
    && Position(lines[|lines| - 1], heading) < far <= Position(lines[|lines| - 1], heading) + spacing
  }

  // ---------- How far a position can be from the nearest line ----------

  /** Some of the first `n` lines lies within `reach` of the position `t` across the lines. */
  ghost predicate NearALine(t: real, spacing: real, n: nat, reach: real) {
    exists k: nat :: k < n && Abs(t - Offset(k, spacing)) <= reach
  }

  ghost predicate ReachesEverywhere(span: real, spacing: real, n: nat, reach: real) {
    forall t | 0.0 <= t <= span :: NearALine(t, spacing, n, reach)
  }

  /**
   No strip is left beyond the reach of the last line: the whole spacings leave nothing over, or more than half of one.
   */
  predicate LeavesNoStrip(span: real, spacing: real)
    requires spacing > 0.0
  {
    Remainder(span, spacing) == 0.0 || Remainder(span, spacing) > spacing / 2.0
  }

  /** What is left of the span after as many whole spacings as fit. */
  function Remainder(span: real, spacing: real): real
    requires spacing > 0.0
  {
    span - (span / spacing).Floor as real * spacing
  }

  function Whole(span: real, spacing: real): int
    requires spacing > 0.0
  {
    (span / spacing).Floor
  }

  lemma RemainderIsProper(span: real, spacing: real)
    requires spacing > 0.0 && span >= 0.0
    ensures 0.0 <= Remainder(span, spacing) < spacing
    ensures Whole(span, spacing) >= 0
    ensures span == Offset(Whole(span, spacing), spacing) - spacing / 2.0 + Remainder(span, spacing)
  {
    var q, w := span / spacing, Whole(span, spacing);
    Quotient(span, spacing);
    FractionsGrow(0.0, span, spacing);
    WholeParts(span, q, w as real, spacing);
  }

  /** The last line lies more than half a spacing from the far side exactly when the remainder says so. */
  lemma CountFromRemainder(span: real, spacing: real)
    requires spacing > 0.0 && span >= 0.0
    ensures LineCount(span, spacing) == Whole(span, spacing) + if Remainder(span, spacing) > spacing / 2.0 then 1 else 0
  {
    hide Offset, LineCount, Remainder, Whole;
    var w := Whole(span, spacing);
    RemainderIsProper(span, spacing);
    NextOffset(w, spacing);
    NextOffset(w - 1, spacing);
    FitsBelow(w, span, spacing);
    FitsBelow(w + 1, span, spacing);
    if w > 0 {
      FitsBelow(w - 1, span, spacing);
    }
  }

  /** The line of the strip that `t` falls into, or the last line for what lies beyond the strips. */
  lemma NearestLine(t: real, span: real, spacing: real) returns (k: nat)
    requires spacing > 0.0 && 0.0 <= t <= span && LineCount(span, spacing) > 0
    ensures k < LineCount(span, spacing)
    ensures Abs(t - Offset(k, spacing)) <= spacing / 2.0
      || (k == LineCount(span, spacing) - 1 && spacing / 2.0 < t - Offset(k, spacing) <= span - Offset(k, spacing))
  {
    hide Offset, LineCount, Remainder, Whole;
    var n, w := LineCount(span, spacing), Whole(t, spacing);
    RemainderIsProper(t, spacing);
    if w < n {
      k := w;
    } else {
      k := n - 1;
      NextOffset(k, spacing);
      OffsetsGrow(n, w, spacing);
    }
  }

  /**
   Every position across the area is within half a spacing of a line exactly when the remainder of the span
   is zero or more than half a spacing; it is always within a whole spacing.
   */
  lemma LinesReachEverywhere(span: real, spacing: real)
    requires spacing > 0.0 && span >= 0.0 && LineCount(span, spacing) > 0
    ensures ReachesEverywhere(span, spacing, LineCount(span, spacing), spacing / 2.0) <==> LeavesNoStrip(span, spacing)
    ensures ReachesEverywhere(span, spacing, LineCount(span, spacing), spacing)
  {
    hide Offset, LineCount, Remainder, Whole;
    var n := LineCount(span, spacing);
    CountFromRemainder(span, spacing);
    RemainderIsProper(span, spacing);
    NextOffset(n - 1, spacing);
    NextOffset(Whole(span, spacing), spacing);
    var good, half := LeavesNoStrip(span, spacing), spacing / 2.0;
    forall t | 0.0 <= t <= span
      ensures NearALine(t, spacing, n, spacing)
    {
      var k := NearestLine(t, span, spacing);
      assert k < n && Abs(t - Offset(k, spacing)) <= spacing;
    }
    forall t | 0.0 <= t <= span && good
      ensures NearALine(t, spacing, n, half)
    {
      var k := NearestLine(t, span, spacing);
      assert k < n && Abs(t - Offset(k, spacing)) <= half;
    }
    if !good {
      FarSideIsMissed(span, spacing);
      assert !NearALine(span, spacing, n, half);
    }
  }

  lemma FarSideIsMissed(span: real, spacing: real)
    requires spacing > 0.0 && span >= 0.0 && LineCount(span, spacing) > 0
    requires 0.0 < Remainder(span, spacing) <= spacing / 2.0
    ensures !NearALine(span, spacing, LineCount(span, spacing), spacing / 2.0)
  {
    hide Offset, LineCount, Remainder, Whole;
    var n, w := LineCount(span, spacing), Whole(span, spacing);
    CountFromRemainder(span, spacing);
    RemainderIsProper(span, spacing);
    NextOffset(n - 1, spacing);
    forall k: nat | k < n
      ensures Abs(span - Offset(k, spacing)) > spacing / 2.0
    {
      OffsetsGrow(k, n - 1, spacing);
    }
  }

  // ---------- Flying the plan ----------

  lemma PlanCoversNear(box: Bounds, horizontal: bool, spacing: real, n: nat, track: Track, p: Point, t: real)
    requires box.Width() > 0.0 && box.Height() > 0.0 && box.Contains(p)
    requires track.lines == PlannedLines(box, horizontal, spacing, n)
    requires t == if horizontal then p.y - box.minY else p.x - box.minX
    ensures Covers(track, p) <==> NearALine(t, spacing, n, track.swath / 2.0)
  {
    hide Offset, Along, AtMost, SquaredDistance;
    forall k: nat | k < n
      ensures SegmentInReach(p, track.lines[k][0], track.lines[k][1], track.swath / 2.0)
        <==> Abs(t - Offset(k, spacing)) <= track.swath / 2.0
    {
      var line := LineAt(box, horizontal, Offset(k, spacing));
      if horizontal {
        LevelLineReaches(p, box.minX, box.maxX, line[0].y, track.swath / 2.0);
      } else {
        UprightLineReaches(p, box.minY, box.maxY, line[0].x, track.swath / 2.0);
      }
    }
    if NearALine(t, spacing, n, track.swath / 2.0) {
      var k: nat :| k < n && Abs(t - Offset(k, spacing)) <= track.swath / 2.0;
      assert SegmentInReach(p, track.lines[k][1 - 1], track.lines[k][1], track.swath / 2.0);
    }
    if Covers(track, p) {
      var l, k :| 0 <= l < |track.lines| && 1 <= k < |track.lines[l]|
        && SegmentInReach(p, track.lines[l][k - 1], track.lines[l][k], track.swath / 2.0);
      assert k == 1;
    }
  }

  lemma WiderIsNear(t: real, spacing: real, n: nat, reach: real, wider: real)
    requires reach <= wider && NearALine(t, spacing, n, reach)
    ensures NearALine(t, spacing, n, wider)
  {
    hide Offset;
    var k: nat :| k < n && Abs(t - Offset(k, spacing)) <= reach;
    assert Abs(t - Offset(k, spacing)) <= wider;
  }

  lemma {:induction false} CoveredOnce(tracks: seq<Track>, i: nat, p: Point)
    requires i < |tracks| && Covers(tracks[i], p)
    ensures Passes(tracks, p) >= 1
  {
    if i < |tracks| - 1 {
      CoveredOnce(tracks[..|tracks| - 1], i, p);
    }
  }

  /** The plan's lines come near enough to a point of the box for a swath of this width. */
  lemma PlanCoversPoint(box: Bounds, horizontal: bool, spacing: real, track: Track, p: Point)
    requires box.Width() > 0.0 && box.Height() > 0.0 && box.Contains(p) && spacing > 0.0
    requires var span := SpanAcross(box, horizontal);
      && LineCount(span, spacing) > 0
      && track.lines == PlannedLines(box, horizontal, spacing, LineCount(span, spacing))
      && (track.swath >= 2.0 * spacing || (track.swath >= spacing && LeavesNoStrip(span, spacing)))
    ensures Covers(track, p)
  {
    hide Offset, LineCount, LeavesNoStrip, Covers, NearALine;
    var span := SpanAcross(box, horizontal);
    var n, t := LineCount(span, spacing), if horizontal then p.y - box.minY else p.x - box.minX;
    LinesReachEverywhere(span, spacing);
    if track.swath >= 2.0 * spacing {
      WiderIsNear(t, spacing, n, spacing, track.swath / 2.0);
    } else {
      WiderIsNear(t, spacing, n, spacing / 2.0, track.swath / 2.0);
    }
    PlanCoversNear(box, horizontal, spacing, n, track, p, t);
  }

  /**
   A run flown exactly on a generated plan gives full coverage when its swath is at least the line spacing and the
   spacing divides the span well enough, and always when its swath is at least twice the spacing.
   */
  lemma FlyingThePlanCovers(boundary: Polygon, heading: real, spacing: real, tracks: seq<Track>, i: nat,
                            resolution: real)
    requires spacing > 0.0 && Generated(boundary, heading, spacing).Ok?
    requires i < |tracks| && tracks[i].lines == Generated(boundary, heading, spacing).value
    requires Outcome(boundary, tracks, resolution).Ok?
    requires var span := SpanAcross(BoundsOf(Vertices(boundary)).value, IsHorizontal(heading));
      tracks[i].swath >= 2.0 * spacing || (tracks[i].swath >= spacing && LeavesNoStrip(span, spacing))
    ensures Outcome(boundary, tracks, resolution).value.coverageRatio == 1.0
    ensures Outcome(boundary, tracks, resolution).value.gapRatio == 0.0
  {
    hide Offset, LineCount, LeavesNoStrip, Covers, IsHorizontal, PlannedLines;
    var g, cells := Explain(boundary, tracks, resolution);
    forall c | c in cells
      ensures Passes(tracks, g.Centre(c)) >= 1
    {
      PolygonStaysInItsBox(boundary, g.Centre(c));
      PlanCoversPoint(g.bounds, IsHorizontal(heading), spacing, tracks[i], g.Centre(c));
      CoveredOnce(tracks, i, g.Centre(c));
    }
    assert Uncovered(cells, g, tracks) == {};
    NoGapMeansAllCovered(boundary, g, tracks, cells);
  }
}
