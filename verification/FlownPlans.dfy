/** Exactly when a run flown on a generated plan covers its area. */
module FlownPlans {
  import opened Wrappers
  import opened Plane
  import opened Polygons
  import opened Rectangles
  import opened OneCell
  import opened Distance
  import opened Grid
  import opened Coverage
  import opened CoverageFacts
  import opened Resurvey
  import opened Transects
  import opened MoreSurvey

  /** How far a point lies from the side of the box at which the lines begin. */
  function Across(box: Bounds, horizontal: bool, p: Point): real {
    if horizontal then p.y - box.minY else p.x - box.minX
  }

  /** How far the last of the planned lines reaches. */
  function LastReach(span: real, spacing: real, swath: real): real
    requires spacing > 0.0
  {
    Offset(LineCount(span, spacing) - 1, spacing) + swath / 2.0
  }

  /**
   With a swath of at least the spacing the lines reach everything up to the last line's reach, and nothing beyond.
   */
  lemma NearIffWithinLastReach(t: real, span: real, spacing: real, swath: real)
    requires spacing > 0.0 && 0.0 <= t <= span && LineCount(span, spacing) > 0 && swath >= spacing
    ensures NearALine(t, spacing, LineCount(span, spacing), swath / 2.0) <==> t <= LastReach(span, spacing, swath)
  {
    hide Offset, LineCount;
    var n := LineCount(span, spacing);
    if t <= LastReach(span, spacing, swath) {
      var k := NearestLine(t, span, spacing);
      assert k < n && Abs(t - Offset(k, spacing)) <= swath / 2.0;
    }
    if NearALine(t, spacing, n, swath / 2.0) {
      var k: nat :| k < n && Abs(t - Offset(k, spacing)) <= swath / 2.0;
      OffsetsGrow(k, n - 1, spacing);
    }
  }

  /**
   For any boundary and any other tracks: when one run is flown on the generated lines with a swath of at least their
   spacing, there is full coverage if and only if every analysed centre lies within the last line's reach or is covered
   by another track.
   */
  lemma FlownPlanCoversIff(boundary: Polygon, heading: real, spacing: real, tracks: seq<Track>, i: nat,
                           resolution: real)
    returns (g: Lattice)
    requires spacing > 0.0 && Generated(boundary, heading, spacing).Ok?
    requires i < |tracks| && tracks[i].lines == Generated(boundary, heading, spacing).value
      && tracks[i].swath >= spacing
    requires Outcome(boundary, tracks, resolution).Ok?
    ensures resolution > 0.0 && BoundsOf(Vertices(boundary)) == Some(g.bounds) && g.resolution == resolution
    ensures var horizontal := IsHorizontal(heading);
      var reach := LastReach(SpanAcross(g.bounds, horizontal), spacing, tracks[i].swath);
      Outcome(boundary, tracks, resolution).value.coverageRatio == 1.0 <==>
        forall c | c in Analysed(boundary, g) ::
          Across(g.bounds, horizontal, g.Centre(c)) <= reach || Passes(tracks[..i] + tracks[i + 1..], g.Centre(c)) >= 1
  {
    hide Offset, LineCount, Covers, IsHorizontal, PlannedLines, NearALine, LastReach, Encloses, Across, Passes;
    var cells;
    g, cells := Explain(boundary, tracks, resolution);
    var horizontal := IsHorizontal(heading);
    var reach := LastReach(SpanAcross(g.bounds, horizontal), spacing, tracks[i].swath);
    forall c | c in cells
      ensures c in Uncovered(cells, g, tracks) <==>
        !(Across(g.bounds, horizontal, g.Centre(c)) <= reach || Passes(tracks[..i] + tracks[i + 1..], g.Centre(c)) >= 1)
    {
      PolygonStaysInItsBox(boundary, g.Centre(c));
      FlownPlanCoversCentre(g.bounds, horizontal, spacing, tracks[i], g.Centre(c));
      PassesWithout(tracks, i, g.Centre(c));
    }
    NoGapMeansAllCovered(boundary, g, tracks, cells);
  }

  lemma FlownPlanCoversCentre(box: Bounds, horizontal: bool, spacing: real, track: Track, p: Point)
    requires box.Width() > 0.0 && box.Height() > 0.0 && InHalfOpenBox(box, p) && spacing > 0.0
    requires LineCount(SpanAcross(box, horizontal), spacing) > 0 && track.swath >= spacing
    requires track.lines == PlannedLines(box, horizontal, spacing, LineCount(SpanAcross(box, horizontal), spacing))
    ensures Covers(track, p) <==> Across(box, horizontal, p) <= LastReach(SpanAcross(box, horizontal), spacing,
                                                                          track.swath)
  {
    hide Offset, LineCount, Covers, NearALine, LastReach, PlannedLines;
    var span, t := SpanAcross(box, horizontal), Across(box, horizontal, p);
    PlanCoversNear(box, horizontal, spacing, LineCount(span, spacing), track, p, t);
    NearIffWithinLastReach(t, span, spacing, track.swath);
  }

  // ---------- Rectangles ----------

  lemma NoOtherTracks(track: Track)
    ensures forall p :: Passes([track][..0] + [track][1..], p) == 0
  {
  }

  /**
   For a rectangle: full coverage if and only if the last row or column of centres lies within the last line's reach.
   */
  lemma FlownRectangleIsCoveredIff(box: Bounds, heading: real, spacing: real, track: Track, resolution: real)
    requires HasArea(box) && spacing > 0.0 && Generated(RectangleOf(box), heading, spacing).Ok?
    requires track.lines == Generated(RectangleOf(box), heading, spacing).value && track.swath >= spacing
    requires Outcome(RectangleOf(box), [track], resolution).Ok?
    ensures resolution > 0.0
    ensures var span := SpanAcross(box, IsHorizontal(heading));
      Outcome(RectangleOf(box), [track], resolution).value.coverageRatio == 1.0 <==>
        Offset(LineCount(span, resolution) - 1, resolution) <= LastReach(span, spacing, track.swath)
  {
    hide Offset, LineCount, IsHorizontal, PlannedLines, LastReach, Encloses, Outcome, Generated, Across, Analysed;
    RectangleFacts(box);
    var g := FlownPlanCoversIff(RectangleOf(box), heading, spacing, [track], 0, resolution);
    NoOtherTracks(track);
    var horizontal := IsHorizontal(heading);
    var span := SpanAcross(box, horizontal);
    var last := FarthestCentre(box, horizontal, g, track);
    var reach := LastReach(span, spacing, track.swath);
    if Offset(LineCount(span, resolution) - 1, resolution) <= reach {
      forall c | c in Analysed(RectangleOf(box), g)
        ensures Across(g.bounds, horizontal, g.Centre(c)) <= reach
      {
        CentresGoToTheLast(box, horizontal, g, c);
      }
    }
  }

  /** No analysed centre lies farther across than the last position that fits. */
  lemma CentresGoToTheLast(box: Bounds, horizontal: bool, g: Lattice, c: Cell)
    requires HasArea(box) && g.resolution > 0.0 && g.bounds == box && c in Analysed(RectangleOf(box), g)
    ensures Across(box, horizontal, g.Centre(c)) <= Offset(LineCount(SpanAcross(box, horizontal), g.resolution) - 1,
                                                           g.resolution)
  {
    hide Offset, LineCount, Encloses;
    RectangleFacts(box);
    CentreInRange(g, c);
    var k := if horizontal then c.row else c.column;
    FitsBelow(k, SpanAcross(box, horizontal), g.resolution);
    OffsetsGrow(k, LineCount(SpanAcross(box, horizontal), g.resolution) - 1, g.resolution);
  }

  /** Some analysed centre lies at the last position that fits. */
  lemma FarthestCentre(box: Bounds, horizontal: bool, g: Lattice, track: Track) returns (last: Cell)
    requires HasArea(box) && g.resolution > 0.0 && g.bounds == box
    requires Outcome(RectangleOf(box), [track], g.resolution).Ok?
    ensures last in Analysed(RectangleOf(box), g)
    ensures Across(box, horizontal, g.Centre(last))
      == Offset(LineCount(SpanAcross(box, horizontal), g.resolution) - 1, g.resolution)
  {
    hide Offset, LineCount, Encloses, Summary;
    RectangleFacts(box);
    var g', cells := Explain(RectangleOf(box), [track], g.resolution);
    assert g' == g;
    var c :| c in cells;
    EnclosedIsTheWholeLattice(RectangleOf(box), g);
    CentreInRange(g, c);
    var k := if horizontal then c.row else c.column;
    var m := LineCount(SpanAcross(box, horizontal), g.resolution);
    FitsBelow(k, SpanAcross(box, horizontal), g.resolution);
    FitsBelow(m - 1, SpanAcross(box, horizontal), g.resolution);
    OffsetsGrow(k, m - 1, g.resolution);
    last := if horizontal then Cell(m - 1, c.column) else Cell(c.row, m - 1);
    assert InHalfOpenBox(box, g.Centre(last));
  }

  // ---------- A plan that leaves a strip ----------

  const ELEVEN := Bounds(0.0, 0.0, 11.0, 11.0)

  /**
   A square of 11 metres with lines every 10: the only line, at 5, is generated and flown with a swath of 10; with cells
   of 21 metres the only centre, at 10.5, is not covered, and the calculation reports that all of the area is missed.
   */
  lemma ShortRemainderLeavesAStrip(id: nat)
    ensures var plan := Generated(RectangleOf(ELEVEN), 0.0, 10.0);
      && plan == Ok([[Point(5.0, 0.0), Point(5.0, 11.0)]])
      && var outcome := Outcome(RectangleOf(ELEVEN), [Track(id, plan.value, 10.0)], 21.0);
         outcome.Ok? && outcome.value.coverageRatio == 0.0 && outcome.value.gapRatio == 1.0
  {
    hide Encloses, LineCount, Summary, Outcome, Analysed;
    RectangleFacts(ELEVEN);
    OneLineFits();
    assert Offset(0, 10.0) == 5.0 && Offset(0, 21.0) == 10.5;
    var track := Track(id, [[Point(5.0, 0.0), Point(5.0, 11.0)]], 10.0);
    assert PlannedLines(ELEVEN, false, 10.0, 1) == track.lines;
    AllOrNothing(ELEVEN, 21.0, track);
    FlownRectangleIsCoveredIff(ELEVEN, 0.0, 10.0, track, 21.0);
  }

  lemma OneLineFits()
    ensures LineCount(11.0, 10.0) == 1 && LineCount(11.0, 21.0) == 1
  {
    FitsBelow(0, 11.0, 10.0);
    FitsBelow(1, 11.0, 10.0);
    FitsBelow(0, 11.0, 21.0);
    FitsBelow(1, 11.0, 21.0);
  }
}
