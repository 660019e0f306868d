/** What every stored gap says, in terms of its boundary, its runs and the analysed centres alone. */
module StoredGaps {
  import opened Wrappers
  import opened Plane
  import opened Polygons
  import opened Distance
  import opened Grid
  import opened Coverage
  import opened CoverageFacts
  import opened Resurvey
  import opened States
  import opened Tables
  import opened Records
  import opened Workflow
  import opened Invariant
  import opened Reachability

  /** The tracks of the gap's runs as they are stored now. */
  ghost predicate AreTracksOf(tracks: seq<Track>, gap: Gap, runs: map<nat, Row<Run>>) {
    && |tracks| == |gap.sourceRuns|
    && forall i | 0 <= i < |tracks| :: var id := gap.sourceRuns[i];
         id in runs && tracks[i] == Track(id, runs[id].data.lines, runs[id].data.swath)
  }

  /** The gap was calculated from these tracks. */
  lemma StoredGapIsCalculated(events: seq<Event>, id: nat, tracks: seq<Track>) returns (r: CoverageResult)
    requires var s := After(events); id in s.gaps.rows && AreTracksOf(tracks, s.gaps.rows[id].data, s.runs.rows)
    ensures var gap := After(events).gaps.rows[id].data;
      Outcome(gap.boundary, tracks, gap.hash.resolution) == Ok(r) && gap.finding == FindingOf(r)
  {
    hide Apply, Outcome, FindingOf, SoundSource, HashesItsRuns;
    GapsRestOnSoundRuns(events, id);
    var s := After(events);
    var gap := s.gaps.rows[id].data;
    SourcesExist(s, gap);
    assert tracks == TracksOf(gap.sourceRuns, RunsFor(s.runs.rows, gap.sourceRuns));
    r := Outcome(gap.boundary, tracks, gap.hash.resolution).value;
  }

  lemma SourcesExist(s: System, gap: Gap)
    requires forall id | id in gap.sourceRuns :: SoundSource(s.runs.rows, s.plans.rows, gap.areaId, id)
    ensures forall id | id in gap.sourceRuns :: id in s.runs.rows
  {
    forall id | id in gap.sourceRuns
      ensures id in s.runs.rows
    {
      assert SoundSource(s.runs.rows, s.plans.rows, gap.areaId, id);
    }
  }

  /** Part of a whole, without a quotient. */
  predicate IsShareOf(ratio: real, part: int, whole: int) {
    ratio * whole as real == part as real
  }

  /**
   After every run, for every stored gap: of all centres of the lattice that the boundary contains, the ratios are the
   shares passed at least once, at least twice and never; the area is the boundary's times the share never passed; and
   the severity is critical from twelve in a hundred and at least major from five in a hundred.
   */
  lemma StoredGapIsMeasured(events: seq<Event>, id: nat, tracks: seq<Track>)
    returns (g: Lattice, cells: set<Cell>, once: set<Cell>, twice: set<Cell>, never: set<Cell>)
    requires var s := After(events); id in s.gaps.rows && AreTracksOf(tracks, s.gaps.rows[id].data, s.runs.rows)
    ensures var gap := After(events).gaps.rows[id].data;
      && BoundsOf(Vertices(gap.boundary)) == Some(g.bounds) && g.resolution == gap.hash.resolution
      && (forall c :: c in cells <==> Encloses(gap.boundary, g.Centre(c)))
    ensures forall c :: c in once <==> c in cells && Passes(tracks, g.Centre(c)) >= 1
    ensures forall c :: c in twice <==> c in cells && Passes(tracks, g.Centre(c)) >= 2
    ensures forall c :: c in never <==> c in cells && Passes(tracks, g.Centre(c)) == 0
    ensures var gap := After(events).gaps.rows[id].data; var finding := gap.finding;
      && |cells| > 0
      && IsShareOf(finding.coverageRatio, |once|, |cells|) && IsShareOf(finding.overlapRatio, |twice|, |cells|)
      && IsShareOf(finding.gapRatio, |never|, |cells|)
      && finding.area == NetArea(gap.boundary) * finding.gapRatio
      && (finding.severity == Critical <==> 100 * |never| >= 12 * |cells|)
      && (finding.severity == Minor <==> 100 * |never| < 5 * |cells|)
  {
    hide Apply, Outcome, Encloses, Passes, BoundsOf, NetArea, GapArtifacts, Lattice.Centre;
    var gap := After(events).gaps.rows[id].data;
    var r := StoredGapIsCalculated(events, id, tracks);
    g, cells := Explain(gap.boundary, tracks, gap.hash.resolution);
    EnclosedIsTheWholeLattice(gap.boundary, g);
    once, twice := CoveredBy(cells, g, tracks, 1), CoveredBy(cells, g, tracks, 2);
    never := Uncovered(cells, g, tracks);
    ResultShares(gap.boundary, g, tracks, cells);
    SeverityOfShare(r.gapRatio, |never|, |cells|);
  }

  /** The ratios of a result as shares of its cells. */
  lemma ResultShares(boundary: Polygon, g: Lattice, tracks: seq<Track>, cells: set<Cell>)
    requires cells != {}
    ensures var r := Summary(boundary, g, tracks, cells);
      && IsShareOf(r.coverageRatio, |CoveredBy(cells, g, tracks, 1)|, |cells|)
      && IsShareOf(r.overlapRatio, |CoveredBy(cells, g, tracks, 2)|, |cells|)
      && IsShareOf(r.gapRatio, |Uncovered(cells, g, tracks)|, |cells|)
      && r.area == NetArea(boundary)
  {
    hide CoveredBy, NetArea, GapArtifacts, IsShareOf;
    var one := |CoveredBy(cells, g, tracks, 1)|;
    NeverPassed(cells, g, tracks);
    RatioIsShare(one, |cells|);
    RatioIsShare(|CoveredBy(cells, g, tracks, 2)|, |cells|);
    RestIsShare(one, |cells|);
  }

  lemma NeverPassed(cells: set<Cell>, g: Lattice, tracks: seq<Track>)
    ensures |Uncovered(cells, g, tracks)| == |cells| - |CoveredBy(cells, g, tracks, 1)|
  {
    hide Passes, Lattice.Centre;
    assert CoveredBy(cells, g, tracks, 1) <= cells;
  }

  lemma RatioIsShare(part: nat, whole: nat)
    requires whole > 0
    ensures IsShareOf(Ratio(part, whole), part, whole)
  {
  }

  lemma RestIsShare(part: nat, whole: nat)
    requires whole > 0
    ensures IsShareOf(1.0 - Ratio(part, whole), whole - part, whole)
  {
    var q, w := Ratio(part, whole), whole as real;
    assert q * w == part as real;
    assert (1.0 - q) * w == w - q * w;
  }

  lemma SeverityOfShare(ratio: real, part: nat, whole: nat)
    requires whole > 0 && IsShareOf(ratio, part, whole)
    ensures SeverityForRatio(ratio) == Critical <==> 100 * part >= 12 * whole
    ensures SeverityForRatio(ratio) == Minor <==> 100 * part < 5 * whole
  {
    ShareCompares(ratio, part, whole, 12);
    ShareCompares(ratio, part, whole, 5);
  }

  lemma ShareCompares(ratio: real, part: nat, whole: nat, percent: nat)
    requires whole > 0 && IsShareOf(ratio, part, whole)
    ensures ratio >= percent as real / 100.0 <==> 100 * part >= percent * whole
  {
    var w := whole as real;
    assert 100.0 * (ratio * w) == (100.0 * ratio) * w;
    assert (100 * part) as real == (100.0 * ratio) * w;
    assert (percent * whole) as real == percent as real * w;
    if 100.0 * ratio >= percent as real {
      assert (100.0 * ratio - percent as real) * w >= 0.0;
    } else {
      assert (percent as real - 100.0 * ratio) * w > 0.0;
    }
  }

  lemma StoredGapHasTracks(events: seq<Event>, id: nat) returns (tracks: seq<Track>)
    requires id in After(events).gaps.rows
    ensures AreTracksOf(tracks, After(events).gaps.rows[id].data, After(events).runs.rows)
  {
    hide Apply, Outcome, FindingOf, SoundSource, HashesItsRuns, Recomputes;
    GapsRestOnSoundRuns(events, id);
    var s := After(events);
    var gap := s.gaps.rows[id].data;
    SourcesExist(s, gap);
    tracks := TracksOf(gap.sourceRuns, RunsFor(s.runs.rows, gap.sourceRuns));
  }

  // ---------- The stored gap box and the stored line ----------

  /** The closed ring round a box, anticlockwise from its lower left corner. */
  predicate IsRingRound(ring: Ring, box: Bounds) {
    && |ring| == 5
    && ring[0] == Point(box.minX, box.minY) && ring[1] == Point(box.maxX, box.minY)
    && ring[2] == Point(box.maxX, box.maxY) && ring[3] == Point(box.minX, box.maxY) && ring[4] == ring[0]
  }

  /** Through the middle of the box along its longer side, and one cell farther at each end. */
  predicate RunsThrough(line: Line, box: Bounds, cell: real) {
    && |line| == 2
    && if box.maxX - box.minX >= box.maxY - box.minY then
         && line[0].x == box.minX - cell && line[1].x == box.maxX + cell
         && 2.0 * line[0].y == 2.0 * line[1].y == box.minY + box.maxY
       else
         && line[0].y == box.minY - cell && line[1].y == box.maxY + cell
         && 2.0 * line[0].x == 2.0 * line[1].x == box.minX + box.maxX
  }

  /**
   After every run, for every stored gap that misses something: its ring goes round the tight box of exactly the squares
   never passed over, its line runs through that box, and a run on that line added to the gap's runs makes the
   calculation report full coverage if and only if its swath is at least the short side of the box less one cell.
   */
  lemma StoredLineClosesTheGap(events: seq<Event>, id: nat, tracks: seq<Track>, runId: nat, swath: real)
    returns (g: Lattice, never: set<Cell>, box: Bounds)
    requires var s := After(events); id in s.gaps.rows && AreTracksOf(tracks, s.gaps.rows[id].data, s.runs.rows)
    requires After(events).gaps.rows[id].data.finding.gapRatio > 0.0
    ensures var gap := After(events).gaps.rows[id].data;
      && BoundsOf(Vertices(gap.boundary)) == Some(g.bounds) && g.resolution == gap.hash.resolution
      && (forall c :: c in never <==> Encloses(gap.boundary, g.Centre(c)) && Passes(tracks, g.Centre(c)) == 0)
      && IsHull(box, never, g)
    ensures var gap := After(events).gaps.rows[id].data;
      && |gap.finding.gap| == 1 && IsRingRound(gap.finding.gap[0], box)
      && RunsThrough(gap.finding.recommended, box, gap.hash.resolution)
    ensures var gap := After(events).gaps.rows[id].data;
      var flown := tracks + [Track(runId, [gap.finding.recommended], swath)];
      var again := Outcome(gap.boundary, flown, gap.hash.resolution);
      var short := Min(box.maxX - box.minX, box.maxY - box.minY);
      && again.Ok?
      && (again.value.coverageRatio == 1.0 <==> swath >= short - gap.hash.resolution)
      && (again.value.gapRatio == 0.0 <==> swath >= short - gap.hash.resolution)
  {
    hide Apply, Outcome, Encloses, Passes, BoundsOf, Lattice.Centre, IsHull, BoxRing, RecommendedLine;
    var gap := After(events).gaps.rows[id].data;
    var r := StoredGapIsCalculated(events, id, tracks);
    box := RecommendationClosesTheGap(gap.boundary, tracks, gap.hash.resolution, r, runId, swath);
    var box2;
    g, never, box2 := GapBoxIsTight(gap.boundary, tracks, gap.hash.resolution, r);
    RingTellsBox(box, box2);
    var _, _ := Explain(gap.boundary, tracks, gap.hash.resolution);
    EnclosedIsTheWholeLattice(gap.boundary, g);
    RingGoesRound(box);
    LineRunsThrough(box, gap.hash.resolution);
    ResultHasItsLine(gap.boundary, tracks, gap.hash.resolution, r, box);
  }

  lemma RingTellsBox(a: Bounds, b: Bounds)
    requires BoxRing(a) == BoxRing(b)
    ensures a == b
  {
    assert BoxRing(a)[0] == BoxRing(b)[0] && BoxRing(a)[2] == BoxRing(b)[2];
  }

  lemma RingGoesRound(box: Bounds)
    ensures IsRingRound(BoxRing(box), box)
  {
  }

  lemma LineRunsThrough(box: Bounds, cell: real)
    ensures RunsThrough(RecommendedLine(box, cell), box, cell)
  {
  }

  lemma ResultHasItsLine(boundary: Polygon, tracks: seq<Track>, resolution: real, r: CoverageResult, box: Bounds)
    requires Outcome(boundary, tracks, resolution) == Ok(r) && r.gapRatio > 0.0 && r.gap == [BoxRing(box)]
    ensures r.recommended == RecommendedLine(box, resolution)
  {
    hide Encloses, Passes, BoundsOf, Lattice.Centre, IsHull, BoxRing, RecommendedLine, FragmentFlag;
    var g, cells := Explain(boundary, tracks, resolution);
    NoGapMeansAllCovered(boundary, g, tracks, cells);
    GapIsReported(boundary, g, tracks, cells);
    RingTellsBox(box, Hull(Uncovered(cells, g, tracks), g).value);
  }

  /** A stored gap that misses nothing shows the middle of the boundary's box, in place of a ring and of a line. */
  lemma NothingMissedShowsTheMiddle(events: seq<Event>, id: nat) returns (box: Bounds, middle: Point)
    requires id in After(events).gaps.rows && After(events).gaps.rows[id].data.finding.gapRatio == 0.0
    ensures var gap := After(events).gaps.rows[id].data;
      && BoundsOf(Vertices(gap.boundary)) == Some(box)
      && 2.0 * middle.x == box.minX + box.maxX && 2.0 * middle.y == box.minY + box.maxY
      && gap.finding.gap == [[middle, middle, middle, middle]] && gap.finding.recommended == [middle, middle]
  {
    hide Apply, Outcome, Encloses, Passes, BoundsOf, Lattice.Centre, AreTracksOf;
    var gap := After(events).gaps.rows[id].data;
    var tracks := StoredGapHasTracks(events, id);
    var r := StoredGapIsCalculated(events, id, tracks);
    var g, cells := Explain(gap.boundary, tracks, gap.hash.resolution);
    box, middle := g.bounds, Midpoint(g.bounds);
  }
}
