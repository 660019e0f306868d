/** The coverage calculation: what it means on sets of cells, and the source's scan that computes it. */
module Coverage {
  import opened Wrappers
  import opened Plane
  import opened Polygons
  import opened Distance
  import opened Grid

  const MAX_CELLS := 60000

  datatype CoverageError = InvalidGeometry | GeometryTooLarge

  datatype CoverageResult = CoverageResult(
    area: real,
    coverageRatio: real,
    overlapRatio: real,
    gapRatio: real,
    gap: Polygon,
    recommended: Line,
    filteredFragments: nat,
    sampleCells: nat)

  /** The cells whose centre at least `n` tracks cover. */
  ghost function CoveredBy(cells: set<Cell>, g: Lattice, tracks: seq<Track>, n: nat): set<Cell> {
    set c | c in cells && Passes(tracks, g.Centre(c)) >= n
  }

  ghost function Uncovered(cells: set<Cell>, g: Lattice, tracks: seq<Track>): set<Cell> {
    cells - CoveredBy(cells, g, tracks, 1)
  }

  function Ratio(part: nat, whole: nat): real
    requires whole > 0
  {
    part as real / whole as real
  }

  datatype Artifacts = Artifacts(gap: Polygon, recommended: Line, filteredFragments: nat)

  function Midpoint(b: Bounds): Point {
    Point((b.minX + b.maxX) / 2.0, (b.minY + b.maxY) / 2.0)
  }

  /** The line through the middle of the gap box along its longer side, one cell longer at each end. */
  function RecommendedLine(box: Bounds, resolution: real): Line {
    var m := Midpoint(box);
    if box.Width() >= box.Height() then
      [Point(box.minX - resolution, m.y), Point(box.maxX + resolution, m.y)]
    else
      [Point(m.x, box.minY - resolution), Point(m.x, box.maxY + resolution)]
  }

  function BoxRing(b: Bounds): Ring {
    [Point(b.minX, b.minY), Point(b.maxX, b.minY), Point(b.maxX, b.maxY), Point(b.minX, b.maxY), Point(b.minX, b.minY)]
  }

  /** 1 when the gap box is smaller than four cells. */
  function FragmentFlag(box: Bounds, resolution: real): nat {
    if box.Width() * box.Height() < resolution * resolution * 4.0 then 1 else 0
  }

  function GapArtifacts(bounds: Bounds, box: Option<Bounds>, resolution: real, ratio: real): Artifacts {
    if ratio <= 0.0 || box.None? then
      var centre := Midpoint(bounds);
      Artifacts([[centre, centre, centre, centre]], [centre, centre], 0)
    else
      Artifacts([BoxRing(box.value)], RecommendedLine(box.value, resolution),
                FragmentFlag(box.value, resolution))
  }

  /** The result for a non-empty set of analysed cells, from the sizes of its covered parts. */
  ghost function Summary(boundary: Polygon, g: Lattice, tracks: seq<Track>, cells: set<Cell>): CoverageResult
    requires cells != {}
  {
    var coverage := Ratio(|CoveredBy(cells, g, tracks, 1)|, |cells|);
    var artifacts := GapArtifacts(g.bounds, Hull(Uncovered(cells, g, tracks), g), g.resolution, 1.0 - coverage);
    CoverageResult(NetArea(boundary), coverage, Ratio(|CoveredBy(cells, g, tracks, 2)|, |cells|), 1.0 - coverage,
                   artifacts.gap, artifacts.recommended, artifacts.filteredFragments, |cells|)
  }

  /** The cells analysed for a boundary: those of the scanned window whose centre it contains. */
  ghost function Analysed(boundary: Polygon, g: Lattice): set<Cell>
    requires g.resolution > 0.0
  {
    Enclosed(Window(g.Rows(), g.Columns()), boundary, g)
  }

  /** The outcome of a coverage calculation. */
  ghost function Outcome(boundary: Polygon, tracks: seq<Track>, resolution: real): Result<CoverageResult,
      CoverageError> {
    var box := BoundsOf(Vertices(boundary));
    if resolution <= 0.0 || tracks == [] || box.None? || box.value.Width() <= 0.0 || box.value.Height() <= 0.0 then
      Err(InvalidGeometry)
    else
      var g := Lattice(box.value, resolution);
      if g.CellCount() > MAX_CELLS then Err(GeometryTooLarge)
      else if Analysed(boundary, g) == {} then Err(InvalidGeometry)
      else Ok(Summary(boundary, g, tracks, Analysed(boundary, g)))
  }

  // ---------- The scan ----------

  /** The cells scanned before position (row, column), row by row. */
  ghost function Visited(columns: int, row: int, column: int): set<Cell> {
    set r, c | 0 <= r <= row && 0 <= c < columns && (r < row || c < column) :: Cell(r, c)
  }

  lemma VisitCell(columns: int, row: nat, column: nat)
    requires column < columns
    ensures Visited(columns, row, column + 1) == Visited(columns, row, column) + {Cell(row, column)}
    ensures Cell(row, column) !in Visited(columns, row, column)
  {
  }

  lemma VisitRow(columns: int, row: nat)
    ensures Visited(columns, row, columns) == Visited(columns, row + 1, 0)
  {
  }

  lemma VisitAll(rows: nat, columns: int)
    ensures Visited(columns, rows, 0) == Window(rows, columns)
  {
  }

  lemma SpanHasCells(span: real, resolution: real)
    requires span > 0.0 && resolution > 0.0
    ensures Ceil(span / resolution) > 0
  {
    assert span / resolution > 0.0;
  }

  lemma LatticeHasCells(g: Lattice)
    requires g.resolution > 0.0 && g.bounds.Width() > 0.0 && g.bounds.Height() > 0.0
    ensures g.Columns() > 0 && g.Rows() > 0
  {
    SpanHasCells(g.bounds.Width(), g.resolution);
    SpanHasCells(g.bounds.Height(), g.resolution);
  }

  /** The running totals of the scan and the cells they stand for. */
  ghost predicate Tally(done: set<Cell>, boundary: Polygon, g: Lattice, tracks: seq<Track>,
                        inside: nat, covered: nat, overlap: nat, gap: Option<Bounds>) {
    var cells := Enclosed(done, boundary, g);
    && inside == |cells|
    && covered == |CoveredBy(cells, g, tracks, 1)|
    && overlap == |CoveredBy(cells, g, tracks, 2)|
    && IsHullOrEmpty(gap, Uncovered(cells, g, tracks), g)
  }

  lemma TallyOutside(done: set<Cell>, boundary: Polygon, g: Lattice, tracks: seq<Track>,
                     inside: nat, covered: nat, overlap: nat, gap: Option<Bounds>, c: Cell)
    requires Tally(done, boundary, g, tracks, inside, covered, overlap, gap)
    requires !Encloses(boundary, g.Centre(c))
    ensures Tally(done + {c}, boundary, g, tracks, inside, covered, overlap, gap)
  {
    hide Passes, Encloses, Lattice.Centre;
    assert Enclosed(done + {c}, boundary, g) == Enclosed(done, boundary, g);
  }

  lemma TallyInside(done: set<Cell>, boundary: Polygon, g: Lattice, tracks: seq<Track>,
                    inside: nat, covered: nat, overlap: nat, gap: Option<Bounds>, c: Cell, passes: nat)
    requires Tally(done, boundary, g, tracks, inside, covered, overlap, gap)
    requires c !in done && Encloses(boundary, g.Centre(c))
    requires passes == Passes(tracks, g.Centre(c))
    ensures Tally(done + {c}, boundary, g, tracks, inside + 1,
                  if passes > 0 then covered + 1 else covered,
                  if passes > 1 then overlap + 1 else overlap,
                  if passes == 0 then Some(Join(gap, g.Square(c))) else gap)
  {
    hide Tally, Passes, Encloses;
    if passes == 0 {
      TallyUncovered(done, boundary, g, tracks, inside, covered, overlap, gap, c);
    } else {
      TallyCovered(done, boundary, g, tracks, inside, covered, overlap, gap, c);
    }
  }

  lemma TallyUncovered(done: set<Cell>, boundary: Polygon, g: Lattice, tracks: seq<Track>,
                       inside: nat, covered: nat, overlap: nat, gap: Option<Bounds>, c: Cell)
    requires Tally(done, boundary, g, tracks, inside, covered, overlap, gap)
    requires c !in done && Encloses(boundary, g.Centre(c)) && Passes(tracks, g.Centre(c)) == 0
    ensures Tally(done + {c}, boundary, g, tracks, inside + 1, covered, overlap, Some(Join(gap, g.Square(c))))
  {
    hide Passes, Encloses, CoveredBy, Uncovered, IsHull, Lattice.Square, Lattice.Centre, Join;
    var cells := Enclosed(done, boundary, g);
    OneMoreEnclosed(done, boundary, g, c);
    OneMoreCovered(cells, g, tracks, c, 1);
    OneMoreCovered(cells, g, tracks, c, 2);
    OneMoreUncovered(cells, g, tracks, c);
    HullGrows(gap, Uncovered(cells, g, tracks), g, c);
  }

  lemma TallyCovered(done: set<Cell>, boundary: Polygon, g: Lattice, tracks: seq<Track>,
                     inside: nat, covered: nat, overlap: nat, gap: Option<Bounds>, c: Cell)
    requires Tally(done, boundary, g, tracks, inside, covered, overlap, gap)
    requires c !in done && Encloses(boundary, g.Centre(c)) && Passes(tracks, g.Centre(c)) > 0
    ensures Tally(done + {c}, boundary, g, tracks, inside + 1, covered + 1,
                  if Passes(tracks, g.Centre(c)) > 1 then overlap + 1 else overlap, gap)
  {
    hide Passes, Encloses, CoveredBy, Uncovered, IsHullOrEmpty, Lattice.Centre;
    var cells := Enclosed(done, boundary, g);
    OneMoreEnclosed(done, boundary, g, c);
    OneMoreCovered(cells, g, tracks, c, 1);
    OneMoreCovered(cells, g, tracks, c, 2);
    OneMoreUncovered(cells, g, tracks, c);
  }

  lemma OneMoreEnclosed(done: set<Cell>, boundary: Polygon, g: Lattice, c: Cell)
    requires c !in done && Encloses(boundary, g.Centre(c))
    ensures Enclosed(done + {c}, boundary, g) == Enclosed(done, boundary, g) + {c}
    ensures c !in Enclosed(done, boundary, g)
    ensures |Enclosed(done + {c}, boundary, g)| == |Enclosed(done, boundary, g)| + 1
  {
    hide Encloses, Lattice.Centre;
    assert Enclosed(done + {c}, boundary, g) == Enclosed(done, boundary, g) + {c};
  }

  lemma OneMoreCovered(cells: set<Cell>, g: Lattice, tracks: seq<Track>, c: Cell, n: nat)
    requires c !in cells
    ensures |CoveredBy(cells + {c}, g, tracks, n)|
         == |CoveredBy(cells, g, tracks, n)| + if Passes(tracks, g.Centre(c)) >= n then 1 else 0
  {
    hide Passes, Lattice.Centre;
    var extra := if Passes(tracks, g.Centre(c)) >= n then {c} else {};
    assert CoveredBy(cells + {c}, g, tracks, n) == CoveredBy(cells, g, tracks, n) + extra;
  }

  lemma OneMoreUncovered(cells: set<Cell>, g: Lattice, tracks: seq<Track>, c: Cell)
    requires c !in cells
    ensures Uncovered(cells + {c}, g, tracks)
         == Uncovered(cells, g, tracks) + if Passes(tracks, g.Centre(c)) == 0 then {c} else {}
  {
    hide Passes, Lattice.Centre;
  }

  /** The result put together from the totals of a scan. */
  function Assemble(area: real, g: Lattice, inside: nat, covered: nat, overlap: nat,
                    gap: Option<Bounds>): CoverageResult
    requires inside > 0
  {
    var coverage := Ratio(covered, inside);
    var artifacts := GapArtifacts(g.bounds, gap, g.resolution, 1.0 - coverage);
    CoverageResult(area, coverage, Ratio(overlap, inside), 1.0 - coverage,
                   artifacts.gap, artifacts.recommended, artifacts.filteredFragments, inside)
  }

  lemma TallyGivesSummary(boundary: Polygon, g: Lattice, tracks: seq<Track>,
                          inside: nat, covered: nat, overlap: nat, gap: Option<Bounds>)
    requires g.resolution > 0.0
    requires Tally(Window(g.Rows(), g.Columns()), boundary, g, tracks, inside, covered, overlap, gap)
    ensures inside == 0 <==> Analysed(boundary, g) == {}
    ensures inside > 0 ==>
      Summary(boundary, g, tracks, Analysed(boundary, g))
          == Assemble(NetArea(boundary), g, inside, covered, overlap, gap)
  {
    var cells := Analysed(boundary, g);
    HullIsUnique(gap, Hull(Uncovered(cells, g, tracks), g), Uncovered(cells, g, tracks), g);
  }

  /** The source's calculation: bounding box, guards, nested scan, ratios and artifacts. */
  method CalculateCoverage(boundary: Polygon, tracks: seq<Track>, resolution: real)
    returns (r: Result<CoverageResult, CoverageError>)
    ensures r == Outcome(boundary, tracks, resolution)
  {
    if resolution <= 0.0 {
      return Err(InvalidGeometry);
    }
    if |tracks| == 0 {
      return Err(InvalidGeometry);
    }
    var box := PolygonBounds(boundary);
    if box.None? || box.value.Width() <= 0.0 || box.value.Height() <= 0.0 {
      return Err(InvalidGeometry);
    }
    var g := Lattice(box.value, resolution);
    if g.CellCount() > MAX_CELLS {
      return Err(GeometryTooLarge);
    }
    LatticeHasCells(g);
    var inside, covered, overlap, gap := Scan(boundary, tracks, g, g.Rows(), g.Columns());
    TallyGivesSummary(boundary, g, tracks, inside, covered, overlap, gap);
    if inside == 0 {
      return Err(InvalidGeometry);
    }
    var area := PolygonArea(boundary);
    r := Ok(Assemble(area, g, inside, covered, overlap, gap));
  }

  /** The nested loop over rows and columns. */
  method Scan(boundary: Polygon, tracks: seq<Track>, g: Lattice, rows: nat, columns: nat)
    returns (inside: nat, covered: nat, overlap: nat, gap: Option<Bounds>)
    requires boundary != []
    ensures Tally(Window(rows, columns), boundary, g, tracks, inside, covered, overlap, gap)
  {
    inside, covered, overlap, gap := 0, 0, 0, None;
    assert Visited(columns, 0, 0) == {};
    for row := 0 to rows
      invariant Tally(Visited(columns, row, 0), boundary, g, tracks, inside, covered, overlap, gap)
    {
      for column := 0 to columns
        invariant Tally(Visited(columns, row, column), boundary, g, tracks, inside, covered, overlap, gap)
      {
        var c := Cell(row, column);
        var point := g.Centre(c);
        VisitCell(columns, row, column);
        var contained := PolygonContains(boundary, point);
        if !contained {
          TallyOutside(Visited(columns, row, column), boundary, g, tracks, inside, covered, overlap, gap, c);
          continue;
        }
        var passes := CoveragePasses(point, tracks);
        TallyInside(Visited(columns, row, column), boundary, g, tracks, inside, covered, overlap, gap, c, passes);
        inside := inside + 1;
        if passes > 0 {
          covered := covered + 1;
        }
        if passes > 1 {
          overlap := overlap + 1;
        }
        if passes == 0 {
          gap := Some(Join(gap, g.Square(c)));
        }
      }
      VisitRow(columns, row);
    }
    VisitAll(rows, columns);
  }
}
