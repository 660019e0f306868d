/** What every successful coverage result guarantees. */
module CoverageFacts {
  import opened Collections
  import opened Algebra
  import opened Wrappers
  import opened Plane
  import opened Polygons
  import opened Distance
  import opened Grid
  import opened Coverage

  /** The lattice and the analysed cells behind a successful result. */
  lemma Explain(boundary: Polygon, tracks: seq<Track>, resolution: real) returns (g: Lattice, cells: set<Cell>)
    requires Outcome(boundary, tracks, resolution).Ok?
    ensures resolution > 0.0 && BoundsOf(Vertices(boundary)) == Some(g.bounds) && g.resolution == resolution
    ensures cells == Analysed(boundary, g) && cells != {} && g.CellCount() <= MAX_CELLS
    ensures g.bounds.Width() > 0.0 && g.bounds.Height() > 0.0
    ensures forall more | more != [] ::
      Outcome(boundary, more, resolution) == Ok(Summary(boundary, g, more, cells))
    ensures tracks != []
  {
    g := Lattice(BoundsOf(Vertices(boundary)).value, resolution);
    cells := Analysed(boundary, g);
  }

  lemma Shares(cells: set<Cell>, g: Lattice, tracks: seq<Track>)
    ensures CoveredBy(cells, g, tracks, 2) <= CoveredBy(cells, g, tracks, 1) <= cells
    ensures |CoveredBy(cells, g, tracks, 2)| <= |CoveredBy(cells, g, tracks, 1)| <= |cells|
    ensures |CoveredBy(cells, g, tracks, 1)| == |cells| <==> Uncovered(cells, g, tracks) == {}
  {
    SubsetSize(CoveredBy(cells, g, tracks, 2), CoveredBy(cells, g, tracks, 1));
    SubsetSize(CoveredBy(cells, g, tracks, 1), cells);
    if CoveredBy(cells, g, tracks, 1) == cells {
      assert Uncovered(cells, g, tracks) == {};
    } else {
      var c :| c in cells && c !in CoveredBy(cells, g, tracks, 1);
      assert c in Uncovered(cells, g, tracks);
    }
  }

  lemma RatioGrows(a: nat, b: nat, whole: nat)
    requires whole > 0 && a <= b
    ensures 0.0 <= Ratio(a, whole) <= Ratio(b, whole)
    ensures Ratio(a, whole) == Ratio(b, whole) ==> a == b
    ensures Ratio(whole, whole) == 1.0
  {
    FractionsGrow(a as real, b as real, whole as real);
    WholeFraction(whole as real);
  }

  /** No gap is reported exactly when every analysed cell is covered. */
  lemma NoGapMeansAllCovered(boundary: Polygon, g: Lattice, tracks: seq<Track>, cells: set<Cell>)
    requires cells != {}
    ensures var r := Summary(boundary, g, tracks, cells);
      (r.coverageRatio == 1.0 <==> Uncovered(cells, g, tracks) == {}) && 0.0 <= r.overlapRatio <= r.coverageRatio <= 1.0
  {
    Shares(cells, g, tracks);
    var two, one := |CoveredBy(cells, g, tracks, 2)|, |CoveredBy(cells, g, tracks, 1)|;
    RatioGrows(two, one, |cells|);
    RatioGrows(one, |cells|, |cells|);
  }

  /** The ratios of a result, its sample size, and the lattice cells it stands for. */
  lemma ResultIsConsistent(boundary: Polygon, tracks: seq<Track>, resolution: real, r: CoverageResult)
    requires Outcome(boundary, tracks, resolution) == Ok(r)
    ensures 0.0 <= r.overlapRatio <= r.coverageRatio <= 1.0
    ensures r.coverageRatio + r.gapRatio == 1.0
    ensures 1 <= r.sampleCells <= MAX_CELLS
    ensures r.area == NetArea(boundary)
  {
    var g, cells := Explain(boundary, tracks, resolution);
    NoGapMeansAllCovered(boundary, g, tracks, cells);
    LatticeHasCells(g);
    WindowSize(g.Rows(), g.Columns());
    SubsetSize(cells, Window(g.Rows(), g.Columns()));
  }

  /** The number of samples is the number of centres, over the whole unbounded lattice, that the boundary contains. */
  lemma SamplesAreAllCentres(boundary: Polygon, tracks: seq<Track>, resolution: real, r: CoverageResult)
    returns (g: Lattice, all: set<Cell>)
    requires Outcome(boundary, tracks, resolution) == Ok(r)
    ensures g.resolution == resolution && BoundsOf(Vertices(boundary)) == Some(g.bounds)
    ensures forall c :: c in all <==> Encloses(boundary, g.Centre(c))
    ensures |all| == r.sampleCells
  {
    g, all := Explain(boundary, tracks, resolution);
    EnclosedIsTheWholeLattice(boundary, g);
  }

  // ---------- Fragments ----------

  /** A block of rows and columns holding a set of cells, each of its four borders being attained. */
  ghost predicate Spans(cells: set<Cell>, row: int, rows: int, column: int, columns: int) {
    && (forall c | c in cells :: row <= c.row < row + rows && column <= c.column < column + columns)
    && (exists c :: c in cells && c.row == row)
    && (exists c :: c in cells && c.row == row + rows - 1)
    && (exists c :: c in cells && c.column == column)
    && (exists c :: c in cells && c.column == column + columns - 1)
  }

  lemma OffsetsGrow(a: int, b: int, resolution: real)
    requires resolution > 0.0 && a <= b
    ensures Offset(a, resolution) <= Offset(b, resolution)
  {
    Monotone(a as real + 0.5, b as real + 0.5, resolution);
  }

  lemma OffsetsApart(a: int, n: int, resolution: real)
    ensures Offset(a + n - 1, resolution) - Offset(a, resolution) + resolution == Extent(n, resolution)
  {
  }

  function Extent(n: int, resolution: real): real {
    n as real * resolution
  }

  predicate FewerThanFour(columns: int, rows: int) {
    columns * rows < 4
  }

  /** The box of a block of cells. */
  ghost function BlockBox(g: Lattice, row: int, rows: int, column: int, columns: int): Bounds {
    var low, high := g.Square(Cell(row, column)), g.Square(Cell(row + rows - 1, column + columns - 1));
    Bounds(low.minX, low.minY, high.maxX, high.maxY)
  }

  lemma SquareWithin(g: Lattice, c: Cell, row: int, rows: int, column: int, columns: int)
    requires g.resolution > 0.0 && row <= c.row < row + rows && column <= c.column < column + columns
    ensures g.Square(c).Within(BlockBox(g, row, rows, column, columns))
  {
    hide Offset;
    OffsetsGrow(column, c.column, g.resolution);
    OffsetsGrow(c.column, column + columns - 1, g.resolution);
    OffsetsGrow(row, c.row, g.resolution);
    OffsetsGrow(c.row, row + rows - 1, g.resolution);
  }

  /** The sides of a cell's square are those of its row and column. */
  lemma SidesAgree(g: Lattice, a: Cell, b: Cell)
    ensures a.column == b.column ==> g.Square(a).minX == g.Square(b).minX && g.Square(a).maxX == g.Square(b).maxX
    ensures a.row == b.row ==> g.Square(a).minY == g.Square(b).minY && g.Square(a).maxY == g.Square(b).maxY
  {
    hide Offset;
  }

  lemma HullIsBlockBox(cells: set<Cell>, g: Lattice, box: Bounds, row: int, rows: int, column: int, columns: int)
    requires g.resolution > 0.0 && IsHull(box, cells, g) && Spans(cells, row, rows, column, columns)
    ensures box == BlockBox(g, row, rows, column, columns)
  {
    hide Offset, Lattice.Square, Lattice.Centre, Bounds.Within;
    var block := BlockBox(g, row, rows, column, columns);
    var low, high := Cell(row, column), Cell(row + rows - 1, column + columns - 1);
    forall c | c in cells
      ensures g.Square(c).Within(block)
    {
      SquareWithin(g, c, row, rows, column, columns);
    }
    var a :| a in cells && a.column == column;
    var b :| b in cells && b.row == row;
    var c :| c in cells && c.column == column + columns - 1;
    var d :| d in cells && d.row == row + rows - 1;
    SidesAgree(g, a, low);
    SidesAgree(g, b, low);
    SidesAgree(g, c, high);
    SidesAgree(g, d, high);
    HullsAgree(box, block, cells, g);
  }

  lemma SizeOfBlockBox(g: Lattice, row: int, rows: int, column: int, columns: int)
    ensures BlockBox(g, row, rows, column, columns).Width() == Extent(columns, g.resolution)
    ensures BlockBox(g, row, rows, column, columns).Height() == Extent(rows, g.resolution)
  {
    hide Offset, Extent;
    OffsetsApart(column, columns, g.resolution);
    OffsetsApart(row, rows, g.resolution);
  }

  lemma FlagOfSize(box: Bounds, m: int, n: int, d: real)
    requires d > 0.0 && box.Width() == Extent(m, d) && box.Height() == Extent(n, d)
    ensures FragmentFlag(box, d) == 1 <==> FewerThanFour(m, n)
  {
    CompareAreas(m as real, n as real, d, box.Width(), box.Height());
    ProductOfIntegers(m, n);
  }

  lemma FlagOfHull(cells: set<Cell>, g: Lattice, box: Bounds, row: int, rows: int, column: int, columns: int)
    requires g.resolution > 0.0 && IsHull(box, cells, g) && Spans(cells, row, rows, column, columns)
    ensures FragmentFlag(box, g.resolution) == 1 <==> FewerThanFour(columns, rows)
  {
    hide FragmentFlag, Extent, FewerThanFour;
    HullIsBlockBox(cells, g, box, row, rows, column, columns);
    SizeOfBlockBox(g, row, rows, column, columns);
    FlagOfSize(box, columns, rows, g.resolution);
  }

  /** When some cell is uncovered, the artifacts are those of the tight box around the uncovered cells. */
  lemma GapIsReported(boundary: Polygon, g: Lattice, tracks: seq<Track>, cells: set<Cell>)
    requires cells != {} && Uncovered(cells, g, tracks) != {}
    ensures var r := Summary(boundary, g, tracks, cells);
      var box := Hull(Uncovered(cells, g, tracks), g).value;
      && r.gapRatio > 0.0
      && r.gap == [BoxRing(box)]
      && r.recommended == RecommendedLine(box, g.resolution)
      && r.filteredFragments == FragmentFlag(box, g.resolution)
  {
    NoGapMeansAllCovered(boundary, g, tracks, cells);
  }

  /** A gap is filtered as a fragment exactly when the block of cells it spans has fewer than four cells. */
  lemma FragmentMeansFewCells(boundary: Polygon, g: Lattice, tracks: seq<Track>, cells: set<Cell>,
                              row: int, rows: int, column: int, columns: int)
    requires g.resolution > 0.0
    requires Spans(Uncovered(cells, g, tracks), row, rows, column, columns)
    ensures cells != {}
    ensures Summary(boundary, g, tracks, cells).filteredFragments == 1 <==> FewerThanFour(columns, rows)
  {
    hide FragmentFlag, FewerThanFour;
    var gaps := Uncovered(cells, g, tracks);
    var a :| a in gaps && a.row == row;
    var box := Hull(gaps, g).value;
    GapIsReported(boundary, g, tracks, cells);
    FlagOfHull(gaps, g, box, row, rows, column, columns);
  }

  lemma {:induction false} BlockExists(cells: set<Cell>) returns (row: int, rows: int, column: int, columns: int)
    requires cells != {}
    ensures Spans(cells, row, rows, column, columns)
  {
    var c :| c in cells;
    var rest := cells - {c};
    if rest == {} {
      assert cells == {c};
      row, rows, column, columns := c.row, 1, c.column, 1;
    } else {
      row, rows, column, columns := BlockExists(rest);
      assert cells == rest + {c};
      var top, right := row + rows - 1, column + columns - 1;
      row, column := if c.row < row then c.row else row, if c.column < column then c.column else column;
      rows := (if c.row > top then c.row else top) - row + 1;
      columns := (if c.column > right then c.column else right) - column + 1;
    }
  }

  /** The fragment flag of a result is set exactly when there is a gap and its block has fewer than four cells. */
  lemma FragmentFlagIsExact(boundary: Polygon, tracks: seq<Track>, resolution: real, r: CoverageResult)
    returns (g: Lattice, gaps: set<Cell>, rows: int, columns: int)
    requires Outcome(boundary, tracks, resolution) == Ok(r)
    ensures g.resolution == resolution && BoundsOf(Vertices(boundary)) == Some(g.bounds)
    ensures forall c :: c in gaps <==> c in Analysed(boundary, g) && Passes(tracks, g.Centre(c)) == 0
    ensures gaps == {} ==> r.filteredFragments == 0
    ensures gaps != {} ==> exists row, column :: Spans(gaps, row, rows, column, columns)
    ensures gaps != {} ==> (r.filteredFragments == 1 <==> FewerThanFour(columns, rows)) && r.filteredFragments <= 1
  {
    hide FragmentFlag, FewerThanFour, Encloses, Spans;
    var cells;
    g, cells := Explain(boundary, tracks, resolution);
    gaps, rows, columns := Uncovered(cells, g, tracks), 0, 0;
    if gaps == {} {
      NoGapMeansAllCovered(boundary, g, tracks, cells);
    } else {
      var row, column;
      row, rows, column, columns := BlockExists(gaps);
      FragmentMeansFewCells(boundary, g, tracks, cells, row, rows, column, columns);
      GapIsReported(boundary, g, tracks, cells);
      FlagIsZeroOrOne(Hull(gaps, g).value, resolution);
    }
  }

  /** A reported gap is the tight box around the squares of exactly the analysed cells that no track covers. */
  lemma GapBoxIsTight(boundary: Polygon, tracks: seq<Track>, resolution: real, r: CoverageResult)
    returns (g: Lattice, gaps: set<Cell>, box: Bounds)
    requires Outcome(boundary, tracks, resolution) == Ok(r) && r.gapRatio > 0.0
    ensures g.resolution == resolution && BoundsOf(Vertices(boundary)) == Some(g.bounds)
    ensures forall c :: c in gaps <==> c in Analysed(boundary, g) && Passes(tracks, g.Centre(c)) == 0
    ensures gaps != {} && IsHull(box, gaps, g) && r.gap == [BoxRing(box)]
  {
    hide FragmentFlag, Encloses, RecommendedLine, BoxRing;
    var cells;
    g, cells := Explain(boundary, tracks, resolution);
    gaps := Uncovered(cells, g, tracks);
    NoGapMeansAllCovered(boundary, g, tracks, cells);
    GapIsReported(boundary, g, tracks, cells);
    box := Hull(gaps, g).value;
  }

  lemma FlagIsZeroOrOne(box: Bounds, resolution: real)
    ensures FragmentFlag(box, resolution) <= 1
  {
  }

  // ---------- The limit on the grid ----------

  /** The least number of cells whose sides together reach across the span. */
  predicate JustReaches(cells: int, span: real, resolution: real) {
    (cells - 1) as real * resolution < span <= cells as real * resolution
  }

  lemma CeilIsLeast(k: int, x: real)
    ensures k == Ceil(x) <==> (k - 1) as real < x <= k as real
  {
    if (k - 1) as real < x <= k as real {
      assert (-k) as real <= -x < (-k + 1) as real;
      assert (-x).Floor == -k;
    }
  }

  lemma Between(low: real, q: real, high: real, span: real, d: real)
    requires d > 0.0 && q * d == span
    ensures low * d < span <= high * d <==> low < q <= high
  {
    Scaled(low, q, d);
    Scaled(q, high, d);
  }

  lemma CellsJustReach(cells: int, span: real, resolution: real)
    requires resolution > 0.0
    ensures cells == Ceil(span / resolution) <==> JustReaches(cells, span, resolution)
  {
    hide Ceil;
    var q := span / resolution;
    Quotient(span, resolution);
    var low, high := (cells - 1) as real, cells as real;
    CeilIsLeast(cells, q);
    Between(low, q, high, span, resolution);
    assert JustReaches(cells, span, resolution) <==> low * resolution < span <= high * resolution;
  }

  /** A boundary of some width and height is too large exactly when more than 60000 cells are needed to span its box. */
  lemma TooLargeIff(boundary: Polygon, tracks: seq<Track>, resolution: real)
    ensures Outcome(boundary, tracks, resolution) == Err(GeometryTooLarge) <==>
      && resolution > 0.0 && tracks != []
      && exists box, columns, rows ::
           && BoundsOf(Vertices(boundary)) == Some(box) && box.Width() > 0.0 && box.Height() > 0.0
           && JustReaches(columns, box.Width(), resolution) && JustReaches(rows, box.Height(), resolution)
           && rows * columns > 60000
  {
    hide JustReaches, Analysed, Summary, Ceil;
    var box := BoundsOf(Vertices(boundary));
    if resolution > 0.0 && box.Some? {
      var g := Lattice(box.value, resolution);
      CellsJustReach(g.Columns(), box.value.Width(), resolution);
      CellsJustReach(g.Rows(), box.value.Height(), resolution);
      forall columns, rows
        | JustReaches(columns, box.value.Width(), resolution) && JustReaches(rows, box.value.Height(), resolution)
        ensures rows * columns == g.CellCount()
      {
        CellsJustReach(columns, box.value.Width(), resolution);
        CellsJustReach(rows, box.value.Height(), resolution);
      }
    }
  }
}
