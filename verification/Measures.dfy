/** What of a boundary enters a coverage finding: the centres it contains, its area, and the middle of its box. */
module Measures {
  import opened Collections
  import opened Algebra
  import opened Wrappers
  import opened Plane
  import opened Polygons
  import opened Distance
  import opened Grid
  import opened Coverage
  import opened CoverageFacts
  import opened Records

  /** The lattice over a boundary's box. */
  ghost function LatticeOf(boundary: Polygon, resolution: real): Lattice
    requires BoundsOf(Vertices(boundary)).Some?
  {
    Lattice(BoundsOf(Vertices(boundary)).value, resolution)
  }

  /** Coverage can be calculated: whether it can does not depend on the tracks, as long as there are some. */
  ghost predicate Measurable(boundary: Polygon, resolution: real) {
    && resolution > 0.0
    && var box := BoundsOf(Vertices(boundary));
    && box.Some? && box.value.Width() > 0.0 && box.value.Height() > 0.0
    && LatticeOf(boundary, resolution).CellCount() <= MAX_CELLS
    && Analysed(boundary, LatticeOf(boundary, resolution)) != {}
  }

  lemma OkIffMeasurable(boundary: Polygon, tracks: seq<Track>, resolution: real)
    ensures Outcome(boundary, tracks, resolution).Ok? <==> tracks != [] && Measurable(boundary, resolution)
    ensures Outcome(boundary, tracks, resolution).Ok? ==>
      var g := LatticeOf(boundary, resolution);
      Analysed(boundary, g) != {} && Outcome(boundary, tracks, resolution)
          == Ok(Summary(boundary, g, tracks, Analysed(boundary, g)))
  {
    hide BoundsOf, Summary, Encloses;
  }

  ghost function CentresOf(cells: set<Cell>, g: Lattice): set<Point> {
    set c | c in cells :: g.Centre(c)
  }

  ghost function Centres(boundary: Polygon, resolution: real): set<Point>
    requires Measurable(boundary, resolution)
  {
    CentresOf(Analysed(boundary, LatticeOf(boundary, resolution)), LatticeOf(boundary, resolution))
  }

  /** The two boundaries measure the same. */
  ghost predicate SameMeasure(a: Polygon, b: Polygon, resolution: real) {
    && Measurable(a, resolution) && Measurable(b, resolution)
    && Centres(a, resolution) == Centres(b, resolution)
    && NetArea(a) == NetArea(b)
    && Midpoint(LatticeOf(a, resolution).bounds) == Midpoint(LatticeOf(b, resolution).bounds)
  }

  // ---------- Counting centres instead of cells ----------

  lemma CentresAreOneToOne(g: Lattice)
    requires g.resolution > 0.0
    ensures OneToOne((c: Cell) => g.Centre(c))
  {
    forall a: Cell, b: Cell | g.Centre(a) == g.Centre(b)
      ensures a == b
    {
      SameOffset(a.column, b.column, g.resolution);
      SameOffset(a.row, b.row, g.resolution);
    }
  }

  lemma SameOffset(a: int, b: int, resolution: real)
    requires resolution > 0.0 && Offset(a, resolution) == Offset(b, resolution)
    ensures a == b
  {
    Cancel(a as real + 0.5, b as real + 0.5, resolution);
  }

  /** As many cells as centres. */
  lemma AsManyCentres(cells: set<Cell>, g: Lattice)
    requires g.resolution > 0.0
    ensures |CentresOf(cells, g)| == |cells|
  {
    hide Offset;
    CentresAreOneToOne(g);
    var centre := (c: Cell) => g.Centre(c);
    ImageSize(cells, centre);
    assert CentresOf(cells, g) == Image(cells, centre);
  }

  ghost function PassedBy(points: set<Point>, tracks: seq<Track>, n: nat): set<Point> {
    set p | p in points && Passes(tracks, p) >= n
  }

  lemma CoveredCentres(cells: set<Cell>, g: Lattice, tracks: seq<Track>, n: nat)
    requires g.resolution > 0.0
    ensures |CoveredBy(cells, g, tracks, n)| == |PassedBy(CentresOf(cells, g), tracks, n)|
  {
    hide Lattice.Centre, Passes;
    AsManyCentres(CoveredBy(cells, g, tracks, n), g);
    assert CentresOf(CoveredBy(cells, g, tracks, n), g) == PassedBy(CentresOf(cells, g), tracks, n);
  }

  lemma UncoveredCentres(cells: set<Cell>, g: Lattice, tracks: seq<Track>)
    ensures CentresOf(Uncovered(cells, g, tracks), g) == CentresOf(cells, g) - PassedBy(CentresOf(cells, g), tracks, 1)
  {
    hide Lattice.Centre, Passes;
  }

  // ---------- Boxes around centres ----------

  /** The cell of one lattice with the same centre as a cell of the other. */
  lemma Twin(a: set<Cell>, g: Lattice, b: set<Cell>, h: Lattice, d: Cell) returns (c: Cell)
    requires CentresOf(a, g) == CentresOf(b, h) && g.resolution == h.resolution && d in b
    ensures c in a && g.Square(c) == h.Square(d)
  {
    hide Lattice.Centre;
    assert h.Centre(d) in CentresOf(b, h);
    c :| c in a && g.Centre(c) == h.Centre(d);
  }

  /** A tight box around cells is one around the squares at their centres. */
  lemma HullMoves(box: Bounds, a: set<Cell>, g: Lattice, b: set<Cell>, h: Lattice)
    requires IsHull(box, a, g) && g.resolution == h.resolution && CentresOf(a, g) == CentresOf(b, h)
    ensures IsHull(box, b, h)
  {
    hide Lattice.Centre;
    forall d | d in b
      ensures h.Square(d).Within(box)
    {
      var _ := Twin(a, g, b, h, d);
    }
    var left :| left in a && g.Square(left).minX == box.minX;
    var low :| low in a && g.Square(low).minY == box.minY;
    var right :| right in a && g.Square(right).maxX == box.maxX;
    var high :| high in a && g.Square(high).maxY == box.maxY;
    var c := Twin(b, h, a, g, left);
    c := Twin(b, h, a, g, low);
    c := Twin(b, h, a, g, right);
    c := Twin(b, h, a, g, high);
  }

  lemma NoHull(g: Lattice)
    ensures Hull({}, g) == None
  {
  }

  lemma SameHull(a: set<Cell>, g: Lattice, b: set<Cell>, h: Lattice)
    requires g.resolution == h.resolution && CentresOf(a, g) == CentresOf(b, h)
    ensures Hull(a, g) == Hull(b, h)
  {
    hide IsHull, Lattice.Centre;
    if a == {} {
      assert CentresOf(a, g) == {};
      assert forall d | d in b :: h.Centre(d) in CentresOf(b, h);
      assert b == {};
      NoHull(g);
      NoHull(h);
    } else {
      var c :| c in a;
      assert g.Centre(c) in CentresOf(a, g);
      HullMoves(Hull(a, g).value, a, g, b, h);
      HullIsUnique(Hull(a, g), Hull(b, h), b, h);
    }
  }

  // ---------- Findings ----------

  lemma SameCounts(a: set<Cell>, g: Lattice, b: set<Cell>, h: Lattice, tracks: seq<Track>)
    requires g.resolution == h.resolution > 0.0 && CentresOf(a, g) == CentresOf(b, h)
    ensures |a| == |b|
    ensures |CoveredBy(a, g, tracks, 1)| == |CoveredBy(b, h, tracks, 1)|
    ensures |CoveredBy(a, g, tracks, 2)| == |CoveredBy(b, h, tracks, 2)|
    ensures Hull(Uncovered(a, g, tracks), g) == Hull(Uncovered(b, h, tracks), h)
  {
    hide Passes, Lattice.Centre, CentresOf;
    AsManyCentres(a, g);
    AsManyCentres(b, h);
    CoveredCentres(a, g, tracks, 1);
    CoveredCentres(b, h, tracks, 1);
    CoveredCentres(a, g, tracks, 2);
    CoveredCentres(b, h, tracks, 2);
    UncoveredCentres(a, g, tracks);
    UncoveredCentres(b, h, tracks);
    SameHull(Uncovered(a, g, tracks), g, Uncovered(b, h, tracks), h);
  }

  /** Boundaries that measure the same have the same finding, whatever has been flown. */
  lemma SameMeasureSameFinding(a: Polygon, b: Polygon, tracks: seq<Track>, resolution: real)
    requires SameMeasure(a, b, resolution) && tracks != []
    ensures var left, right := Outcome(a, tracks, resolution), Outcome(b, tracks, resolution);
      left.Ok? && right.Ok? && FindingOf(left.value) == FindingOf(right.value)
  {
    hide Outcome, Encloses, BoundsOf, NetArea, CentresOf;
    OkIffMeasurable(a, tracks, resolution);
    OkIffMeasurable(b, tracks, resolution);
    var g, h := LatticeOf(a, resolution), LatticeOf(b, resolution);
    SameCounts(Analysed(a, g), g, Analysed(b, h), h, tracks);
    SameSummary(a, g, Analysed(a, g), b, h, Analysed(b, h), tracks);
  }

  lemma SameSummary(a: Polygon, g: Lattice, cells: set<Cell>, b: Polygon, h: Lattice, others: set<Cell>,
                    tracks: seq<Track>)
    requires cells != {} && others != {} && |cells| == |others| && NetArea(a) == NetArea(b)
    requires g.resolution == h.resolution && Midpoint(g.bounds) == Midpoint(h.bounds)
    requires |CoveredBy(cells, g, tracks, 1)| == |CoveredBy(others, h, tracks, 1)|
    requires |CoveredBy(cells, g, tracks, 2)| == |CoveredBy(others, h, tracks, 2)|
    requires Hull(Uncovered(cells, g, tracks), g) == Hull(Uncovered(others, h, tracks), h)
    ensures Summary(a, g, tracks, cells) == Summary(b, h, tracks, others)
  {
    hide CoveredBy, Uncovered, NetArea, Midpoint, RecommendedLine, FragmentFlag;
  }
}
