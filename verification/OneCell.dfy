/** Rectangles so small that the lattice has a single cell: their coverage is all or nothing. */
module OneCell {
  import opened Wrappers
  import opened Plane
  import opened Polygons
  import opened Rectangles
  import opened Distance
  import opened Grid
  import opened Coverage

  /** One cell spans the whole rectangle, and its centre lies inside. */
  predicate FitsOneCell(b: Bounds, resolution: real) {
    HasArea(b) && b.Width() <= resolution < 2.0 * b.Width() && b.Height() <= resolution < 2.0 * b.Height()
  }

  function OnlyCentre(b: Bounds, resolution: real): Point {
    Point(b.minX + resolution / 2.0, b.minY + resolution / 2.0)
  }

  lemma OneRow(span: real, resolution: real)
    requires 0.0 < span <= resolution
    ensures Ceil(span / resolution) == 1
  {
    var q := span / resolution;
    assert q * resolution == span;
    assert 0.0 < q <= 1.0;
  }

  lemma OneCellIsAnalysed(b: Bounds, resolution: real)
    requires FitsOneCell(b, resolution)
    ensures var g := Lattice(b, resolution);
      && g.CellCount() == 1 && g.Centre(Cell(0, 0)) == OnlyCentre(b, resolution)
      && Analysed(RectangleOf(b), g) == {Cell(0, 0)}
  {
    hide Encloses;
    var g := Lattice(b, resolution);
    OneRow(b.Width(), resolution);
    OneRow(b.Height(), resolution);
    assert g.Columns() == 1 && g.Rows() == 1;
    RectangleFacts(b);
    assert Offset(0, resolution) == resolution / 2.0;
    OnlyCell();
  }

  lemma OnlyCell()
    ensures Window(1, 1) == {Cell(0, 0)}
  {
  }

  lemma AllOrNothing(b: Bounds, resolution: real, track: Track)
    requires FitsOneCell(b, resolution)
    ensures var outcome := Outcome(RectangleOf(b), [track], resolution);
      && outcome.Ok?
      && outcome.value.coverageRatio == (if Covers(track, OnlyCentre(b, resolution)) then 1.0 else 0.0)
      && outcome.value.gapRatio == 1.0 - outcome.value.coverageRatio
  {
    hide Encloses, Covers, BoundsOf, NetArea, Lattice.CellCount, Lattice.Centre, Analysed, GapArtifacts;
    RectangleFacts(b);
    OneCellIsAnalysed(b, resolution);
    var g := Lattice(b, resolution);
    OneCellIsCovered(g, track);
  }

  lemma OneCellIsCovered(g: Lattice, track: Track)
    ensures |CoveredBy({Cell(0, 0)}, g, [track], 1)| == if Covers(track, g.Centre(Cell(0, 0))) then 1 else 0
  {
    hide Covers, Lattice.Centre;
    assert Passes([track], g.Centre(Cell(0, 0))) == if Covers(track, g.Centre(Cell(0, 0))) then 1 else 0;
    if Covers(track, g.Centre(Cell(0, 0))) {
      assert CoveredBy({Cell(0, 0)}, g, [track], 1) == {Cell(0, 0)};
    } else {
      assert CoveredBy({Cell(0, 0)}, g, [track], 1) == {};
    }
  }
}
