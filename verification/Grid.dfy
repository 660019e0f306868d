/** The analysis grid laid over a bounding box, sets of its cells, and the tight box around them. */
module Grid {
  import opened Wrappers
  import opened Plane
  import opened Polygons

  datatype Cell = Cell(row: int, column: int)

  /** A square lattice anchored at the lower left corner of a box; cells have any integer position. */
  datatype Lattice = Lattice(bounds: Bounds, resolution: real) {
    function Centre(c: Cell): Point {
      Point(bounds.minX + Offset(c.column, resolution), bounds.minY + Offset(c.row, resolution))
    }

    function Square(c: Cell): Bounds {
      var p := Centre(c);
      Bounds(p.x - resolution / 2.0, p.y - resolution / 2.0, p.x + resolution / 2.0, p.y + resolution / 2.0)
    }

    function Columns(): int
      requires resolution > 0.0
    {
      Ceil(bounds.Width() / resolution)
    }

    function Rows(): int
      requires resolution > 0.0
    {
      Ceil(bounds.Height() / resolution)
    }

    function CellCount(): int
      requires resolution > 0.0
    {
      Columns() * Rows()
    }
  }

  /** How far the middle of the cell at a position lies from the lattice's origin. */
  function Offset(position: int, resolution: real): real {
    (position as real + 0.5) * resolution
  }

  function Ceil(x: real): int {
    -((-x).Floor)
  }

  /** The finite window of cells that is scanned. */
  ghost function Window(rows: int, columns: int): set<Cell> {
    set r, c | 0 <= r < rows && 0 <= c < columns :: Cell(r, c)
  }

  ghost function Enclosed(cells: set<Cell>, boundary: Polygon, g: Lattice): set<Cell> {
    set c | c in cells && Encloses(boundary, g.Centre(c))
  }

  // ---------- The window misses nothing ----------

  lemma OffsetInRange(position: int, resolution: real, span: real)
    requires resolution > 0.0
    requires 0.0 <= Offset(position, resolution) < span
    ensures 0 <= position < Ceil(span / resolution)
  {
    var x := position as real + 0.5;
    var q := span / resolution;
    assert q * resolution == span;
    Cancels(x, q, resolution);
  }

  lemma Cancels(x: real, q: real, d: real)
    requires d > 0.0
    ensures 0.0 <= x * d ==> 0.0 <= x
    ensures x * d < q * d ==> x < q
  {
    if x < 0.0 {
      assert (-x) * d > 0.0;
    }
    if x >= q {
      assert (x - q) * d >= 0.0;
    }
  }

  /** Every lattice cell, at any integer position, whose centre the polygon contains is in the window. */
  lemma WindowMissesNothing(boundary: Polygon, g: Lattice, c: Cell)
    requires g.resolution > 0.0
    requires BoundsOf(Vertices(boundary)) == Some(g.bounds)
    requires Encloses(boundary, g.Centre(c))
    ensures c in Window(g.Rows(), g.Columns())
  {
    PolygonStaysInItsBox(boundary, g.Centre(c));
    CentreInRange(g, c);
    InWindow(c, g.Rows(), g.Columns());
  }

  lemma CentreInRange(g: Lattice, c: Cell)
    requires g.resolution > 0.0 && InHalfOpenBox(g.bounds, g.Centre(c))
    ensures 0 <= c.column < g.Columns() && 0 <= c.row < g.Rows()
  {
    hide Offset;
    var x, y := Offset(c.column, g.resolution), Offset(c.row, g.resolution);
    assert g.Centre(c).x == g.bounds.minX + x && g.Centre(c).y == g.bounds.minY + y;
    OffsetInRange(c.column, g.resolution, g.bounds.Width());
    OffsetInRange(c.row, g.resolution, g.bounds.Height());
  }

  lemma InWindow(c: Cell, rows: int, columns: int)
    requires 0 <= c.row < rows && 0 <= c.column < columns
    ensures c in Window(rows, columns)
  {
    assert c == Cell(c.row, c.column);
  }

  /** So counting in the window counts over the whole infinite lattice. */
  lemma EnclosedIsTheWholeLattice(boundary: Polygon, g: Lattice)
    requires g.resolution > 0.0
    requires BoundsOf(Vertices(boundary)) == Some(g.bounds)
    ensures forall c :: c in Enclosed(Window(g.Rows(), g.Columns()), boundary, g) <==> Encloses(boundary, g.Centre(c))
  {
    forall c | Encloses(boundary, g.Centre(c))
      ensures c in Window(g.Rows(), g.Columns())
    {
      WindowMissesNothing(boundary, g, c);
    }
  }

  // ---------- The size of the window ----------

  lemma {:induction false} WindowSize(rows: nat, columns: nat)
    ensures |Window(rows, columns)| == rows * columns
  {
    if rows == 0 {
      assert Window(rows, columns) == {};
    } else {
      WindowSize(rows - 1, columns);
      RowSize(rows - 1, columns);
      assert Window(rows, columns) == Window(rows - 1, columns) + Row(rows - 1, columns);
      assert Window(rows - 1, columns) !! Row(rows - 1, columns);
      assert (rows - 1) * columns + columns == rows * columns;
    }
  }

  ghost function Row(row: int, columns: int): set<Cell> {
    set c | 0 <= c < columns :: Cell(row, c)
  }

  lemma {:induction false} RowSize(row: int, columns: nat)
    ensures |Row(row, columns)| == columns
  {
    if columns == 0 {
      assert Row(row, columns) == {};
    } else {
      RowSize(row, columns - 1);
      assert Row(row, columns) == Row(row, columns - 1) + {Cell(row, columns - 1)};
    }
  }

  // ---------- The tight box around a set of cells ----------

  /** The box contains the square of every cell, and some cell's square touches each of its sides. */
  ghost predicate IsHull(box: Bounds, cells: set<Cell>, g: Lattice) {
    && (forall c | c in cells :: g.Square(c).Within(box))
    && (exists c :: c in cells && g.Square(c).minX == box.minX)
    && (exists c :: c in cells && g.Square(c).minY == box.minY)
    && (exists c :: c in cells && g.Square(c).maxX == box.maxX)
    && (exists c :: c in cells && g.Square(c).maxY == box.maxY)
  }

  /** `None` is the inverted infinite box the source starts from. */
  ghost predicate IsHullOrEmpty(box: Option<Bounds>, cells: set<Cell>, g: Lattice) {
    match box
    case None => cells == {}
    case Some(box) => IsHull(box, cells, g)
  }

  lemma HullIsUnique(a: Option<Bounds>, b: Option<Bounds>, cells: set<Cell>, g: Lattice)
    requires IsHullOrEmpty(a, cells, g) && IsHullOrEmpty(b, cells, g)
    ensures a == b
  {
    if a.Some? && b.Some? {
      HullsAgree(a.value, b.value, cells, g);
    }
  }

  lemma HullsAgree(a: Bounds, b: Bounds, cells: set<Cell>, g: Lattice)
    requires IsHull(a, cells, g) && IsHull(b, cells, g)
    ensures a == b
  {
    HullWithin(a, b, cells, cells, g);
    HullWithin(b, a, cells, cells, g);
  }

  /** A hull of fewer cells lies inside a hull of more cells. */
  lemma HullWithin(a: Bounds, b: Bounds, fewer: set<Cell>, more: set<Cell>, g: Lattice)
    requires fewer <= more && IsHull(a, fewer, g) && IsHull(b, more, g)
    ensures a.Within(b)
  {
    var x0 :| x0 in fewer && g.Square(x0).minX == a.minX;
    var y0 :| y0 in fewer && g.Square(y0).minY == a.minY;
    var x1 :| x1 in fewer && g.Square(x1).maxX == a.maxX;
    var y1 :| y1 in fewer && g.Square(y1).maxY == a.maxY;
    assert g.Square(x0).Within(b) && g.Square(y0).Within(b) && g.Square(x1).Within(b) && g.Square(y1).Within(b);
  }

  lemma HullGrows(box: Option<Bounds>, cells: set<Cell>, g: Lattice, c: Cell)
    requires IsHullOrEmpty(box, cells, g)
    ensures IsHull(Join(box, g.Square(c)), cells + {c}, g)
  {
    var all := cells + {c};
    assert c in all;
    match box
    case None =>
    case Some(b) =>
      var x0 :| x0 in cells && g.Square(x0).minX == b.minX;
      var y0 :| y0 in cells && g.Square(y0).minY == b.minY;
      var x1 :| x1 in cells && g.Square(x1).maxX == b.maxX;
      var y1 :| y1 in cells && g.Square(y1).maxY == b.maxY;
      assert x0 in all && y0 in all && x1 in all && y1 in all;
  }

  lemma {:induction false} HullExists(cells: set<Cell>, g: Lattice)
    ensures exists box :: IsHullOrEmpty(box, cells, g)
  {
    if cells == {} {
      assert IsHullOrEmpty(None, cells, g);
    } else {
      var c :| c in cells;
      HullExists(cells - {c}, g);
      var box :| IsHullOrEmpty(box, cells - {c}, g);
      HullGrows(box, cells - {c}, g, c);
      assert cells - {c} + {c} == cells;
      assert IsHullOrEmpty(Some(Join(box, g.Square(c))), cells, g);
    }
  }

  /** The tight box around a set of cells, as a function. */
  ghost function Hull(cells: set<Cell>, g: Lattice): (box: Option<Bounds>)
    ensures IsHullOrEmpty(box, cells, g)
  {
    HullExists(cells, g);
    var box :| IsHullOrEmpty(box, cells, g); box
  }
}
